/** Iterating a map on integers: fixed points, two-cycles, and a rank bound. */
module Iteration {

  function Iterate(next: int -> int, c: int, k: nat): int
    decreases k
  {
    if k == 0 then c else Iterate(next, next(c), k - 1)
  }

  /** How many of the first k applications change the value. */
  function Moves(next: int -> int, c: int, k: nat): nat
    decreases k
  {
    if k == 0 then 0 else (if next(c) != c then 1 else 0) + Moves(next, next(c), k - 1)
  }

  lemma {:induction false} FixedStays(next: int -> int, c: int, k: nat)
    requires next(c) == c
    ensures Iterate(next, c, k) == c
    decreases k
  {
    if k > 0 {
      FixedStays(next, c, k - 1);
    }
  }

  lemma {:induction false} IterateSplit(next: int -> int, c: int, m: nat, k: nat)
    ensures Iterate(next, c, m + k) == Iterate(next, Iterate(next, c, m), k)
    decreases m
  {
    if m > 0 {
      IterateSplit(next, next(c), m - 1, k);
    }
  }

  lemma {:induction false} TwoCycle(next: int -> int, c: int, h: int, k: nat)
    requires next(c) == h && next(h) == c
    ensures Iterate(next, c, k) == if k % 2 == 0 then c else h
    decreases k
  {
    if k > 0 {
      TwoCycle(next, h, c, k - 1);
    }
  }

  ghost predicate Descends(next: int -> int, rank: int -> nat) {
    forall c :: next(c) != c ==> rank(next(c)) < rank(c)
  }

  lemma {:induction false} MovesWithinRank(next: int -> int, rank: int -> nat, c: int, k: nat)
    requires Descends(next, rank)
    ensures Moves(next, c, k) <= rank(c)
    decreases k
  {
    if k > 0 {
      MovesWithinRank(next, rank, next(c), k - 1);
    }
  }

  lemma {:induction false} SettlesWithinRank(next: int -> int, rank: int -> nat, c: int, k: nat)
    requires Descends(next, rank) && rank(c) <= k
    ensures next(Iterate(next, c, k)) == Iterate(next, c, k)
    decreases k
  {
    if next(c) == c {
      FixedStays(next, c, k);
    } else {
      SettlesWithinRank(next, rank, next(c), k - 1);
    }
  }

  /** Repeated application from c never reaches a fixed point. */
  ghost predicate NeverSettles(next: int -> int, c: int) {
    forall k: nat :: next(Iterate(next, c, k)) != Iterate(next, c, k)
  }

  /** A map that keeps {c, h} never settles from c exactly when it moves both. */
  lemma TwoValuesAlternateIff(next: int -> int, c: int, h: int)
    requires c != h && next(c) in {c, h} && next(h) in {c, h}
    ensures NeverSettles(next, c) <==> next(c) != c && next(h) != h
    ensures NeverSettles(next, c) ==> forall k: nat :: Iterate(next, c, k) == if k % 2 == 0 then c else h
  {
    if next(c) != c && next(h) != h {
      forall k: nat
        ensures Iterate(next, c, k) == if k % 2 == 0 then c else h
      {
        TwoCycle(next, c, h, k);
      }
    } else {
      assert Iterate(next, c, 0) == c;
      assert Iterate(next, c, 1) == Iterate(next, next(c), 0) == next(c);
    }
  }

  /** A map that keeps a pool settles from none of its values exactly when it
      moves all of them. */
  lemma NoneSettlesInPool(next: int -> int, pool: set<int>)
    requires forall c :: c in pool ==> next(c) in pool
    ensures (forall c :: c in pool ==> NeverSettles(next, c)) <==> forall c :: c in pool ==> next(c) != c
  {
    forall c, k: nat | c in pool
      ensures Iterate(next, c, k) in pool
    {
      IterateStays(next, pool, c, k);
    }
    forall c | c in pool && NeverSettles(next, c)
      ensures next(c) != c
    {
      assert Iterate(next, c, 0) == c;
    }
  }

  lemma {:induction false} IterateStays(next: int -> int, pool: set<int>, c: int, k: nat)
    requires c in pool && forall x :: x in pool ==> next(x) in pool
    ensures Iterate(next, c, k) in pool
    decreases k
  {
    if k > 0 {
      IterateStays(next, pool, next(c), k - 1);
    }
  }

  lemma {:induction false} IterateOnce(next: int -> int, c: int, k: nat)
    ensures Iterate(next, c, k + 1) == next(Iterate(next, c, k))
  {
    IterateSplit(next, c, k, 1);
    assert Iterate(next, Iterate(next, c, k), 1) == Iterate(next, next(Iterate(next, c, k)), 0);
  }

  /** More values than the set they come from: two of them coincide. */
  lemma {:induction false} Pigeonhole(s: seq<int>, pool: set<int>)
    requires |pool| < |s| && forall i :: 0 <= i < |s| ==> s[i] in pool
    ensures exists i, j :: 0 <= i < j < |s| && s[i] == s[j]
  {
    var n := |s| - 1;
    assert s[n] in pool;
    if j :| 0 <= j < n && s[j] == s[n] {
    } else if n > 0 {
      Pigeonhole(s[..n], pool - {s[n]});
      var i, j :| 0 <= i < j < n && s[..n][i] == s[..n][j];
      assert s[i] == s[j];
    }
  }

  /** A map whose moves all land in `pool` either has settled after |pool|
      applications or never settles. */
  lemma SettlesEarlyOrNever(next: int -> int, pool: set<int>, c: int)
    requires forall x :: next(x) != x ==> next(x) in pool
    ensures NeverSettles(next, c) <==> next(Iterate(next, c, |pool|)) != Iterate(next, c, |pool|)
  {
    var n := |pool|;
    if next(Iterate(next, c, n)) != Iterate(next, c, n) {
      forall i: nat | i <= n
        ensures next(Iterate(next, c, i)) != Iterate(next, c, i)
      {
        MovingBefore(next, c, i, n);
      }
      var orbit := seq(n + 1, i requires 0 <= i => Iterate(next, c, i + 1));
      forall i | 0 <= i <= n
        ensures orbit[i] in pool
      {
        IterateOnce(next, c, i);
      }
      Pigeonhole(orbit, pool);
      var i, j :| 0 <= i < j <= n && orbit[i] == orbit[j];
      forall k: nat
        ensures next(Iterate(next, c, k)) != Iterate(next, c, k)
      {
        LoopKeepsMoving(next, c, i + 1, j + 1, k);
      }
    }
  }

  lemma MovingBefore(next: int -> int, c: int, i: nat, n: nat)
    requires i <= n && next(Iterate(next, c, n)) != Iterate(next, c, n)
    ensures next(Iterate(next, c, i)) != Iterate(next, c, i)
  {
    IterateSplit(next, c, i, n - i);
    if next(Iterate(next, c, i)) == Iterate(next, c, i) {
      FixedStays(next, Iterate(next, c, i), n - i);
    }
  }

  lemma {:induction false} LoopKeepsMoving(next: int -> int, c: int, i: nat, j: nat, k: nat)
    requires i < j && Iterate(next, c, i) == Iterate(next, c, j)
    requires forall m: nat :: m < j ==> next(Iterate(next, c, m)) != Iterate(next, c, m)
    ensures next(Iterate(next, c, k)) != Iterate(next, c, k)
    decreases k
  {
    if k >= j {
      IterateSplit(next, c, i, k - j);
      IterateSplit(next, c, j, k - j);
      LoopKeepsMoving(next, c, i, j, k - j + i);
    }
  }
}
