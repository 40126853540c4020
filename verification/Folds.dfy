/** Bags gathered along a sequence, and bags of sequences of sequences. */
module Folds {

  /** The union of the bags `one` assigns to the elements of s. */
  function Gather<T>(one: int -> multiset<T>, s: seq<int>): multiset<T> {
    if s == [] then multiset{} else Gather(one, s[..|s| - 1]) + one(s[|s| - 1])
  }

  lemma {:induction false} GatherConcat<T>(one: int -> multiset<T>, a: seq<int>, b: seq<int>)
    ensures Gather(one, a + b) == Gather(one, a) + Gather(one, b)
  {
    if b == [] {
      assert a + b == a;
    } else {
      var n := |b| - 1;
      GatherConcat(one, a, b[..n]);
      assert (a + b)[..|a + b| - 1] == a + b[..n];
      assert (a + b)[|a + b| - 1] == b[n];
    }
  }

  lemma GatherSnoc<T>(one: int -> multiset<T>, s: seq<int>, j: nat)
    requires j < |s|
    ensures Gather(one, s[..j + 1]) == Gather(one, s[..j]) + one(s[j])
  {
    assert s[..j + 1][..j] == s[..j];
  }

  /** Any two orders of the same elements gather the same bag. */
  lemma {:induction false} GatherPermutes<T>(one: int -> multiset<T>, a: seq<int>, b: seq<int>)
    requires multiset(a) == multiset(b)
    ensures Gather(one, a) == Gather(one, b)
  {
    if a == [] {
      assert |b| == |multiset(b)| == 0;
    } else {
      var n := |a| - 1;
      var x := a[n];
      assert a == a[..n] + [x];
      assert x in multiset(a) && x in multiset(b);
      var i :| 0 <= i < |b| && b[i] == x;
      var front, back := b[..i], b[i + 1..];
      SplitAt(b, i);
      RemoveOne(a, b, i);
      GatherPermutes(one, a[..n], front + back);
      GatherMiddle(one, front, x, back);
    }
  }

  lemma SplitAt(b: seq<int>, i: nat)
    requires i < |b|
    ensures b == b[..i] + [b[i]] + b[i + 1..]
  {
  }

  /** Dropping the last of a, and the same element from b, leaves equal bags. */
  lemma RemoveOne(a: seq<int>, b: seq<int>, i: nat)
    requires a != [] && multiset(a) == multiset(b) && i < |b| && b[i] == a[|a| - 1]
    ensures multiset(a[..|a| - 1]) == multiset(b[..i] + b[i + 1..])
  {
    var n, x, front, back := |a| - 1, b[i], b[..i], b[i + 1..];
    assert a == a[..n] + [x];
    assert multiset(a) == multiset(a[..n]) + multiset{x};
    SplitAt(b, i);
    assert multiset(b) == multiset(front) + multiset{x} + multiset(back);
    assert multiset(a[..n]) == multiset(a) - multiset{x} == multiset(b) - multiset{x} == multiset(front + back);
  }

  lemma GatherMiddle<T>(one: int -> multiset<T>, front: seq<int>, x: int, back: seq<int>)
    ensures Gather(one, front + [x] + back) == Gather(one, front + back) + one(x)
  {
    GatherConcat(one, front + [x], back);
    GatherConcat(one, front, [x]);
    GatherConcat(one, front, back);
    assert [x][..0] == [];
  }

  // ── Sequences of sequences ─────────────────────────────────────────────────

  function Flatten(lists: seq<seq<int>>): seq<int> {
    if lists == [] then [] else Flatten(lists[..|lists| - 1]) + lists[|lists| - 1]
  }

  lemma {:induction false} FlattenCons(first: seq<int>, rest: seq<seq<int>>)
    ensures Flatten([first] + rest) == first + Flatten(rest)
  {
    var all := [first] + rest;
    if rest == [] {
      assert all[..0] == [];
    } else {
      var n := |rest| - 1;
      FlattenCons(first, rest[..n]);
      assert all[..n + 1] == [first] + rest[..n];
    }
  }

  /** Appending to one list adds that element to the bag of all. */
  lemma {:induction false} FlattenAppend(lists: seq<seq<int>>, k: nat, x: int)
    requires k < |lists|
    ensures multiset(Flatten(lists[k := lists[k] + [x]])) == multiset(Flatten(lists)) + multiset{x}
  {
    var n := |lists| - 1;
    var more := lists[k := lists[k] + [x]];
    if k == n {
      assert more[..n] == lists[..n];
      assert Flatten(more) == Flatten(lists) + [x];
    } else {
      FlattenAppend(lists[..n], k, x);
      assert more[..n] == lists[..n][k := lists[k] + [x]];
      assert multiset(Flatten(more)) == multiset(Flatten(more[..n])) + multiset(lists[n]);
      assert multiset(Flatten(lists)) == multiset(Flatten(lists[..n])) + multiset(lists[n]);
    }
  }

  function UpTo(n: nat): seq<int> {
    seq(n, i => i)
  }

  lemma GatherUpTo<T>(each: int -> multiset<T>, n: nat)
    requires n > 0
    ensures Gather(each, UpTo(n)) == Gather(each, UpTo(n - 1)) + each(n - 1)
  {
    assert UpTo(n)[..n - 1] == UpTo(n - 1);
  }

  lemma FlattenSnoc(lists: seq<seq<int>>, n: nat)
    requires 0 < n <= |lists|
    ensures Flatten(lists[..n]) == Flatten(lists[..n - 1]) + lists[n - 1]
  {
    assert lists[..n][..n - 1] == lists[..n - 1];
  }

  /** Gathering the lists' own bags is gathering along their concatenation. */
  lemma {:induction false} GatherFlatten<T>(one: int -> multiset<T>, each: int -> multiset<T>,
                                            lists: seq<seq<int>>, n: nat)
    requires n <= |lists| && forall k :: 0 <= k < n ==> each(k) == Gather(one, lists[k])
    ensures Gather(each, UpTo(n)) == Gather(one, Flatten(lists[..n]))
  {
    if n > 0 {
      GatherFlatten(one, each, lists, n - 1);
      GatherUpTo(each, n);
      FlattenSnoc(lists, n);
      GatherConcat(one, Flatten(lists[..n - 1]), lists[n - 1]);
    }
  }
}
