/** Repeated runs of the pipeline on an unchanged window: when they stop
    switching price, when they must switch, and when they alternate forever. */
module ConsensusStability {
  import opened Common
  import opened Rounding
  import opened ConsensusScoring
  import opened ConsensusPatterns
  import opened ConsensusRow
  import opened Iteration

  function Base(run: Run): seq<Weighted> {
    Weigh(run.window, run.now, run.cfg)
  }

  function PriceSet(run: Run): set<int> {
    set k | 0 <= k < |run.window| :: run.window[k].price
  }

  /** The newest `threshold` scans exist and all quote one price. */
  predicate UniformHead(run: Run) {
    && run.cfg.emergingThreshold <= |run.window|
    && forall k :: 0 <= k < run.cfg.emergingThreshold ==> run.window[k].price == run.window[0].price
  }

  // ── Settling ───────────────────────────────────────────────────────────────

  /** Without a uniform head, a switch strictly raises the incumbent's own
      un-neutralised weight. */
  lemma SwitchRaisesWeight(c: int, run: Run)
    requires !UniformHead(run)
    requires NextPrice(c, run) != c
    ensures NextPrice(c, run) in PriceSet(run)
    ensures WeightOf(Base(run), c) < WeightOf(Base(run), NextPrice(c, run))
  {
    AssessmentSound(c, run);
    var base, d := Base(run), NextPrice(c, run);
    var a, adjusted := PatternA(base, c), Adjusted(base, c, run.cfg);
    assert forall k :: 0 <= k < |a| ==> a[k].price == run.window[k].price;
    assert !Emerging(a, c, run.cfg.emergingThreshold);
    PatternsNeverRaise(base, c, run.cfg);
    WeightOfLowered(base, adjusted, c);
    WeightOfLowered(adjusted, base, d);
    NewestKeepsWeight(base, c, run.cfg);
    if WeightOf(adjusted, d) <= WeightOf(adjusted, c) {
      PercentMonotone(WeightOf(adjusted, d), WeightOf(adjusted, c), Total(adjusted));
    }
  }

  /** Prices of the window that outweigh p before any pattern is applied. */
  ghost function Heavier(run: Run, p: int): set<int> {
    set q | q in PriceSet(run) && WeightOf(Base(run), q) > WeightOf(Base(run), p)
  }

  lemma SwitchShrinksHeavier(c: int, run: Run)
    requires !UniformHead(run)
    requires NextPrice(c, run) != c
    ensures |Heavier(run, NextPrice(c, run))| < |Heavier(run, c)|
  {
    SwitchRaisesWeight(c, run);
    var d := NextPrice(c, run);
    assert Heavier(run, d) <= Heavier(run, c) - {d};
    SubsetSize(Heavier(run, d), Heavier(run, c) - {d});
  }

  lemma SubsetSize<T>(a: set<T>, b: set<T>)
    requires a <= b
    ensures |a| <= |b|
  {
    assert b == a + (b - a);
  }

  /** One run on an unchanged window at an unchanged instant, as a map on prices. */
  function PriceMap(run: Run): int -> int {
    c => NextPrice(c, run)
  }

  ghost function Rank(run: Run): int -> nat {
    c => |Heavier(run, c)|
  }

  lemma PriceMapDescends(run: Run)
    requires !UniformHead(run)
    ensures Descends(PriceMap(run), Rank(run))
  {
    forall c | PriceMap(run)(c) != c
      ensures Rank(run)(PriceMap(run)(c)) < Rank(run)(c)
    {
      SwitchShrinksHeavier(c, run);
    }
  }

  /** k consecutive runs of the whole pipeline on one row. */
  function Rerun(s: State, run: Run, k: nat): State
    decreases k
  {
    if k == 0 then s else Rerun(Step(s, run).0, run, k - 1)
  }

  lemma RunMovesPrice(s: State, run: Run)
    requires !run.dryRun
    ensures Step(s, run).0.row.price == if StillFrozen(s.row, run.now) then s.row.price else NextPrice(s.row.price, run)
    ensures StillFrozen(Step(s, run).0.row, run.now) == StillFrozen(s.row, run.now)
    ensures Step(s, run).1 == Basculement <==> Step(s, run).0.row.price != s.row.price
  {
    if run.window == [] {
      assert Total(Adjusted(Base(run), s.row.price, run.cfg)) == 0.0;
    }
  }

  /** How many of k consecutive runs report a switch. */
  function SwitchCount(s: State, run: Run, k: nat): nat
    decreases k
  {
    if k == 0 then 0
    else (if Step(s, run).1 == Basculement then 1 else 0) + SwitchCount(Step(s, run).0, run, k - 1)
  }

  lemma {:induction false} RerunFollowsPrices(s: State, run: Run, k: nat, next: int -> int)
    requires !run.dryRun && next == PriceMap(run)
    ensures Rerun(s, run, k).row.price ==
      if StillFrozen(s.row, run.now) then s.row.price else Iterate(next, s.row.price, k)
    ensures SwitchCount(s, run, k) == if StillFrozen(s.row, run.now) then 0 else Moves(next, s.row.price, k)
    decreases k
  {
    if k > 0 {
      RunMovesPrice(s, run);
      RerunFollowsPrices(Step(s, run).0, run, k - 1, next);
    }
  }

  /** With window and clock fixed and the head not uniform, the row's price no
      longer changes once it has been run as often as the window has distinct
      prices, and no number of runs reports more switches than that. */
  lemma RepeatedRunsSettle(s: State, run: Run, k: nat)
    requires !run.dryRun && !UniformHead(run)
    requires |PriceSet(run)| <= k
    ensures Rerun(s, run, k).row.price == Rerun(s, run, |PriceSet(run)|).row.price
    ensures SwitchCount(s, run, k) <= |PriceSet(run)|
  {
    var c, n := s.row.price, |PriceSet(run)|;
    var next, rank := PriceMap(run), Rank(run);
    RerunFollowsPrices(s, run, k, next);
    RerunFollowsPrices(s, run, n, next);
    PriceMapDescends(run);
    assert rank(c) <= n by {
      SubsetSize(Heavier(run, c), PriceSet(run));
    }
    IterationSettles(next, rank, c, n, k);
  }

  lemma IterationSettles(next: int -> int, rank: int -> nat, c: int, n: nat, k: nat)
    requires Descends(next, rank) && rank(c) <= n <= k
    ensures Iterate(next, c, k) == Iterate(next, c, n)
    ensures Moves(next, c, k) <= n
  {
    MovesWithinRank(next, rank, c, k);
    SettlesWithinRank(next, rank, c, n);
    FixedStays(next, Iterate(next, c, n), k - n);
    IterateSplit(next, c, n, k - n);
  }

  // ── A uniform head ─────────────────────────────────────────────────────────

  /** With c as incumbent, some price of the window has a strictly higher rounded score. */
  predicate Outscored(c: int, run: Run)
    requires run.window != []
  {
    var items := Adjusted(Base(run), c, run.cfg);
    && Total(items) > 0.0
    && exists i :: 0 <= i < |items| &&
         Percent(WeightOf(items, items[i].price), Total(items)) > Percent(WeightOf(items, c), Total(items))
  }

  lemma SwitchIffScored(c: int, run: Run)
    requires run.window != []
    ensures NextPrice(c, run) != c <==> Outscored(c, run)
  {
    var base := Base(run);
    PatternsNeverRaise(base, c, run.cfg);
    NewestKeepsWeight(base, c, run.cfg);
    SwitchIffOutscored(Adjusted(base, c, run.cfg), c);
  }

  lemma NextPriceQuoted(c: int, run: Run)
    ensures NextPrice(c, run) == c || NextPrice(c, run) in PriceSet(run)
  {
    AssessmentSound(c, run);
  }

  /** Any window at all: either the price no longer changes once it has been run
      as often as the window has distinct prices, or it changes for ever. */
  lemma SettlesOrNever(c: int, run: Run, next: int -> int)
    requires next == PriceMap(run)
    ensures NeverSettles(next, c) <==>
      next(Iterate(next, c, |PriceSet(run)|)) != Iterate(next, c, |PriceSet(run)|)
  {
    forall x | next(x) != x
      ensures next(x) in PriceSet(run)
    {
      NextPriceQuoted(x, run);
    }
    SettlesEarlyOrNever(next, PriceSet(run), c);
  }

  /** On a window of any number of prices: runs settle from none of them exactly
      when every one of them is outscored while it is the incumbent. */
  lemma NoneSettlesIff(run: Run, next: int -> int)
    requires run.window != [] && next == PriceMap(run)
    ensures (forall c :: c in PriceSet(run) ==> NeverSettles(next, c)) <==>
      forall c :: c in PriceSet(run) ==> Outscored(c, run)
  {
    forall c | c in PriceSet(run)
      ensures next(c) in PriceSet(run) && (next(c) != c <==> Outscored(c, run))
    {
      NextPriceQuoted(c, run);
      SwitchIffScored(c, run);
    }
    NoneSettlesInPool(next, PriceSet(run));
  }

  /** On a window of two prices, runs settle unless each price is outscored while
      it is the incumbent; and then they alternate for ever. */
  lemma TwoPricesAlternateIff(c: int, h: int, run: Run, next: int -> int)
    requires c != h && PriceSet(run) == {c, h} && run.window != []
    requires next == PriceMap(run)
    ensures NeverSettles(next, c) <==> Outscored(c, run) && Outscored(h, run)
    ensures NeverSettles(next, c) ==> forall k: nat :: Iterate(next, c, k) == if k % 2 == 0 then c else h
  {
    assert next(c) in {c, h} && next(h) in {c, h} by {
      NextPriceQuoted(c, run);
      NextPriceQuoted(h, run);
    }
    assert next(c) != c <==> Outscored(c, run) by {
      SwitchIffScored(c, run);
    }
    assert next(h) != h <==> Outscored(h, run) by {
      SwitchIffScored(h, run);
    }
    TwoValuesAlternateIff(next, c, h);
  }

  // ── An emerging price unseats the incumbent ────────────────────────────────

  /** k copies of w, added up. */
  function Times(k: nat, w: real): real {
    if k == 0 then 0.0 else Times(k - 1, w) + w
  }

  lemma {:induction false} TimesIsProduct(k: nat, w: real)
    ensures Times(k, w) == k as real * w
  {
    if k > 0 {
      TimesIsProduct(k - 1, w);
      assert k as real * w == (k - 1) as real * w + w;
    }
  }

  /** The head's scans alone weigh at least `t` times the floor. */
  lemma {:induction false} HeadWeight(items: seq<Weighted>, p: int, t: nat, floor: real)
    requires NonNegative(items) && t <= |items|
    requires forall k :: 0 <= k < t ==> items[k].price == p && items[k].weight >= floor
    ensures WeightOf(items, p) >= Times(t, floor)
  {
    if items != [] {
      var n := |items| - 1;
      if t <= n {
        HeadWeight(items[..n], p, t, floor);
      } else {
        HeadWeight(items[..n], p, n, floor);
      }
    }
  }

  /** Scans that all sit behind the head and under a cap weigh at most the cap each. */
  lemma {:induction false} TailWeight(items: seq<Weighted>, p: int, t: nat, cap: real)
    requires t <= |items| && 0.0 <= cap
    requires forall k :: 0 <= k < |items| && items[k].price == p ==> t <= k && items[k].weight <= cap
    ensures WeightOf(items, p) <= Times(|items| - t, cap)
  {
    if |items| == t {
      WeightOfAbsent(items, p);
    } else {
      var n := |items| - 1;
      TailWeight(items[..n], p, t, cap);
    }
  }

  /** Pattern B's effect on an emerging window: the head keeps its weight, and
      what is left of the incumbent lies behind it, under the cap. */
  lemma EmergingShape(base: seq<Weighted>, c: int, cfg: Config, k: nat)
    requires Emerging(base, c, cfg.emergingThreshold) && k < |base|
    ensures k < cfg.emergingThreshold ==> Adjusted(base, c, cfg)[k] == base[k] && base[k].price == base[0].price
    ensures base[k].price == c ==>
      cfg.emergingThreshold <= k && Adjusted(base, c, cfg)[k].weight <= cfg.emergingOldWeight
  {
    var t, a := cfg.emergingThreshold, PatternA(base, c);
    assert Emerging(a, c, t);
    if k < t {
      assert base[k].price == base[0].price;
      assert k > 0 ==> base[k - 1].price == base[0].price;
      assert !Isolated(base, c, k);
    }
  }

  lemma EmergingHead(base: seq<Weighted>, c: int, cfg: Config)
    requires Emerging(base, c, cfg.emergingThreshold)
    requires forall k :: 0 <= k < |base| ==> base[k].weight >= cfg.scanWeightFloor
    ensures WeightOf(Adjusted(base, c, cfg), base[0].price) >= Times(cfg.emergingThreshold, cfg.scanWeightFloor)
  {
    var t, items, floor := cfg.emergingThreshold, Adjusted(base, c, cfg), cfg.scanWeightFloor;
    assert NonNegative(items) by {
      PatternsNeverRaise(base, c, cfg);
    }
    forall k | 0 <= k < t
      ensures items[k].price == base[0].price && items[k].weight >= floor
    {
      EmergingShape(base, c, cfg, k);
    }
    HeadWeight(items, base[0].price, t, floor);
  }

  lemma EmergingTail(base: seq<Weighted>, c: int, cfg: Config)
    requires Emerging(base, c, cfg.emergingThreshold)
    ensures WeightOf(Adjusted(base, c, cfg), c) <= Times(|base| - cfg.emergingThreshold, cfg.emergingOldWeight)
  {
    var t, items := cfg.emergingThreshold, Adjusted(base, c, cfg);
    forall k | 0 <= k < |items| && items[k].price == c
      ensures t <= k && items[k].weight <= cfg.emergingOldWeight
    {
      EmergingShape(base, c, cfg, k);
    }
    TailWeight(items, c, t, cfg.emergingOldWeight);
  }

  lemma LeaderOutscores(c: int, run: Run, lead: real, behind: real)
    requires run.window != []
    requires var items := Adjusted(Base(run), c, run.cfg);
      && WeightOf(items, items[0].price) >= lead
      && WeightOf(items, c) <= behind
      && (lead - behind) * 10000.0 > Total(items)
    ensures NextPrice(c, run) != c
  {
    var items := Adjusted(Base(run), c, run.cfg);
    NewestKeepsWeight(Base(run), c, run.cfg);
    PercentSeparates(WeightOf(items, c), WeightOf(items, items[0].price), Total(items));
    SwitchIffScored(c, run);
  }

  /** When Pattern B fires and the head's guaranteed weight leads the old scans'
      capped weight by more than 0.01 percentage point of the total, the run
      must leave the incumbent price. */
  lemma EmergingPriceUnseats(c: int, run: Run)
    requires Emerging(Base(run), c, run.cfg.emergingThreshold)
    requires var n, t := |run.window|, run.cfg.emergingThreshold;
      (Times(t, run.cfg.scanWeightFloor) - Times(n - t, run.cfg.emergingOldWeight)) * 10000.0
        > Total(Adjusted(Base(run), c, run.cfg))
    ensures NextPrice(c, run) != c
  {
    var n, t, cfg := |run.window|, run.cfg.emergingThreshold, run.cfg;
    EmergingHead(Base(run), c, cfg);
    EmergingTail(Base(run), c, cfg);
    LeaderOutscores(c, run, Times(t, cfg.scanWeightFloor), Times(n - t, cfg.emergingOldWeight));
  }

  /** The settings the repository ships. */
  const SHIPPED: Config := Settings(0.3, 0.1, 4, 0.15, 5, 10.0, 30.0)

  lemma {:induction false} TotalAtMost(items: seq<Weighted>, cap: real)
    requires forall i :: 0 <= i < |items| ==> items[i].weight <= cap
    ensures Total(items) <= Times(|items|, cap)
  {
    if items != [] {
      var n := |items| - 1;
      TotalAtMost(items[..n], cap);
    }
  }

  /** With no scan from the future, a window weighs at most one per scan. */
  lemma AdjustedTotal(c: int, run: Run)
    requires forall k :: 0 <= k < |run.window| ==> run.window[k].scannedAt <= run.now
    ensures Total(Adjusted(Base(run), c, run.cfg)) <= Times(|run.window|, 1.0)
  {
    var base := Base(run);
    PatternsNeverRaise(base, c, run.cfg);
    assert forall i :: 0 <= i < |base| ==> base[i].weight <= 1.0;
    TotalAtMost(Adjusted(base, c, run.cfg), 1.0);
  }

  lemma ShippedMargin(n: nat)
    requires 4 <= n <= 11
    ensures (Times(4, 0.3) - Times(n - 4, 0.15)) * 10000.0 > Times(n, 1.0)
  {
    TimesIsProduct(4, 0.3);
    TimesIsProduct(n - 4, 0.15);
    TimesIsProduct(n, 1.0);
  }

  /** With the shipped settings, four agreeing newest scans at a divergent price
      always unseat the incumbent of a window of up to eleven scans, whatever
      the others say; a third price may be the one that replaces it. */
  lemma ShippedHeadUnseats(c: int, run: Run)
    requires run.cfg == SHIPPED && 4 <= |run.window| <= 11
    requires forall k :: 0 <= k < 4 ==> run.window[k].price == run.window[0].price != c
    requires forall k :: 0 <= k < |run.window| ==> run.window[k].scannedAt <= run.now
    ensures NextPrice(c, run) != c
  {
    AdjustedTotal(c, run);
    ShippedMargin(|run.window|);
    assert Emerging(Base(run), c, 4);
    EmergingPriceUnseats(c, run);
  }

  // ── Windows made of two blocks ─────────────────────────────────────────────

  function Block(p: int, w: real, k: nat): seq<Weighted> {
    seq(k, _ => Weighted(p, w))
  }

  lemma {:induction false} BlockWeight(front: seq<Weighted>, p: int, w: real, k: nat, q: int)
    ensures WeightOf(front + Block(p, w, k), q) == WeightOf(front, q) + if q == p then Times(k, w) else 0.0
    decreases k
  {
    var s := front + Block(p, w, k);
    if k == 0 {
      assert s == front;
    } else {
      BlockWeight(front, p, w, k - 1, q);
      assert s[..|s| - 1] == front + Block(p, w, k - 1);
    }
  }

  lemma {:induction false} BlockTotal(front: seq<Weighted>, p: int, w: real, k: nat)
    ensures Total(front + Block(p, w, k)) == Total(front) + Times(k, w)
    decreases k
  {
    var s := front + Block(p, w, k);
    if k == 0 {
      assert s == front;
    } else {
      BlockTotal(front, p, w, k - 1);
      assert s[..|s| - 1] == front + Block(p, w, k - 1);
    }
  }

  lemma TwoBlocks(p: int, w: real, j: nat, q: int, v: real, k: nat)
    requires p != q
    ensures var items := Block(p, w, j) + Block(q, v, k);
      WeightOf(items, p) == j as real * w && WeightOf(items, q) == k as real * v &&
      Total(items) == j as real * w + k as real * v
  {
    var front := Block(p, w, j);
    assert front == [] + front;
    BlockWeight([], p, w, j, p);
    BlockWeight([], p, w, j, q);
    BlockWeight(front, q, v, k, p);
    BlockWeight(front, q, v, k, q);
    BlockTotal([], p, w, j);
    BlockTotal(front, q, v, k);
    TimesIsProduct(j, w);
    TimesIsProduct(k, v);
  }

  // ── How long a window the head can decide ──────────────────────────────────

  /** n scans under the shipped settings, the four newest at one divergent price. */
  predicate HeadOfFour(c: int, run: Run, n: nat) {
    && run.cfg == SHIPPED && |run.window| == n >= 4
    && (forall k :: 0 <= k < 4 ==> run.window[k].price == run.window[0].price != c)
    && forall k :: 0 <= k < n ==> run.window[k].scannedAt <= run.now
  }

  /** Four week-old scans at 360 in front of n - 4 at 350. */
  function StaleRun(n: nat): Run {
    Run(7 * DAY, SHIPPED, seq(n, i => Scan(if i < 4 then 360 else 350, 0)), false)
  }

  lemma StaleRunWeights(n: nat)
    requires n >= 4
    ensures Adjusted(Base(StaleRun(n)), 350, SHIPPED) == Block(360, 0.3, 4) + Block(350, 0.15, n - 4)
  {
    assert BaseWeight(7 * DAY, 0, SHIPPED) == 0.3;
  }

  /** From twelve scans on, the capped old scans weigh at least as much as a head
      at the floor, and a tie keeps the incumbent. */
  lemma StaleRunHolds(n: nat)
    requires n >= 12
    ensures HeadOfFour(350, StaleRun(n), n) && NextPrice(350, StaleRun(n)) == 350
  {
    var run := StaleRun(n);
    var items := Adjusted(Base(run), 350, SHIPPED);
    StaleRunWeights(n);
    TwoBlocks(360, 0.3, 4, 350, 0.15, n - 4);
    assert WeightOf(items, 360) <= WeightOf(items, 350);
    PercentMonotone(WeightOf(items, 360), WeightOf(items, 350), Total(items));
    SwitchIffScored(350, run);
  }

  /** Eleven is exact: a head of four unseats the incumbent of every window of n
      scans if and only if n is at most eleven. */
  lemma ShippedHeadUnseatsIff(n: nat)
    requires n >= 4
    ensures (forall c, run :: HeadOfFour(c, run, n) ==> NextPrice(c, run) != c) <==> n <= 11
  {
    if n <= 11 {
      forall c, run | HeadOfFour(c, run, n)
        ensures NextPrice(c, run) != c
      {
        ShippedHeadUnseats(c, run);
      }
    } else {
      StaleRunHolds(n);
    }
  }

  /** Scans come newest first, as the query returns them. */
  predicate NewestFirst(run: Run) {
    forall i, j :: 0 <= i < j < |run.window| ==> run.window[j].scannedAt <= run.window[i].scannedAt
  }

  /** A window in order whose head is uniform, at a price other than the incumbent. */
  predicate Challenged(c: int, run: Run) {
    UniformHead(run) && run.window[0].price != c && NewestFirst(run)
  }

  /** A uniform head at a divergent price makes up at least half of a window in
      order: no other price outweighs it. */
  lemma HeadLeads(c: int, run: Run, q: int)
    requires Challenged(c, run) && |run.window| <= 2 * run.cfg.emergingThreshold
    ensures var items := Adjusted(Base(run), c, run.cfg);
      WeightOf(items, q) <= WeightOf(items, run.window[0].price)
  {
    var t, n, base := run.cfg.emergingThreshold, |run.window|, Base(run);
    var items, h, w := Adjusted(base, c, run.cfg), run.window[0].price, base[t - 1].weight;
    assert Emerging(base, c, t);
    PatternsNeverRaise(base, c, run.cfg);
    if q != h {
      forall k | 0 <= k < n
        ensures k < t ==> items[k].price == h && items[k].weight >= w
        ensures items[k].price == q ==> t <= k && items[k].weight <= w
      {
        EmergingShape(base, c, run.cfg, k);
        if k < t {
          BaseWeightAges(run.now, run.window[t - 1].scannedAt, run.window[k].scannedAt, run.cfg);
        } else {
          BaseWeightAges(run.now, run.window[k].scannedAt, run.window[t - 1].scannedAt, run.cfg);
        }
      }
      HeadWeight(items, h, t, w);
      TailWeight(items, q, t, w);
      TimesGrows(n - t, t, w);
    }
  }

  lemma {:induction false} TimesGrows(j: nat, k: nat, w: real)
    requires j <= k && 0.0 <= w
    ensures Times(j, w) <= Times(k, w)
  {
    if j < k {
      TimesGrows(j, k - 1, w);
    }
  }

  /** Then a run keeps the incumbent or adopts the head's price. */
  lemma HeadOrIncumbent(c: int, run: Run)
    requires Challenged(c, run) && |run.window| <= 2 * run.cfg.emergingThreshold
    ensures NextPrice(c, run) == c || NextPrice(c, run) == run.window[0].price
  {
    var items, h := Adjusted(Base(run), c, run.cfg), run.window[0].price;
    assert items[0].price == h;
    if NextPrice(c, run) != c {
      var d := Dominant(items);
      HeadLeads(c, run, d);
      assert IsDominant(items, d);
    }
  }

  /** A full head at 360 in front of n - t scans at 340, all taken now. */
  function SplitRun(cfg: Config, n: nat): Run {
    Run(0, cfg, seq(n, i => Scan(if i < cfg.emergingThreshold then 360 else 340, 0)), false)
  }

  function TwoSides(j: nat, k: nat): seq<Weighted> {
    Block(360, 1.0, j) + Block(340, 1.0, k)
  }

  lemma SplitRunWeights(cfg: Config, n: nat)
    requires n >= cfg.emergingThreshold
    ensures Adjusted(Base(SplitRun(cfg, n)), 350, cfg) == TwoSides(cfg.emergingThreshold, n - cfg.emergingThreshold)
  {
    BaseWeightDaily(0, 0, cfg);
  }

  lemma SplitRunChallenges(cfg: Config, n: nat)
    requires n >= cfg.emergingThreshold
    ensures Challenged(350, SplitRun(cfg, n)) && SplitRun(cfg, n).window[0].price == 360
  {
  }

  lemma LargerSideDominates(j: nat, k: nat)
    requires 0 < j < k
    ensures TwoSides(j, k) != [] && Dominant(TwoSides(j, k)) == 340
  {
    var items := TwoSides(j, k);
    TwoBlocks(360, 1.0, j, 340, 1.0, k);
    assert items[j].price == 340;
    assert IsDominant(items, Dominant(items));
  }

  lemma LargerSideScores(j: nat, k: nat)
    requires 0 < j < k
    ensures Scores(TwoSides(j, k), 350).dominant == Some(340)
    ensures Switches(Scores(TwoSides(j, k), 350), 350)
  {
    TwoBlocks(360, 1.0, j, 340, 1.0, k);
    LargerSideDominates(j, k);
    WeightOfAbsent(TwoSides(j, k), 350);
    PercentSeparates(0.0, k as real, (j + k) as real);
  }

  /** Neither pattern touches a third price, so the larger block wins. */
  lemma ThirdPriceWins(cfg: Config, n: nat)
    requires n > 2 * cfg.emergingThreshold
    ensures Challenged(350, SplitRun(cfg, n)) && NextPrice(350, SplitRun(cfg, n)) == 340
  {
    SplitRunChallenges(cfg, n);
    SplitRunWeights(cfg, n);
    LargerSideScores(cfg.emergingThreshold, n - cfg.emergingThreshold);
  }

  /** Whatever the settings: a uniform head lets no third price overtake it, on
      every window of n scans in order, if and only if it is at least half of
      the window. */
  lemma NoThirdPriceIff(cfg: Config, n: nat)
    requires n >= cfg.emergingThreshold
    ensures (forall c, run :: Challenged(c, run) && run.cfg == cfg && |run.window| == n ==>
          NextPrice(c, run) == c || NextPrice(c, run) == run.window[0].price)
      <==> n <= 2 * cfg.emergingThreshold
  {
    if n <= 2 * cfg.emergingThreshold {
      forall c, run | Challenged(c, run) && run.cfg == cfg && |run.window| == n
        ensures NextPrice(c, run) == c || NextPrice(c, run) == run.window[0].price
      {
        HeadOrIncumbent(c, run);
      }
    } else {
      ThirdPriceWins(cfg, n);
      SplitRunChallenges(cfg, n);
    }
  }

  /** With the shipped settings the price of four agreeing newest scans is adopted
      on every window of n scans in order if and only if n is at most eight. */
  lemma ShippedHeadWinsIff(n: nat)
    requires n >= 4
    ensures (forall c, run :: HeadOfFour(c, run, n) && NewestFirst(run) ==> NextPrice(c, run) == run.window[0].price)
      <==> n <= 8
  {
    if n <= 8 {
      forall c, run | HeadOfFour(c, run, n) && NewestFirst(run)
        ensures NextPrice(c, run) == run.window[0].price
      {
        ShippedHeadUnseats(c, run);
        HeadOrIncumbent(c, run);
      }
    } else {
      ThirdPriceWins(SHIPPED, n);
      assert HeadOfFour(350, SplitRun(SHIPPED, n), n);
    }
  }

  // ── A window on which runs alternate ───────────────────────────────────────

  /** Four fresh scans at 360 in front of five at 350, all taken at `now`. */
  function ContestedRun(now: int): Run {
    Run(now, SHIPPED, seq(9, i => Scan(if i < 4 then 360 else 350, now)), false)
  }

  lemma HeldByEmerging(now: int)
    ensures Outscored(360, ContestedRun(now))
  {
    var run := ContestedRun(now);
    var items := Adjusted(Base(run), 360, SHIPPED);
    assert items == Block(360, 1.0, 4) + Block(350, 1.0, 5);
    TwoBlocks(360, 1.0, 4, 350, 1.0, 5);
    PercentSeparates(4.0, 5.0, 9.0);
    assert items[4].price == 350;
  }

  /** Under the shipped settings a row on this window switches on every run,
      350 to 360 to 350, for ever: a switch neither relinks the window nor
      freezes the row. */
  lemma ContestedRunsAlternate(now: int, k: nat, next: int -> int)
    requires next == PriceMap(ContestedRun(now))
    ensures NeverSettles(next, 350)
    ensures Iterate(next, 350, k) == if k % 2 == 0 then 350 else 360
  {
    var run := ContestedRun(now);
    assert PriceSet(run) == {350, 360} by {
      assert run.window[0].price == 360 && run.window[4].price == 350;
    }
    assert Outscored(350, run) by {
      ShippedHeadUnseats(350, run);
      SwitchIffScored(350, run);
    }
    HeldByEmerging(now);
    TwoPricesAlternateIff(350, 360, run, next);
  }
}
