/** What the two weight patterns do to a window and to the incumbent's share,
    and what the scores computed from the result mean. */
module ConsensusPatterns {
  import opened Common
  import opened Rounding
  import opened ConsensusScoring

  /** The weights a run scores: Pattern A, then Pattern B. */
  function Adjusted(items: seq<Weighted>, c: int, cfg: Config): (r: seq<Weighted>)
    ensures SamePrices(r, items)
  {
    PatternB(PatternA(items, c), c, cfg)
  }

  // ── The patterns as weight transformers ────────────────────────────────────

  lemma PatternsCommute(items: seq<Weighted>, c: int, cfg: Config)
    ensures Adjusted(items, c, cfg) == PatternA(PatternB(items, c, cfg), c)
    ensures forall i :: 0 <= i < |items| ==>
      !(PatternA(items, c)[i] != items[i] && PatternB(items, c, cfg)[i] != items[i])
  {
    var a, b := PatternA(items, c), PatternB(items, c, cfg);
    var ab, ba := PatternB(a, c, cfg), PatternA(b, c);
    forall i | 0 <= i < |items|
      ensures ab[i] == ba[i]
    {
      PatternsReadPrices(b, items, c, cfg.emergingThreshold, i);
      PatternsReadPrices(a, items, c, cfg.emergingThreshold, i);
    }
  }

  lemma PatternsIdempotent(items: seq<Weighted>, c: int, cfg: Config)
    ensures PatternA(PatternA(items, c), c) == PatternA(items, c)
    ensures PatternB(PatternB(items, c, cfg), c, cfg) == PatternB(items, c, cfg)
  {
    var a, b := PatternA(items, c), PatternB(items, c, cfg);
    forall i | 0 <= i < |items|
      ensures PatternA(a, c)[i] == a[i] && PatternB(b, c, cfg)[i] == b[i]
    {
      PatternsReadPrices(a, items, c, cfg.emergingThreshold, i);
      PatternsReadPrices(b, items, c, cfg.emergingThreshold, i);
    }
  }

  lemma PatternsNeverRaise(items: seq<Weighted>, c: int, cfg: Config)
    requires NonNegative(items)
    ensures NonNegative(PatternA(items, c)) && NonNegative(Adjusted(items, c, cfg))
    ensures forall i :: 0 <= i < |items| ==>
      Adjusted(items, c, cfg)[i].weight <= PatternA(items, c)[i].weight <= items[i].weight
  {
  }

  /** Pattern A leaves the incumbent's weight alone and only shrinks the total. */
  lemma PatternAFavoursIncumbent(items: seq<Weighted>, c: int)
    requires NonNegative(items) && Total(PatternA(items, c)) > 0.0
    ensures WeightOf(PatternA(items, c), c) == WeightOf(items, c)
    ensures 0.0 < Total(PatternA(items, c)) <= Total(items)
    ensures WeightOf(items, c) / Total(items) <= WeightOf(PatternA(items, c), c) / Total(PatternA(items, c))
    ensures Percent(WeightOf(items, c), Total(items)) <=
      Percent(WeightOf(PatternA(items, c), c), Total(PatternA(items, c)))
  {
    var a := PatternA(items, c);
    WeightOfLowered(a, items, c);
    WeightOfLowered(items, a, c);
    TotalLowered(a, items);
    WeightOfBounds(items, c);
    SmallerTotal(WeightOf(items, c), Total(a), Total(items));
    HalfEvenMonotone(WeightOf(items, c) / Total(items) * 10000.0, WeightOf(a, c) / Total(a) * 10000.0);
  }

  /** Pattern B takes the same amount from the incumbent's weight and the total. */
  lemma PatternBHandicapsIncumbent(items: seq<Weighted>, c: int, cfg: Config)
    requires NonNegative(items) && Total(PatternB(items, c, cfg)) > 0.0
    ensures Total(items) - Total(PatternB(items, c, cfg)) ==
      WeightOf(items, c) - WeightOf(PatternB(items, c, cfg), c) >= 0.0
    ensures 0.0 < Total(PatternB(items, c, cfg)) <= Total(items)
    ensures WeightOf(PatternB(items, c, cfg), c) / Total(PatternB(items, c, cfg)) <= WeightOf(items, c) / Total(items)
    ensures Percent(WeightOf(PatternB(items, c, cfg), c), Total(PatternB(items, c, cfg))) <=
      Percent(WeightOf(items, c), Total(items))
  {
    var b := PatternB(items, c, cfg);
    WeightOfLowered(b, items, c);
    OnlyPriceChanged(b, items, c);
    WeightOfBounds(items, c);
    WeightOfBounds(b, c);
    ShrunkShare(WeightOf(b, c), Total(b), WeightOf(items, c) - WeightOf(b, c));
    HalfEvenMonotone(WeightOf(b, c) / Total(b) * 10000.0, WeightOf(items, c) / Total(items) * 10000.0);
  }

  lemma SmallerTotal(w: real, t: real, t': real)
    requires 0.0 <= w && 0.0 < t <= t'
    ensures w / t' <= w / t
  {
    var x := w / t';
    assert x * t' == w;
    assert x >= 0.0;
    assert x * t <= x * t';
    ShareMonotone(x * t, w, t);
    assert x * t / t == x;
  }

  lemma ShrunkShare(w: real, t: real, d: real)
    requires 0.0 <= w <= t && 0.0 < t && 0.0 <= d
    ensures w / t <= (w + d) / (t + d)
  {
    var x := w / t;
    assert x * t == w;
    ShareMonotone(w, t, t);
    WholeShare(t);
    assert x <= 1.0;
    assert x * d <= d;
    assert x * (t + d) == w + x * d;
    ShareMonotone(x * (t + d), w + d, t + d);
    assert x * (t + d) / (t + d) == x;
  }

  /** The newest scan is beyond the reach of both patterns, so a non-empty
      window of positively weighted scans never has zero total. */
  lemma NewestKeepsWeight(items: seq<Weighted>, c: int, cfg: Config)
    requires items != [] && NonNegative(items) && items[0].weight > 0.0
    ensures Adjusted(items, c, cfg)[0] == items[0]
    ensures Total(Adjusted(items, c, cfg)) >= items[0].weight
  {
    PatternsNeverRaise(items, c, cfg);
    var r := Adjusted(items, c, cfg);
    WeightOfItem(r, 0);
    WeightOfBounds(r, r[0].price);
  }

  // ── What the scores mean ───────────────────────────────────────────────────

  function SumOver(items: seq<Weighted>, order: seq<int>): real {
    if order == [] then 0.0
    else SumOver(items, order[..|order| - 1]) + WeightOf(items, order[|order| - 1])
  }

  /** Adding a scan adds its weight to exactly one dictionary entry. */
  lemma {:induction false} SumOverExtend(items: seq<Weighted>, order: seq<int>)
    requires items != [] && Distinct(order)
    ensures var n := |items| - 1;
      SumOver(items, order) ==
        SumOver(items[..n], order) + if items[n].price in order then items[n].weight else 0.0
  {
    if order != [] {
      var n, m := |items| - 1, |order| - 1;
      SumOverExtend(items, order[..m]);
      assert order == order[..m] + [order[m]];
    }
  }

  lemma {:induction false} FirstSeenDistinct(prices: seq<int>)
    ensures Distinct(FirstSeen(prices))
  {
    if prices != [] {
      FirstSeenDistinct(prices[..|prices| - 1]);
    }
  }

  /** Conservation: the per-price dictionary holds exactly the window's weight. */
  lemma {:induction false} DictionaryConservesWeight(items: seq<Weighted>)
    ensures SumOver(items, FirstSeen(Prices(items))) == Total(items)
  {
    if items != [] {
      var n := |items| - 1;
      var order, p := FirstSeen(Prices(items[..n])), items[n].price;
      DictionaryConservesWeight(items[..n]);
      FirstSeenDistinct(Prices(items[..n]));
      SumOverExtend(items, order);
      DictionaryGrows(items);
      if p !in order {
        NewPriceWeight(items);
        SumOverSnoc(items, order, p);
      }
    }
  }

  /** The last scan's price is entered unless it is there already. */
  lemma DictionaryGrows(items: seq<Weighted>)
    requires items != []
    ensures var n := |items| - 1;
      var order, p := FirstSeen(Prices(items[..n])), items[n].price;
      FirstSeen(Prices(items)) == if p in order then order else order + [p]
  {
    var n, prices := |items| - 1, Prices(items);
    assert prices[..n] == Prices(items[..n]) && prices[..n + 1] == prices;
    FirstSeenSnoc(prices, n);
  }

  lemma SumOverSnoc(items: seq<Weighted>, order: seq<int>, p: int)
    ensures SumOver(items, order + [p]) == SumOver(items, order) + WeightOf(items, p)
  {
    assert (order + [p])[..|order|] == order;
  }

  /** A price met for the first time has the weight of its one scan. */
  lemma NewPriceWeight(items: seq<Weighted>)
    requires items != []
    ensures var n := |items| - 1;
      items[n].price !in Prices(items[..n]) ==> WeightOf(items, items[n].price) == items[n].weight
  {
    var n := |items| - 1;
    if items[n].price !in Prices(items[..n]) {
      assert forall i :: 0 <= i < n ==> items[..n][i].price == Prices(items[..n])[i];
      WeightOfAbsent(items[..n], items[n].price);
    }
  }

  /** The run replaces the incumbent. */
  predicate Switches(v: Verdict, c: int) {
    v.dominant.Some? && v.dominant.value != c && v.dominantScore > v.trust
  }

  lemma ScoresInRange(items: seq<Weighted>, c: int)
    requires NonNegative(items)
    ensures 0 <= Scores(items, c).trust <= 10000
    ensures 0 <= Scores(items, c).dominantScore <= 10000
    ensures Scores(items, c).dominant == None <==> Total(items) == 0.0
  {
    if Total(items) != 0.0 {
      var d := Dominant(items);
      WeightOfBounds(items, c);
      WeightOfBounds(items, d);
      PercentRange(WeightOf(items, c), Total(items));
      PercentRange(WeightOf(items, d), Total(items));
    }
  }

  /** A switch happens exactly when some price's rounded score strictly beats
      the incumbent's, and it goes to the dominant price. */
  lemma SwitchIffOutscored(items: seq<Weighted>, c: int)
    requires NonNegative(items) && Total(items) > 0.0
    ensures Switches(Scores(items, c), c) <==>
      exists i :: 0 <= i < |items| &&
        Percent(WeightOf(items, items[i].price), Total(items)) > Percent(WeightOf(items, c), Total(items))
    ensures IsDominant(items, Scores(items, c).dominant.value)
  {
    var d := Dominant(items);
    var k :| 0 <= k < |items| && items[k].price == d;
    forall i | 0 <= i < |items|
      ensures Percent(WeightOf(items, items[i].price), Total(items)) <= Percent(WeightOf(items, d), Total(items))
    {
      PercentMonotone(WeightOf(items, items[i].price), WeightOf(items, d), Total(items));
    }
  }

  /** Ties go to the price met first, that is, to the most recent scan. */
  lemma TiesGoToNewest(items: seq<Weighted>, c: int, i: nat)
    requires NonNegative(items) && Total(items) > 0.0 && i < |items|
    requires WeightOf(items, items[i].price) == WeightOf(items, Scores(items, c).dominant.value)
    ensures exists k :: 0 <= k <= i && items[k].price == Scores(items, c).dominant.value
  {
  }

  /** Both passes together, scan by scan: an isolated outlier weighs nothing, the
      incumbent's scans behind an emerging head at most the cap, and every
      other scan what it did. */
  lemma AdjustedEach(items: seq<Weighted>, c: int, cfg: Config, i: nat)
    requires i < |items|
    ensures var r := Adjusted(items, c, cfg)[i];
      r == if items[i].price != c then PatternA(items, c)[i] else PatternB(items, c, cfg)[i]
  {
    PatternsReadPrices(items, PatternA(items, c), c, cfg.emergingThreshold, i);
  }
}
