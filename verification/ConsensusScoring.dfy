/** The scoring half of the price-consensus batch: temporal weights, the two
    weight patterns applied in place to a window of scans, and the per-price
    scores that decide whether the incumbent price is replaced. */
module ConsensusScoring {
  import opened Common
  import opened Rounding

  /** The numeric settings of the `consensus` section. */
  datatype Settings = Settings(
    scanWeightFloor: real,
    scanWeightDecayPerDay: real,
    emergingThreshold: int,
    emergingOldWeight: real,
    decayGraceDays: int,
    decayRatePct: real,
    decayFloor: real)
  {
    predicate Valid() {
      && 0.0 < scanWeightFloor <= 1.0
      && 0.0 <= scanWeightDecayPerDay
      && 1 <= emergingThreshold
      && 0.0 <= emergingOldWeight
      && 0 <= decayGraceDays
      && 0.0 <= decayRatePct
      && 0.0 <= decayFloor <= 100.0
    }
  }

  /** Settings the pipeline is meant for; a threshold under one has no head to
      inspect, and a floor of zero lets a window weigh nothing. */
  type Config = s: Settings | s.Valid() witness Settings(1.0, 0.0, 1, 0.0, 0, 0.0, 0.0)

  /** A linked scan as read from the database. */
  datatype Scan = Scan(price: int, scannedAt: int)

  /** A scan of the window together with its current weight. */
  datatype Weighted = Weighted(price: int, weight: real)

  // ── Temporal weight ────────────────────────────────────────────────────────

  function BaseWeight(now: int, scannedAt: int, cfg: Config): (w: real)
    ensures cfg.scanWeightFloor <= w
    ensures scannedAt <= now ==> w <= 1.0
  {
    var ageDays := (now - scannedAt) as real / DAY as real;
    var raw := 1.0 - ageDays * cfg.scanWeightDecayPerDay;
    if raw > cfg.scanWeightFloor then raw else cfg.scanWeightFloor
  }

  /** A more recent scan never weighs less. */
  lemma BaseWeightAges(now: int, older: int, newer: int, cfg: Config)
    requires older <= newer
    ensures BaseWeight(now, older, cfg) <= BaseWeight(now, newer, cfg)
  {
    var a, b := (now - older) as real / DAY as real, (now - newer) as real / DAY as real;
    var d := cfg.scanWeightDecayPerDay;
    assert a * d - b * d == (a - b) * d >= 0.0;
  }

  /** A scan taken now has full weight, and each further day of age costs the
      daily rate until the floor is reached. */
  lemma BaseWeightDaily(now: int, scannedAt: int, cfg: Config)
    ensures BaseWeight(now, now, cfg) == 1.0
    ensures var today, yesterday := BaseWeight(now, scannedAt, cfg), BaseWeight(now, scannedAt - DAY, cfg);
      if yesterday > cfg.scanWeightFloor then yesterday == today - cfg.scanWeightDecayPerDay
      else today <= cfg.scanWeightFloor + cfg.scanWeightDecayPerDay
  {
    var age, rate := (now - scannedAt) as real / DAY as real, cfg.scanWeightDecayPerDay;
    assert (now - (scannedAt - DAY)) as real / DAY as real == age + 1.0;
    assert (age + 1.0) * rate == age * rate + rate;
  }

  function Weigh(window: seq<Scan>, now: int, cfg: Config): (items: seq<Weighted>)
    ensures |items| == |window|
    ensures forall i {:trigger items[i]} :: 0 <= i < |items| ==>
      items[i].price == window[i].price && cfg.scanWeightFloor <= items[i].weight
  {
    seq(|window|, i requires 0 <= i < |window| =>
      Weighted(window[i].price, BaseWeight(now, window[i].scannedAt, cfg)))
  }

  /** Within one window: a scan taken now weighs 1, and of two scans the older is
      lighter by exactly the daily rate times the days, or fractions of days,
      between them, until it reaches the floor. */
  lemma WeightsDifferByAge(window: seq<Scan>, now: int, cfg: Config, i: nat, j: nat)
    requires i < |window| && j < |window| && window[j].scannedAt <= window[i].scannedAt
    ensures window[i].scannedAt == now ==> Weigh(window, now, cfg)[i].weight == 1.0
    ensures var newer, older := Weigh(window, now, cfg)[i].weight, Weigh(window, now, cfg)[j].weight;
      var gap := (window[i].scannedAt - window[j].scannedAt) as real / DAY as real * cfg.scanWeightDecayPerDay;
      if older > cfg.scanWeightFloor then newer - older == gap else newer - cfg.scanWeightFloor <= gap
  {
    BaseWeightDaily(now, now, cfg);
    WeightGap(now, window[i].scannedAt, window[j].scannedAt, cfg);
  }

  lemma WeightGap(now: int, newer: int, older: int, cfg: Config)
    requires older <= newer
    ensures var w, w' := BaseWeight(now, newer, cfg), BaseWeight(now, older, cfg);
      var gap := (newer - older) as real / DAY as real * cfg.scanWeightDecayPerDay;
      if w' > cfg.scanWeightFloor then w - w' == gap else w - cfg.scanWeightFloor <= gap
  {
    var a, b := (now - newer) as real / DAY as real, (now - older) as real / DAY as real;
    var rate, days := cfg.scanWeightDecayPerDay, (newer - older) as real / DAY as real;
    assert days == b - a && days >= 0.0;
    Distribute(b, a, rate);
    Scaled(0.0, days, rate);
  }

  lemma Distribute(x: real, y: real, rate: real)
    ensures (x - y) * rate == x * rate - y * rate
  {
  }

  // ── Sums ───────────────────────────────────────────────────────────────────

  function Total(items: seq<Weighted>): real {
    if items == [] then 0.0 else Total(items[..|items| - 1]) + items[|items| - 1].weight
  }

  /** Weight of one price: the value the per-price dictionary ends up with. */
  function WeightOf(items: seq<Weighted>, p: int): real {
    if items == [] then 0.0
    else
      var last := items[|items| - 1];
      WeightOf(items[..|items| - 1], p) + if last.price == p then last.weight else 0.0
  }

  ghost predicate NonNegative(items: seq<Weighted>) {
    forall i :: 0 <= i < |items| ==> 0.0 <= items[i].weight
  }

  ghost predicate SamePrices(a: seq<Weighted>, b: seq<Weighted>) {
    |a| == |b| && forall i {:trigger a[i]} :: 0 <= i < |a| ==> a[i].price == b[i].price
  }

  lemma {:induction false} WeightOfBounds(items: seq<Weighted>, p: int)
    requires NonNegative(items)
    ensures 0.0 <= WeightOf(items, p) <= Total(items)
  {
    if items != [] {
      WeightOfBounds(items[..|items| - 1], p);
    }
  }

  /** A single scan's weight is part of its price's weight. */
  lemma {:induction false} WeightOfItem(items: seq<Weighted>, i: nat)
    requires NonNegative(items) && i < |items|
    ensures items[i].weight <= WeightOf(items, items[i].price)
  {
    var n := |items| - 1;
    if i < n {
      WeightOfItem(items[..n], i);
    } else {
      WeightOfBounds(items[..n], items[i].price);
    }
  }

  lemma {:induction false} WeightOfAbsent(items: seq<Weighted>, p: int)
    requires forall i :: 0 <= i < |items| ==> items[i].price != p
    ensures WeightOf(items, p) == 0.0
  {
    if items != [] {
      WeightOfAbsent(items[..|items| - 1], p);
    }
  }

  /** Lowering weights of price p, and of nothing else, lowers total and price alike. */
  lemma {:induction false} WeightOfLowered(low: seq<Weighted>, high: seq<Weighted>, p: int)
    requires SamePrices(low, high)
    requires forall i :: 0 <= i < |low| && low[i].price == p ==> low[i].weight <= high[i].weight
    ensures WeightOf(low, p) <= WeightOf(high, p)
  {
    if low != [] {
      var n := |low| - 1;
      WeightOfLowered(low[..n], high[..n], p);
    }
  }

  lemma {:induction false} TotalLowered(low: seq<Weighted>, high: seq<Weighted>)
    requires |low| == |high|
    requires forall i :: 0 <= i < |low| ==> low[i].weight <= high[i].weight
    ensures Total(low) <= Total(high)
  {
    if low != [] {
      var n := |low| - 1;
      TotalLowered(low[..n], high[..n]);
    }
  }

  /** When only scans of price p change, total and price change by the same amount. */
  lemma {:induction false} OnlyPriceChanged(a: seq<Weighted>, b: seq<Weighted>, p: int)
    requires SamePrices(a, b)
    requires forall i :: 0 <= i < |a| && a[i].price != p ==> a[i] == b[i]
    ensures Total(a) - WeightOf(a, p) == Total(b) - WeightOf(b, p)
  {
    if a != [] {
      var n := |a| - 1;
      OnlyPriceChanged(a[..n], b[..n], p);
    }
  }

  // ── Pattern A: isolated outliers ───────────────────────────────────────────

  predicate Isolated(items: seq<Weighted>, c: int, i: int)
    requires 0 <= i < |items|
  {
    && 2 <= i < |items| - 2
    && items[i].price != c
    && items[i - 1].price == c && items[i - 2].price == c
    && items[i + 1].price == c && items[i + 2].price == c
  }

  function PatternA(items: seq<Weighted>, c: int): (r: seq<Weighted>)
    ensures SamePrices(r, items)
    ensures forall i {:trigger r[i]} :: 0 <= i < |r| ==>
      r[i].weight == if Isolated(items, c, i) then 0.0 else items[i].weight
  {
    seq(|items|, i requires 0 <= i < |items| =>
      if Isolated(items, c, i) then items[i].(weight := 0.0) else items[i])
  }

  method ApplyPatternA(items: array<Weighted>, c: int)
    modifies items
    ensures items[..] == PatternA(old(items[..]), c)
  {
    ghost var was := items[..];
    var n := items.Length;
    var i := 2;
    while i < n - 2
      invariant 2 <= i
      invariant forall k :: 0 <= k < n ==> items[k] == if k < i then PatternA(was, c)[k] else was[k]
    {
      if items[i].price != c {
        if && items[i - 1].price == c && items[i - 2].price == c
           && items[i + 1].price == c && items[i + 2].price == c {
          items[i] := items[i].(weight := 0.0);
        }
      }
      i := i + 1;
    }
  }

  // ── Pattern B: emerging price ──────────────────────────────────────────────

  /** The newest `threshold` scans all agree on one price other than c. */
  predicate Emerging(items: seq<Weighted>, c: int, threshold: int)
    requires 1 <= threshold
  {
    && threshold <= |items|
    && items[0].price != c
    && forall k :: 0 <= k < threshold ==> items[k].price == items[0].price
  }

  predicate Discounted(items: seq<Weighted>, c: int, threshold: int, i: int)
    requires 1 <= threshold && 0 <= i < |items|
  {
    Emerging(items, c, threshold) && threshold <= i && items[i].price == c
  }

  function Min(x: real, y: real): real { if x <= y then x else y }

  function PatternB(items: seq<Weighted>, c: int, cfg: Config): (r: seq<Weighted>)
    ensures SamePrices(r, items)
    ensures forall i {:trigger r[i]} :: 0 <= i < |r| ==>
      r[i].weight == (if Discounted(items, c, cfg.emergingThreshold, i)
                      then Min(items[i].weight, cfg.emergingOldWeight)
                      else items[i].weight)
  {
    seq(|items|, i requires 0 <= i < |items| =>
      if Discounted(items, c, cfg.emergingThreshold, i)
      then items[i].(weight := Min(items[i].weight, cfg.emergingOldWeight))
      else items[i])
  }

  method ApplyPatternB(items: array<Weighted>, c: int, cfg: Config)
    modifies items
    ensures items[..] == PatternB(old(items[..]), c, cfg)
  {
    ghost var was := items[..];
    var threshold, n := cfg.emergingThreshold, items.Length;
    if n < threshold || items[0].price == c {
      assert items[..] == PatternB(was, c, cfg);
      return;
    }
    var k := 0;
    while k < threshold
      invariant 0 <= k <= threshold
      invariant forall j :: 0 <= j < k ==> was[j].price == was[0].price
    {
      if items[k].price != items[0].price {
        assert !Emerging(was, c, threshold);
        assert items[..] == PatternB(was, c, cfg);
        return;
      }
      k := k + 1;
    }
    assert Emerging(was, c, threshold);
    var i := threshold;
    while i < n
      invariant threshold <= i <= n
      invariant forall k :: 0 <= k < n ==> items[k] == if k < i then PatternB(was, c, cfg)[k] else was[k]
    {
      if items[i].price == c {
        items[i] := items[i].(weight := Min(items[i].weight, cfg.emergingOldWeight));
      }
      i := i + 1;
    }
  }

  /** Both patterns decide by prices alone. */
  lemma PatternsReadPrices(a: seq<Weighted>, b: seq<Weighted>, c: int, threshold: int, i: int)
    requires SamePrices(a, b) && 1 <= threshold && 0 <= i < |a|
    ensures Isolated(a, c, i) == Isolated(b, c, i)
    ensures Discounted(a, c, threshold, i) == Discounted(b, c, threshold, i)
  {
    assert forall k :: 0 <= k < |a| ==> a[k].price == b[k].price;
  }

  // ── Scores ─────────────────────────────────────────────────────────────────

  /** Trust score, dominant price and its score, scores in hundredths of a point. */
  datatype Verdict = Verdict(trust: int, dominant: Option<int>, dominantScore: int)

  /** d carries the largest weight, and every price seen before d strictly less. */
  ghost predicate IsDominant(items: seq<Weighted>, d: int) {
    && (forall i :: 0 <= i < |items| ==> WeightOf(items, items[i].price) <= WeightOf(items, d))
    && exists k :: 0 <= k < |items| && items[k].price == d &&
         forall i :: 0 <= i < k ==> WeightOf(items, items[i].price) < WeightOf(items, d)
  }

  lemma DominantUnique(items: seq<Weighted>, d: int, d': int)
    requires IsDominant(items, d) && IsDominant(items, d')
    ensures d == d'
  {
    var k :| 0 <= k < |items| && items[k].price == d &&
      forall i :: 0 <= i < k ==> WeightOf(items, items[i].price) < WeightOf(items, d);
    var k' :| 0 <= k' < |items| && items[k'].price == d' &&
      forall i :: 0 <= i < k' ==> WeightOf(items, items[i].price) < WeightOf(items, d');
  }

  /** Index of the first of the newest n scans whose price has maximal weight. */
  function Leader(prices: seq<int>, weight: int -> real, n: nat): (k: nat)
    requires 1 <= n <= |prices|
    ensures k < n
    ensures forall i :: 0 <= i < n ==> weight(prices[i]) <= weight(prices[k])
    ensures forall i :: 0 <= i < k ==> weight(prices[i]) < weight(prices[k])
  {
    if n == 1 then 0
    else
      var k := Leader(prices, weight, n - 1);
      if weight(prices[n - 1]) > weight(prices[k]) then n - 1 else k
  }

  function Prices(items: seq<Weighted>): seq<int> {
    seq(|items|, i requires 0 <= i < |items| => items[i].price)
  }

  function Dominant(items: seq<Weighted>): (d: int)
    requires items != []
    ensures IsDominant(items, d)
  {
    var prices := Prices(items);
    var k := Leader(prices, p => WeightOf(items, p), |prices|);
    assert forall i :: 0 <= i < |items| ==> items[i].price == prices[i];
    prices[k]
  }

  function Scores(items: seq<Weighted>, c: int): Verdict {
    var total := Total(items);
    if total == 0.0 then Verdict(0, None, 0)
    else
      var d := Dominant(items);
      Verdict(Percent(WeightOf(items, c), total), Some(d), Percent(WeightOf(items, d), total))
  }

  /** The distinct prices of a window, in the order a dictionary first meets them. */
  function FirstSeen(prices: seq<int>): (order: seq<int>)
    ensures forall p :: p in order <==> p in prices
  {
    if prices == [] then []
    else
      var n := |prices| - 1;
      var order := FirstSeen(prices[..n]);
      assert prices == prices[..n] + [prices[n]];
      if prices[n] in order then order else order + [prices[n]]
  }

  /** Pattern A zeroes a scan exactly when it is the odd one among five: two
      scans at the incumbent price on either side of it. */
  lemma PatternAZeroesIff(items: seq<Weighted>, c: int, i: nat)
    requires i < |items|
    ensures PatternA(items, c)[i] == items[i] || PatternA(items, c)[i] == Weighted(items[i].price, 0.0)
    ensures items[i].weight > 0.0 ==>
      (PatternA(items, c)[i].weight == 0.0 <==>
        && 2 <= i && i + 2 < |items| && items[i].price != c
        && Prices(items)[i - 2..i + 3] == [c, c, items[i].price, c, c])
  {
    if 2 <= i && i + 2 < |items| {
      var five := Prices(items)[i - 2..i + 3];
      assert five == [items[i - 2].price, items[i - 1].price, items[i].price, items[i + 1].price, items[i + 2].price];
    }
  }

  /** Pattern B lowers a scan exactly when it weighs more than the cap, is at the
      incumbent price, and stands behind `threshold` scans at one other price;
      and then it lowers it to the cap. */
  lemma PatternBCapsIff(items: seq<Weighted>, c: int, cfg: Config, i: nat)
    requires i < |items|
    ensures var t, cap := cfg.emergingThreshold, cfg.emergingOldWeight;
      if items[i].weight > cap && items[i].price == c && t <= i &&
         exists h :: h != c && Prices(items)[..t] == Copies(h, t)
      then PatternB(items, c, cfg)[i] == Weighted(c, cap)
      else PatternB(items, c, cfg)[i] == items[i]
  {
    var t := cfg.emergingThreshold;
    if t <= |items| {
      var head := Prices(items)[..t];
      assert forall k :: 0 <= k < t ==> head[k] == items[k].price;
      if Emerging(items, c, t) {
        assert head == Copies(items[0].price, t);
      }
      if h :| h != c && head == Copies(h, t) {
        assert forall k :: 0 <= k < t ==> items[k].price == head[k] == h;
      }
    }
  }

  function Copies(p: int, n: nat): seq<int> {
    seq(n, _ => p)
  }

  /** The first key of maximal weight, as `max` over a dictionary finds it. */
  function FirstMax(order: seq<int>, weight: int -> real): int
    requires order != []
  {
    var n := |order| - 1;
    if n == 0 then order[0]
    else
      var p := FirstMax(order[..n], weight);
      if weight(order[n]) > weight(p) then order[n] else p
  }

  lemma {:induction false} FirstMaxIsLeader(prices: seq<int>, weight: int -> real, n: nat)
    requires 1 <= n <= |prices|
    ensures FirstSeen(prices[..n]) != []
    ensures FirstMax(FirstSeen(prices[..n]), weight) == prices[Leader(prices, weight, n)]
  {
    var m := n - 1;
    FirstSeenSnoc(prices, m);
    if m > 0 {
      FirstMaxIsLeader(prices, weight, m);
      var order := FirstSeen(prices[..m]);
      if prices[m] !in order {
        FirstMaxSnoc(order, prices[m], weight);
      } else {
        var i :| 0 <= i < m && prices[..m][i] == prices[m];
        assert weight(prices[i]) <= weight(prices[Leader(prices, weight, m)]);
      }
    }
  }

  lemma FirstSeenSnoc(prices: seq<int>, m: nat)
    requires m < |prices|
    ensures var order := FirstSeen(prices[..m]);
      FirstSeen(prices[..m + 1]) == if prices[m] in order then order else order + [prices[m]]
  {
    assert prices[..m + 1][..m] == prices[..m];
  }

  lemma FirstMaxSnoc(order: seq<int>, p: int, weight: int -> real)
    requires order != []
    ensures var q := FirstMax(order, weight);
      FirstMax(order + [p], weight) == if weight(p) > weight(q) then p else q
  {
    assert (order + [p])[..|order|] == order;
  }

  /** The dictionary pass: prices in first-seen order with their summed weights. */
  method SumByPrice(items: array<Weighted>) returns (order: seq<int>, sums: map<int, real>)
    ensures order == FirstSeen(Prices(items[..]))
    ensures forall p :: p in order <==> p in sums
    ensures forall p :: p in sums ==> sums[p] == WeightOf(items[..], p)
  {
    order, sums := [], map[];
    for n := 0 to items.Length
      invariant order == FirstSeen(Prices(items[..n]))
      invariant forall p :: p in order <==> p in sums
      invariant forall p :: p in sums ==> sums[p] == WeightOf(items[..n], p)
    {
      var item := items[n];
      assert items[..n + 1][..n] == items[..n];
      assert Prices(items[..n + 1])[..n] == Prices(items[..n]);
      if item.price in sums {
        sums := sums[item.price := sums[item.price] + item.weight];
      } else {
        forall i | 0 <= i < n
          ensures items[..n][i].price != item.price
        {
          assert Prices(items[..n])[i] == items[..n][i].price;
        }
        WeightOfAbsent(items[..n], item.price);
        order, sums := order + [item.price], sums[item.price := 0.0 + item.weight];
      }
    }
    assert items[..items.Length] == items[..];
  }

  method SumWeights(items: array<Weighted>) returns (total: real)
    ensures total == Total(items[..])
  {
    total := 0.0;
    for n := 0 to items.Length
      invariant total == Total(items[..n])
    {
      assert items[..n + 1][..n] == items[..n];
      total := total + items[n].weight;
    }
    assert items[..items.Length] == items[..];
  }

  method HeaviestKey(order: seq<int>, sums: map<int, real>, ghost weight: int -> real) returns (d: int)
    requires order != [] && forall p :: p in order ==> p in sums && sums[p] == weight(p)
    ensures d in order && d == FirstMax(order, weight)
  {
    d := order[0];
    for j := 1 to |order|
      invariant d in order && d == FirstMax(order[..j], weight)
    {
      assert order[..j + 1][..j] == order[..j];
      var p := order[j];
      if sums[p] > sums[d] {
        d := p;
      }
    }
    assert order[..|order|] == order;
  }

  method ComputeScores(items: array<Weighted>, c: int) returns (v: Verdict)
    ensures v == Scores(items[..], c)
  {
    var total := SumWeights(items);
    if total == 0.0 {
      return Verdict(0, None, 0);
    }
    var order, sums := SumByPrice(items);
    ghost var all, prices := items[..], Prices(items[..]);
    ghost var weight := p => WeightOf(all, p);
    assert c !in sums ==> WeightOf(all, c) == 0.0 by {
      if c !in sums {
        assert forall i :: 0 <= i < |all| ==> all[i].price == prices[i];
        WeightOfAbsent(all, c);
      }
    }
    FirstMaxIsLeader(prices, weight, |prices|);
    assert prices[..|prices|] == prices;
    var d := HeaviestKey(order, sums, weight);
    var score := if c in sums then sums[c] else 0.0;
    v := Verdict(Percent(score, total), Some(d), Percent(sums[d], total));
  }
}
