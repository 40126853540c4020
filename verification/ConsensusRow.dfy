/** One `price_consensus` row, its history, and the pipeline the batch runs on it. */
module ConsensusRow {
  import opened Common
  import opened ConsensusScoring
  import opened ConsensusPatterns
  import opened Rounding

  datatype Row = Row(
    price: int,
    trustScore: real,
    firstSeenAt: int,
    lastSeenAt: int,
    frozenUntil: Option<int>,
    computedAt: int)

  /** A row of `price_consensus_history`: a price that was replaced, and its span. */
  datatype Archived = Archived(price: int, trustScore: real, firstSeenAt: int, lastSeenAt: int)

  datatype State = State(row: Row, history: seq<Archived>)

  datatype Outcome = Frozen | Basculement | Updated

  /** One invocation of the pipeline on a row: the clock, the settings, the scans
      linked to the row (newest first) and whether it is a dry run. */
  datatype Run = Run(now: int, cfg: Config, window: seq<Scan>, dryRun: bool)

  function Points(hundredths: int): real { hundredths as real / 100.0 }

  // ── Decay ──────────────────────────────────────────────────────────────────

  /** A score is kept within its grace period; afterwards it is at the floor, or
      above it and down by the rate for each day past the grace. */
  function ApplyDecay(trust: real, daysInactive: int, cfg: Config): (r: real)
    ensures 0.0 <= trust <= 100.0 ==> 0.0 <= r <= 100.0
    ensures daysInactive < cfg.decayGraceDays ==> r == trust
    ensures daysInactive >= cfg.decayGraceDays ==>
      var lost := (daysInactive - cfg.decayGraceDays) as real * cfg.decayRatePct;
      r >= cfg.decayFloor && r + lost >= trust && (r == cfg.decayFloor || r + lost == trust)
  {
    if daysInactive < cfg.decayGraceDays then trust
    else
      var amount := (daysInactive - cfg.decayGraceDays) as real * cfg.decayRatePct;
      if trust - amount > cfg.decayFloor then trust - amount else cfg.decayFloor
  }

  /** Decay is described as a reduction, but it raises a score exactly when the
      row is at or past its grace period with a score under the floor. */
  lemma DecayRaisesIff(trust: real, daysInactive: int, cfg: Config)
    ensures ApplyDecay(trust, daysInactive, cfg) > trust <==>
      daysInactive >= cfg.decayGraceDays && trust < cfg.decayFloor
  {
    if daysInactive >= cfg.decayGraceDays {
      assert (daysInactive - cfg.decayGraceDays) as real * cfg.decayRatePct >= 0.0;
    }
  }

  function Max(x: real, y: real): real { if x >= y then x else y }

  /** Within the grace period a score is kept; on its last day it is lifted to the
      floor at most; and each further day takes off the rate, down to the floor. */
  lemma DecayDaily(trust: real, days: int, cfg: Config)
    ensures days < cfg.decayGraceDays ==> ApplyDecay(trust, days, cfg) == trust
    ensures ApplyDecay(trust, cfg.decayGraceDays, cfg) == Max(cfg.decayFloor, trust)
    ensures days >= cfg.decayGraceDays ==>
      ApplyDecay(trust, days + 1, cfg) == Max(cfg.decayFloor, ApplyDecay(trust, days, cfg) - cfg.decayRatePct)
  {
    if days >= cfg.decayGraceDays {
      var e, rate := (days - cfg.decayGraceDays) as real, cfg.decayRatePct;
      assert (days + 1 - cfg.decayGraceDays) as real * rate == e * rate + rate;
    }
  }

  // ── The pipeline as a function of the state ────────────────────────────────

  /** The row is skipped: its freeze has not elapsed. */
  predicate StillFrozen(row: Row, now: int) {
    row.frozenUntil.Some? && row.frozenUntil.value > now
  }

  function Assess(price: int, run: Run): Verdict
  {
    Scores(Adjusted(Weigh(run.window, run.now, run.cfg), price, run.cfg), price)
  }

  /** The price a run leaves behind. */
  function NextPrice(price: int, run: Run): int
  {
    var v := Assess(price, run);
    if Switches(v, price) then v.dominant.value else price
  }

  /** Steps 6 to 8: act on the verdict, decay, persist. */
  function Conclude(s: State, run: Run, v: Verdict): (State, Outcome)
  {
    var row := s.row;
    if Switches(v, row.price) then
      var score := ApplyDecay(Points(v.dominantScore), 0, run.cfg);
      if run.dryRun then
        (s.(row := row.(trustScore := score, computedAt := run.now)), Basculement)
      else
        var archived := Archived(row.price, Points(v.trust), row.firstSeenAt, run.now);
        var switched := Row(v.dominant.value, score, run.now, run.now, row.frozenUntil, run.now);
        (State(switched, s.history + [archived]), Basculement)
    else
      var days := (run.now - row.lastSeenAt) / DAY;
      (s.(row := row.(trustScore := ApplyDecay(Points(v.trust), days, run.cfg), computedAt := run.now)), Updated)
  }

  function Step(s: State, run: Run): (State, Outcome)
  {
    if StillFrozen(s.row, run.now) then (s, Frozen)
    else
      var thawed := if run.dryRun then s else s.(row := s.row.(frozenUntil := None));
      if run.window == [] then
        (thawed.(row := thawed.row.(computedAt := run.now)), Updated)
      else
        Conclude(thawed, run, Assess(s.row.price, run))
  }

  // ── What a run leaves in the row ───────────────────────────────────────────

  /** The window as it is scored with the row's price as incumbent. */
  function Scored(price: int, run: Run): seq<Weighted> {
    Adjusted(Weigh(run.window, run.now, run.cfg), price, run.cfg)
  }

  /** The score is p's rounded share of the window. */
  predicate IsShare(score: real, items: seq<Weighted>, p: int) {
    Total(items) != 0.0 && score * 100.0 == Percent(WeightOf(items, p), Total(items)) as real
  }

  /** The verdict's two scores are the shares of the incumbent and of the dominant price. */
  lemma ScoresAreShares(items: seq<Weighted>, c: int)
    requires Total(items) != 0.0
    ensures var v := Scores(items, c);
      && IsShare(Points(v.trust), items, c)
      && v.dominant.Some? && IsDominant(items, v.dominant.value)
      && IsShare(Points(v.dominantScore), items, v.dominant.value)
  {
  }

  /** The old price is archived with its own share and its own span, and the
      dominant price starts now, with its share. */
  ghost predicate Switched(s: State, s': State, run: Run, items: seq<Weighted>) {
    && |s'.history| == |s.history| + 1 && s'.history[..|s.history|] == s.history
    && s'.row.price != s.row.price && IsDominant(items, s'.row.price)
    && s'.row.firstSeenAt == s'.row.lastSeenAt == s'.row.computedAt == run.now
    && s'.row.frozenUntil == None
    && var was := s'.history[|s.history|];
       && was.price == s.row.price && IsShare(was.trustScore, items, s.row.price)
       && was.firstSeenAt == s.row.firstSeenAt && was.lastSeenAt == run.now
       && exists share :: IsShare(share, items, s'.row.price) && was.trustScore < share &&
            s'.row.trustScore == if run.cfg.decayGraceDays > 0 then share else Max(run.cfg.decayFloor, share)
  }

  /** What a switch records: each score belongs to its own price, and unless there
      is no grace period at all the stored score is strictly above the archived one. */
  lemma SwitchRecords(s: State, run: Run)
    requires !run.dryRun && Step(s, run).1 == Basculement
    ensures Switched(s, Step(s, run).0, run, Scored(s.row.price, run))
  {
    var items, v := Scored(s.row.price, run), Assess(s.row.price, run);
    ScoresAreShares(items, s.row.price);
    ConcludeSwitches(s.(row := s.row.(frozenUntil := None)), run, v, items);
  }

  lemma ConcludeSwitches(s: State, run: Run, v: Verdict, items: seq<Weighted>)
    requires !run.dryRun && Switches(v, s.row.price) && s.row.frozenUntil == None
    requires IsShare(Points(v.trust), items, s.row.price)
    requires IsDominant(items, v.dominant.value) && IsShare(Points(v.dominantScore), items, v.dominant.value)
    ensures Switched(s, Conclude(s, run, v).0, run, items)
  {
    DecayDaily(Points(v.dominantScore), 0, run.cfg);
  }

  /** Without a switch the row keeps its price and span, and its score is the
      price's share, decayed by the whole days since it was last seen. */
  lemma UpdateRecords(s: State, run: Run, days: int)
    requires run.window != [] && Step(s, run).1 == Updated
    requires days * DAY <= run.now - s.row.lastSeenAt < (days + 1) * DAY
    ensures var s', items := Step(s, run).0, Scored(s.row.price, run);
      && s'.history == s.history
      && s'.row.price == s.row.price && s'.row.computedAt == run.now
      && s'.row.firstSeenAt == s.row.firstSeenAt && s'.row.lastSeenAt == s.row.lastSeenAt
      && s'.row.frozenUntil == (if run.dryRun then s.row.frozenUntil else None)
      && exists share :: IsShare(share, items, s.row.price) && s'.row.trustScore == ApplyDecay(share, days, run.cfg)
  {
    NonEmptyWindowScores(s.row.price, run);
    ScoresAreShares(Scored(s.row.price, run), s.row.price);
    assert (run.now - s.row.lastSeenAt) / DAY == days;
  }

  lemma NonEmptyWindowScores(price: int, run: Run)
    requires run.window != []
    ensures Total(Scored(price, run)) > 0.0
  {
    NewestKeepsWeight(Weigh(run.window, run.now, run.cfg), price, run.cfg);
  }

  /** A dry run announces the outcome and the score of the run it rehearses, and
      changes neither price, span, freeze nor history. */
  lemma DryRunRecords(s: State, run: Run, wet: Run)
    requires run.dryRun && wet == Run(run.now, run.cfg, run.window, false)
    ensures Step(s, run).1 == Step(s, wet).1
    ensures var s', s'' := Step(s, run).0, Step(s, wet).0;
      && s'.history == s.history
      && s'.row == s.row.(trustScore := s''.row.trustScore, computedAt := s''.row.computedAt)
  {
    assert Assess(s.row.price, wet) == Assess(s.row.price, run);
    ConcludeDry(s, s.(row := s.row.(frozenUntil := None)), run, wet, Assess(s.row.price, run));
  }

  lemma ConcludeDry(s: State, thawed: State, run: Run, wet: Run, v: Verdict)
    requires run.dryRun && wet == Run(run.now, run.cfg, run.window, false)
    requires thawed == s.(row := s.row.(frozenUntil := None))
    ensures Conclude(s, run, v).1 == Conclude(thawed, wet, v).1
    ensures var s', s'' := Conclude(s, run, v).0, Conclude(thawed, wet, v).0;
      && s'.history == s.history
      && s'.row == s.row.(trustScore := s''.row.trustScore, computedAt := s''.row.computedAt)
  {
  }

  /** A row is skipped exactly while its freeze lies ahead, and then nothing at
      all changes. */
  lemma FrozenIff(s: State, run: Run)
    ensures Step(s, run).1 == Frozen <==> s.row.frozenUntil.Some? && run.now < s.row.frozenUntil.value
    ensures Step(s, run).1 == Frozen ==> Step(s, run).0 == s
  {
  }

  /** A row without scans keeps everything but its freeze and its stamp. */
  lemma EmptyWindowRecords(s: State, run: Run)
    requires run.window == [] && Step(s, run).1 != Frozen
    ensures Step(s, run).1 == Updated
    ensures var s' := Step(s, run).0;
      && s'.history == s.history && s'.row.computedAt == run.now
      && s'.row.frozenUntil == (if run.dryRun then s.row.frozenUntil else None)
      && s'.row == s.row.(computedAt := s'.row.computedAt, frozenUntil := s'.row.frozenUntil)
  {
  }

  // ── The pipeline as the batch runs it ──────────────────────────────────────

  /** Steps 3 to 6: weigh the window, apply both patterns to it in place, score it. */
  method Evaluate(price: int, run: Run) returns (v: Verdict)
    ensures v == Assess(price, run)
  {
    var weighed := Weigh(run.window, run.now, run.cfg);
    var items := new Weighted[|weighed|](i requires 0 <= i < |weighed| => weighed[i]);
    assert items[..] == weighed;
    ApplyPatternA(items, price);
    ApplyPatternB(items, price, run.cfg);
    v := ComputeScores(items, price);
  }

  class PriceConsensus {
    var price: int
    var trustScore: real
    var firstSeenAt: int
    var lastSeenAt: int
    var frozenUntil: Option<int>
    var computedAt: int
    var history: seq<Archived>

    function Snapshot(): State
      reads this
    {
      State(Row(price, trustScore, firstSeenAt, lastSeenAt, frozenUntil, computedAt), history)
    }

    constructor (s: State)
      ensures Snapshot() == s
    {
      price, trustScore := s.row.price, s.row.trustScore;
      firstSeenAt, lastSeenAt := s.row.firstSeenAt, s.row.lastSeenAt;
      frozenUntil, computedAt := s.row.frozenUntil, s.row.computedAt;
      history := s.history;
    }

    method Process(run: Run) returns (outcome: Outcome)
      modifies this
      ensures (Snapshot(), outcome) == Step(old(Snapshot()), run)
    {
      var now := run.now;
      if frozenUntil != None {
        if frozenUntil.value > now {
          return Frozen;
        }
        if !run.dryRun {
          frozenUntil := None;
        }
      }
      if run.window == [] {
        computedAt := now;
        return Updated;
      }

      var v := Evaluate(price, run);
      outcome := Settle(run, v);
    }

    method Settle(run: Run, v: Verdict) returns (outcome: Outcome)
      modifies this
      ensures (Snapshot(), outcome) == Conclude(old(Snapshot()), run, v)
    {
      var now := run.now;
      outcome := Updated;
      var score := Points(v.trust);
      if v.dominant != None && v.dominant.value != price && v.dominantScore > v.trust {
        if !run.dryRun {
          history := history + [Archived(price, score, firstSeenAt, now)];
          price, firstSeenAt, lastSeenAt := v.dominant.value, now, now;
        }
        score := Points(v.dominantScore);
        outcome := Basculement;
      }
      var days := if outcome == Basculement then 0 else (now - lastSeenAt) / DAY;
      trustScore := ApplyDecay(score, days, run.cfg);
      computedAt := now;
    }
  }

  // ── Runs ───────────────────────────────────────────────────────────────────

  function After(s: State, runs: seq<Run>): State
  {
    if runs == [] then s
    else
      var n := |runs| - 1;
      Step(After(s, runs[..n]), runs[n]).0
  }

  /** Prices are positive and the clock never moves back past start. */
  ghost predicate Timely(start: int, runs: seq<Run>) {
    && (forall i :: 0 <= i < |runs| ==> start <= runs[i].now)
    && (forall i, j :: 0 <= i < j < |runs| ==> runs[i].now <= runs[j].now)
    && (forall i, k :: 0 <= i < |runs| && 0 <= k < |runs[i].window| ==> runs[i].window[k].price > 0)
  }

  predicate InRange(score: real) { 0.0 <= score <= 100.0 }

  /** What the database checks on the current row promise. */
  ghost predicate RowOk(row: Row) {
    row.price > 0 && InRange(row.trustScore) && row.firstSeenAt <= row.lastSeenAt
  }

  /** The archived spans lie end to end from `start` to `end`, each a valid row
      of its own, and each price differs from the next, the last from `price`. */
  ghost predicate Tiled(h: seq<Archived>, start: int, end: int, price: int) {
    if h == [] then start == end
    else
      var n := |h| - 1;
      && h[n].price > 0 && InRange(h[n].trustScore)
      && h[n].firstSeenAt <= h[n].lastSeenAt == end
      && h[n].price != price
      && Tiled(h[..n], start, h[n].firstSeenAt, h[n].price)
  }

  /** The current row passes its checks and continues where its history ends. */
  ghost predicate WellFormed(s: State, start: int) {
    RowOk(s.row) && Tiled(s.history, start, s.row.firstSeenAt, s.row.price)
  }

  lemma DominantIsQuoted(items: seq<Weighted>, c: int)
    requires Scores(items, c).dominant.Some?
    ensures exists k :: 0 <= k < |items| && items[k].price == Scores(items, c).dominant.value
  {
  }

  lemma AssessmentSound(price: int, run: Run)
    ensures var v := Assess(price, run);
      0 <= v.trust <= 10000 && 0 <= v.dominantScore <= 10000
    ensures Switches(Assess(price, run), price) ==>
      exists k :: 0 <= k < |run.window| && run.window[k].price == Assess(price, run).dominant.value
  {
    var items := Weigh(run.window, run.now, run.cfg);
    PatternsNeverRaise(items, price, run.cfg);
    var adjusted := Adjusted(items, price, run.cfg);
    ScoresInRange(adjusted, price);
    if Switches(Assess(price, run), price) {
      DominantIsQuoted(adjusted, price);
      var k :| 0 <= k < |adjusted| && adjusted[k].price == Scores(adjusted, price).dominant.value;
      assert run.window[k].price == items[k].price;
    }
  }

  lemma TiledAppend(h: seq<Archived>, start: int, end: int, price: int, next: Archived, price': int)
    requires Tiled(h, start, end, price) && next.price == price > 0 && price' != price
    requires InRange(next.trustScore) && next.firstSeenAt == end <= next.lastSeenAt
    ensures Tiled(h + [next], start, next.lastSeenAt, price')
  {
    assert (h + [next])[..|h|] == h;
  }

  /** Acting on a sound verdict keeps the row's checks and the tiling. */
  lemma ConcludeKeepsTiling(s: State, run: Run, v: Verdict, start: int)
    requires WellFormed(s, start) && s.row.firstSeenAt <= run.now
    requires 0 <= v.trust <= 10000 && 0 <= v.dominantScore <= 10000
    requires Switches(v, s.row.price) ==> v.dominant.value > 0
    ensures WellFormed(Conclude(s, run, v).0, start)
    ensures Conclude(s, run, v).0.row.firstSeenAt <= run.now
  {
    if Switches(v, s.row.price) && !run.dryRun {
      var archived := Archived(s.row.price, Points(v.trust), s.row.firstSeenAt, run.now);
      TiledAppend(s.history, start, s.row.firstSeenAt, s.row.price, archived, v.dominant.value);
    }
  }

  /** One run keeps the row's checks and the tiling. */
  lemma StepKeepsTiling(s: State, run: Run, start: int)
    requires WellFormed(s, start) && s.row.firstSeenAt <= run.now
    requires forall k :: 0 <= k < |run.window| ==> run.window[k].price > 0
    ensures WellFormed(Step(s, run).0, start) && Step(s, run).0.row.firstSeenAt <= run.now
  {
    AssessmentSound(s.row.price, run);
    var thawed := if run.dryRun then s else s.(row := s.row.(frozenUntil := None));
    ConcludeKeepsTiling(thawed, run, Assess(s.row.price, run), start);
  }

  /** Over any run with a non-decreasing clock, history plus the current row tile
      time end to end from the row's creation, consecutive prices differ, and
      every stored score and span satisfies the database's checks. */
  lemma {:induction false} HistoryTiles(s: State, runs: seq<Run>)
    requires RowOk(s.row) && s.history == []
    requires Timely(s.row.firstSeenAt, runs)
    ensures WellFormed(After(s, runs), s.row.firstSeenAt)
    ensures runs != [] ==> After(s, runs).row.firstSeenAt <= runs[|runs| - 1].now
  {
    if runs != [] {
      var n := |runs| - 1;
      HistoryTiles(s, runs[..n]);
      StepKeepsTiling(After(s, runs[..n]), runs[n], s.row.firstSeenAt);
    }
  }

  /** Neighbouring spans touch and quote different prices. */
  lemma {:induction false} SpansTouch(h: seq<Archived>, start: int, end: int, price: int, i: nat)
    requires Tiled(h, start, end, price) && i < |h|
    ensures h[i].firstSeenAt == if i == 0 then start else h[i - 1].lastSeenAt
    ensures h[i].price != if i + 1 < |h| then h[i + 1].price else price
    ensures start <= h[i].firstSeenAt <= h[i].lastSeenAt <= end
  {
    var n := |h| - 1;
    if n > 0 {
      SpansTouch(h[..n], start, h[n].firstSeenAt, h[n].price, if i < n then i else n - 1);
    }
  }

  /** Every instant before the current price falls in exactly one archived span. */
  lemma {:induction false} InstantHasOnePrice(h: seq<Archived>, start: int, end: int, price: int, t: int)
    returns (i: nat)
    requires Tiled(h, start, end, price) && start <= t < end
    ensures i < |h| && h[i].firstSeenAt <= t < h[i].lastSeenAt
    ensures forall j :: 0 <= j < |h| && h[j].firstSeenAt <= t < h[j].lastSeenAt ==> j == i
  {
    var n := |h| - 1;
    if h[n].firstSeenAt <= t {
      i := n;
      forall j | 0 <= j < n
        ensures h[j].lastSeenAt <= t
      {
        SpansTouch(h[..n], start, h[n].firstSeenAt, h[n].price, j);
      }
    } else {
      i := InstantHasOnePrice(h[..n], start, h[n].firstSeenAt, h[n].price, t);
    }
  }
}
