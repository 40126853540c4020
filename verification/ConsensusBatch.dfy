/** The batch runner: rows split into chunks, chunks worked on in parallel, each
    row in its own transaction, per-chunk reports merged as workers finish. */
module ConsensusBatch {
  import opened Common
  import opened Folds
  import opened ConsensusScoring
  import opened ConsensusRow

  type Id = int
  type Table = map<Id, State>

  /** How a row's transaction ends: normally, or with an exception raised while
      loading the row, inside the pipeline, or by the commit itself. */
  datatype Fate = Fine | LoadFails | PipelineFails | CommitFails

  /** The batch's inputs: clock, settings, the scans linked to each row, and
      which transactions the database lets through. */
  datatype Job = Job(now: int, cfg: Config, dryRun: bool, windows: map<Id, seq<Scan>>, fates: map<Id, Fate>)
  {
    function RunOn(id: Id): Run {
      Run(now, cfg, if id in windows then windows[id] else [], dryRun)
    }
    function FateOf(id: Id): Fate {
      if id in fates then fates[id] else Fine
    }
    /** The pipeline as a function of the row alone. */
    function Pipeline(): (Id, State) -> (State, Outcome) {
      (id, s) => Step(s, RunOn(id))
    }
  }

  /** What the runner needs to know of a job. */
  datatype Plan = Plan(pipeline: (Id, State) -> (State, Outcome), fate: Id -> Fate, dryRun: bool)

  ghost function PlanOf(job: Job): Plan {
    Plan(job.Pipeline(), id => job.FateOf(id), job.dryRun)
  }

  /** One entry of a worker's report: a counter bumped, or an id appended to the
      error list. A report is the bag of its entries, since the order in
      which errors are listed depends on which worker finishes first. */
  datatype Entry = Counted(outcome: Outcome) | Failed(id: Id)
  type Report = multiset<Entry>

  // ── One row's transaction ──────────────────────────────────────────────────

  /** The table after the row's transaction; only a commit changes it. */
  function Visit(table: Table, id: Id, plan: Plan): Table {
    if id in table && plan.fate(id) == Fine && !plan.dryRun
    then table[id := plan.pipeline(id, table[id]).0]
    else table
  }

  /** What a worker learns of one row: it is gone, its load or pipeline raised, or it was
      processed and its commit, if one was due, went through or not. */
  datatype RowResult = Gone | Raised | Processed(outcome: Outcome, committed: bool)

  function ResultOf(table: Table, id: Id, plan: Plan): RowResult {
    if plan.fate(id) == LoadFails then Raised
    else if id !in table then Gone
    else if plan.fate(id) == PipelineFails then Raised
    else Processed(plan.pipeline(id, table[id]).1, plan.dryRun || plan.fate(id) != CommitFails)
  }

  /** What the worker records. Statistics are bumped before the commit, so a row
      whose commit fails is entered twice. */
  function Recorded(id: Id, result: RowResult): Report {
    match result
    case Gone => multiset{}
    case Raised => multiset{Failed(id)}
    case Processed(outcome, committed) =>
      if committed then multiset{Counted(outcome)} else multiset{Counted(outcome), Failed(id)}
  }

  function Entries(table: Table, id: Id, plan: Plan): Report {
    Recorded(id, ResultOf(table, id, plan))
  }

  // ── Rows one after another ─────────────────────────────────────────────────

  function Sweep(table: Table, ids: seq<Id>, plan: Plan): Table {
    if ids == [] then table
    else Visit(Sweep(table, ids[..|ids| - 1], plan), ids[|ids| - 1], plan)
  }

  /** Each row's entries, read from one fixed table. */
  function EntriesOn(table: Table, plan: Plan): Id -> Report {
    id => Entries(table, id, plan)
  }

  function Tally(table: Table, ids: seq<Id>, plan: Plan): Report {
    Gather(EntriesOn(table, plan), ids)
  }

  lemma {:induction false} SweepKeepsOthers(table: Table, ids: seq<Id>, plan: Plan, id: Id)
    requires id !in ids
    ensures id in Sweep(table, ids, plan) <==> id in table
    ensures id in table ==> Sweep(table, ids, plan)[id] == table[id]
  {
    if ids != [] {
      SweepKeepsOthers(table, ids[..|ids| - 1], plan, id);
    }
  }

  lemma SameRowSameVisit(a: Table, b: Table, id: Id, plan: Plan)
    requires id in a <==> id in b
    requires id in a ==> a[id] == b[id]
    ensures ResultOf(a, id, plan) == ResultOf(b, id, plan) && Entries(a, id, plan) == Entries(b, id, plan)
    ensures id in Visit(a, id, plan) <==> id in Visit(b, id, plan)
    ensures id in Visit(a, id, plan) ==> Visit(a, id, plan)[id] == Visit(b, id, plan)[id]
  {
  }

  /** Swept rows end as if visited alone in the original table. */
  lemma {:induction false} SweepVisitsEach(table: Table, ids: seq<Id>, plan: Plan, id: Id)
    requires Distinct(ids)
    ensures Sweep(table, ids, plan).Keys == table.Keys
    ensures id in table ==>
      Sweep(table, ids, plan)[id] == if id in ids then Visit(table, id, plan)[id] else table[id]
  {
    if ids != [] {
      var n := |ids| - 1;
      var rest, last := ids[..n], ids[n];
      assert ids == rest + [last];
      SweepVisitsEach(table, rest, plan, id);
      if id == last {
        SweepKeepsOthers(table, rest, plan, id);
        SameRowSameVisit(table, Sweep(table, rest, plan), id, plan);
      }
    }
  }

  /** The table does not depend on the order in which rows are visited. */
  lemma SweepOrderIrrelevant(table: Table, a: seq<Id>, b: seq<Id>, plan: Plan)
    requires Distinct(a) && Distinct(b) && forall id :: id in a <==> id in b
    ensures Sweep(table, a, plan) == Sweep(table, b, plan)
  {
    var s, t := Sweep(table, a, plan), Sweep(table, b, plan);
    SweepVisitsEach(table, a, plan, 0);
    SweepVisitsEach(table, b, plan, 0);
    forall id | id in table
      ensures s[id] == t[id]
    {
      SweepVisitsEach(table, a, plan, id);
      SweepVisitsEach(table, b, plan, id);
    }
    assert s.Keys == t.Keys;
  }

  /** A dry run commits nothing. */
  lemma {:induction false} DryRunKeepsTable(table: Table, ids: seq<Id>, plan: Plan)
    requires plan.dryRun
    ensures Sweep(table, ids, plan) == table
  {
    if ids != [] {
      DryRunKeepsTable(table, ids[..|ids| - 1], plan);
    }
  }

  // ── Accounting ─────────────────────────────────────────────────────────────

  /** How many listed rows still exist. */
  function Found(table: Table, ids: seq<Id>): nat {
    if ids == [] then 0 else Found(table, ids[..|ids| - 1]) + if ids[|ids| - 1] in table then 1 else 0
  }

  function CommitFailures(table: Table, ids: seq<Id>, plan: Plan): nat {
    if ids == [] then 0
    else
      var id := ids[|ids| - 1];
      CommitFailures(table, ids[..|ids| - 1], plan) +
        if id in table && plan.fate(id) == CommitFails && !plan.dryRun then 1 else 0
  }

  /** How many listed rows are gone but were reported as errors because loading
      them raised. */
  function LostLoads(table: Table, ids: seq<Id>, plan: Plan): nat {
    if ids == [] then 0
    else
      var id := ids[|ids| - 1];
      LostLoads(table, ids[..|ids| - 1], plan) + if id !in table && plan.fate(id) == LoadFails then 1 else 0
  }

  lemma EntriesSize(table: Table, id: Id, plan: Plan)
    ensures |Entries(table, id, plan)| ==
      (if id in table || plan.fate(id) == LoadFails then 1 else 0) +
      (if id in table && plan.fate(id) == CommitFails && !plan.dryRun then 1 else 0)
  {
  }

  /** Statistics plus errors exceed the rows found by exactly the failed commits
      and the loads that raised on a row no longer there. */
  lemma {:induction false} TallyBalances(table: Table, ids: seq<Id>, plan: Plan)
    ensures |Tally(table, ids, plan)| ==
      Found(table, ids) + CommitFailures(table, ids, plan) + LostLoads(table, ids, plan)
  {
    if ids != [] {
      var n := |ids| - 1;
      TallyBalances(table, ids[..n], plan);
      EntriesSize(table, ids[n], plan);
      assert Tally(table, ids, plan) == Tally(table, ids[..n], plan) + Entries(table, ids[n], plan);
    }
  }

  // ── What a batch leaves behind ─────────────────────────────────────────────

  /** A row's own run: the batch's clock, settings and mode, the row's own scans. */
  ghost predicate OwnRun(job: Job, id: Id, run: Run) {
    && run.now == job.now && run.cfg == job.cfg && run.dryRun == job.dryRun
    && run.window == if id in job.windows then job.windows[id] else []
  }

  /** Every listed row whose transaction goes through ends as its own run leaves
      it, whatever happens to the others; every other row stays as it was. */
  lemma BatchLeaves(table: Table, ids: seq<Id>, job: Job, id: Id, run: Run)
    requires Distinct(ids) && OwnRun(job, id, run)
    ensures Sweep(table, ids, PlanOf(job)).Keys == table.Keys
    ensures id in table ==>
      Sweep(table, ids, PlanOf(job))[id] ==
        if id in ids && !job.dryRun && (id in job.fates ==> job.fates[id] == Fine)
        then Step(table[id], run).0 else table[id]
  {
    var plan := PlanOf(job);
    SweepVisitsEach(table, ids, plan, id);
    assert job.RunOn(id) == run;
    assert plan.fate(id) == job.FateOf(id) && plan.dryRun == job.dryRun;
    if id in table {
      assert plan.pipeline(id, table[id]) == Step(table[id], run);
    }
  }

  /** The row's transaction ends in an error: its load raises, or the row is there
      and its pipeline raises, or the commit due on it does. */
  predicate Errs(table: Table, id: Id, plan: Plan) {
    || plan.fate(id) == LoadFails
    || (id in table && (plan.fate(id) == PipelineFails || (plan.fate(id) == CommitFails && !plan.dryRun)))
  }

  /** The row is there and its pipeline returns the outcome, committed or not. */
  predicate Returns(table: Table, id: Id, plan: Plan, outcome: Outcome) {
    id in table && plan.fate(id) != LoadFails && plan.fate(id) != PipelineFails &&
    plan.pipeline(id, table[id]).1 == outcome
  }

  function Returning(table: Table, ids: seq<Id>, plan: Plan, outcome: Outcome): set<Id> {
    set id | id in ids && Returns(table, id, plan, outcome)
  }

  /** The report holds each failing id once, and no other. */
  lemma {:induction false} TallyFailures(table: Table, ids: seq<Id>, plan: Plan, id: Id)
    requires Distinct(ids)
    ensures Tally(table, ids, plan)[Failed(id)] == if id in ids && Errs(table, id, plan) then 1 else 0
  {
    if ids != [] {
      var n := |ids| - 1;
      assert ids == ids[..n] + [ids[n]];
      TallyFailures(table, ids[..n], plan, id);
      EntriesMean(table, ids[n], plan, id, Updated);
    }
  }

  /** The report counts each outcome once for every row whose pipeline returned it. */
  lemma {:induction false} TallyOutcomes(table: Table, ids: seq<Id>, plan: Plan, outcome: Outcome)
    requires Distinct(ids)
    ensures Tally(table, ids, plan)[Counted(outcome)] == |Returning(table, ids, plan, outcome)|
  {
    if ids != [] {
      var n := |ids| - 1;
      TallyOutcomes(table, ids[..n], plan, outcome);
      EntriesMean(table, ids[n], plan, ids[n], outcome);
      ReturningSnoc(table, ids, plan, outcome);
    }
  }

  lemma ReturningSnoc(table: Table, ids: seq<Id>, plan: Plan, outcome: Outcome)
    requires ids != [] && Distinct(ids)
    ensures var n := |ids| - 1;
      |Returning(table, ids, plan, outcome)| ==
        |Returning(table, ids[..n], plan, outcome)| + if Returns(table, ids[n], plan, outcome) then 1 else 0
  {
    var n := |ids| - 1;
    var rest, last := ids[..n], ids[n];
    assert ids == rest + [last] && last !in rest;
    var before := Returning(table, rest, plan, outcome);
    assert Returning(table, ids, plan, outcome) ==
      if Returns(table, last, plan, outcome) then before + {last} else before;
  }

  lemma EntriesMean(table: Table, x: Id, plan: Plan, id: Id, outcome: Outcome)
    ensures Entries(table, x, plan)[Failed(id)] == if x == id && Errs(table, x, plan) then 1 else 0
    ensures Entries(table, x, plan)[Counted(outcome)] == if Returns(table, x, plan, outcome) then 1 else 0
  {
  }

  // ── Chunks, interleavings and completion orders ────────────────────────────

  /** Consecutive chunks of `size` ids from index i on, the last possibly shorter. */
  function Chunks(ids: seq<Id>, size: nat, i: nat): seq<seq<Id>>
    requires size >= 1
    decreases |ids| - i
  {
    if i >= |ids| then []
    else [ids[i..End(ids, size, i)]] + Chunks(ids, size, i + size)
  }

  function End(ids: seq<Id>, size: nat, i: nat): nat
    requires i <= |ids|
    ensures i <= End(ids, size, i) <= |ids|
  {
    if i + size <= |ids| then i + size else |ids|
  }

  lemma {:induction false} ChunksPartition(ids: seq<Id>, size: nat, i: nat)
    requires size >= 1 && i <= |ids|
    ensures Flatten(Chunks(ids, size, i)) == ids[i..]
    decreases |ids| - i
  {
    if i < |ids| {
      var hi := End(ids, size, i);
      FlattenCons(ids[i..hi], Chunks(ids, size, i + size));
      if i + size <= |ids| {
        ChunksPartition(ids, size, i + size);
      }
    }
  }

  /** A worker commits a row: which chunk it works on and which row. */
  datatype Event = Event(chunk: nat, id: Id)

  function Ids(events: seq<Event>): seq<Id> {
    seq(|events|, i requires 0 <= i < |events| => events[i].id)
  }

  /** The rows one chunk's worker visits, in its order. */
  function Lane(events: seq<Event>, chunk: nat): seq<Id> {
    if events == [] then []
    else
      var last := events[|events| - 1];
      if last.chunk == chunk then Lane(events[..|events| - 1], chunk) + [last.id]
      else Lane(events[..|events| - 1], chunk)
  }

  /** What the worker of one chunk records, reading whatever table the other
      workers' commits have left it. */
  function LaneReport(table: Table, events: seq<Event>, chunk: nat, plan: Plan): Report {
    if events == [] then multiset{}
    else
      var n := |events| - 1;
      LaneReport(table, events[..n], chunk, plan) +
        if events[n].chunk == chunk then Entries(Sweep(table, Ids(events[..n]), plan), events[n].id, plan)
        else multiset{}
  }

  /** However the workers' transactions interleave, each chunk reports what it
      would have reported alone on the original table. */
  lemma {:induction false} LanesAreIndependent(table: Table, events: seq<Event>, chunk: nat, plan: Plan)
    requires Distinct(Ids(events))
    ensures LaneReport(table, events, chunk, plan) == Tally(table, Lane(events, chunk), plan)
  {
    if events != [] {
      var n := |events| - 1;
      var before, last := events[..n], events[n];
      assert Ids(events)[..n] == Ids(before);
      LanesAreIndependent(table, before, chunk, plan);
      if last.chunk == chunk {
        assert Ids(events)[n] == last.id;
        SweepKeepsOthers(table, Ids(before), plan, last.id);
        SameRowSameVisit(table, Sweep(table, Ids(before), plan), last.id, plan);
        var lane := Lane(before, chunk);
        assert (lane + [last.id])[..|lane|] == lane;
      }
    }
  }

  function Lanes(events: seq<Event>, n: nat): seq<seq<Id>> {
    seq(n, k requires 0 <= k => Lane(events, k))
  }

  /** The events are exactly the lanes' rows. */
  lemma {:induction false} LanesCoverEvents(events: seq<Event>, n: nat)
    requires forall i :: 0 <= i < |events| ==> events[i].chunk < n
    ensures multiset(Ids(events)) == multiset(Flatten(Lanes(events, n)))
  {
    if events == [] {
      EmptyLanes(n);
    } else {
      var m := |events| - 1;
      var before, last := events[..m], events[m];
      LanesCoverEvents(before, n);
      LanesSnoc(events, n);
      FlattenAppend(Lanes(before, n), last.chunk, last.id);
      IdsSnoc(events);
    }
  }

  lemma IdsSnoc(events: seq<Event>)
    requires events != []
    ensures var m := |events| - 1;
      multiset(Ids(events)) == multiset(Ids(events[..m])) + multiset{events[m].id}
  {
    var m := |events| - 1;
    assert Ids(events) == Ids(events[..m]) + [events[m].id];
  }

  lemma LanesSnoc(events: seq<Event>, n: nat)
    requires events != [] && events[|events| - 1].chunk < n
    ensures var m := |events| - 1;
      var lanes, k := Lanes(events[..m], n), events[m].chunk;
      Lanes(events, n) == lanes[k := lanes[k] + [events[m].id]]
  {
  }

  lemma {:induction false} EmptyLanes(n: nat)
    ensures Flatten(Lanes([], n)) == []
  {
    if n > 0 {
      EmptyLanes(n - 1);
      assert Lanes([], n)[..n - 1] == Lanes([], n - 1);
    }
  }

  /** Every event belongs to a chunk, and each chunk's worker takes its rows in order. */
  ghost predicate Interleaves(events: seq<Event>, chunks: seq<seq<Id>>) {
    && (forall i :: 0 <= i < |events| ==> events[i].chunk < |chunks|)
    && (forall k :: 0 <= k < |chunks| ==> Lane(events, k) == chunks[k])
  }

  lemma SameBagDistinct(a: seq<Id>, b: seq<Id>)
    requires multiset(a) == multiset(b) && Distinct(a)
    ensures Distinct(b) && forall id :: id in a <==> id in b
  {
    forall id
      ensures id in a <==> id in b
    {
      assert id in multiset(a) <==> id in multiset(b);
    }
    DistinctParts(a, [], b);
  }

  /** Sequences that fit together into distinct ids are distinct and disjoint. */
  lemma DistinctParts(ids: seq<Id>, a: seq<Id>, b: seq<Id>)
    requires Distinct(ids) && multiset(a) + multiset(b) <= multiset(ids)
    ensures Distinct(b) && forall id :: id in b ==> id !in a
  {
    forall id | id in b
      ensures id !in a
    {
      assert id in multiset(b);
      DistinctOnce(ids, id);
      assert id in a ==> id in multiset(a);
    }
    forall i, j | 0 <= i < j < |b|
      ensures b[i] != b[j]
    {
      assert b == b[..i] + [b[i]] + b[i + 1..j] + [b[j]] + b[j + 1..];
      DistinctOnce(ids, b[i]);
    }
  }

  lemma {:induction false} DistinctOnce(a: seq<Id>, x: Id)
    requires Distinct(a)
    ensures multiset(a)[x] <= 1
  {
    if a != [] {
      var n := |a| - 1;
      assert a == a[..n] + [a[n]];
      DistinctOnce(a[..n], x);
      if a[n] == x {
        assert x !in a[..n];
      }
    }
  }

  /** For every chunk size, every interleaving of the workers' transactions and
      every order in which the workers finish, the final table and the merged
      report are those of visiting the rows one after another, and the report
      counts each row found once, plus once more for each failed commit, and
      once for each vanished row whose load raised. */
  lemma ParallelEqualsSequential(table: Table, ids: seq<Id>, size: nat, events: seq<Event>, order: seq<int>,
                                 each: int -> Report, plan: Plan)
    requires size >= 1 && Distinct(ids)
    requires var chunks := Chunks(ids, size, 0);
      && Interleaves(events, chunks)
      && multiset(order) == multiset(UpTo(|chunks|))
      && forall k :: 0 <= k < |chunks| ==> each(k) == LaneReport(table, events, k, plan)
    ensures Sweep(table, Ids(events), plan) == Sweep(table, ids, plan)
    ensures Gather(each, order) == Tally(table, ids, plan)
    ensures |Gather(each, order)| ==
      Found(table, ids) + CommitFailures(table, ids, plan) + LostLoads(table, ids, plan)
  {
    var chunks := Chunks(ids, size, 0);
    ChunksPartition(ids, size, 0);
    LanesCoverEvents(events, |chunks|);
    assert Lanes(events, |chunks|) == chunks == chunks[..|chunks|];
    SameBagDistinct(ids, Ids(events));
    SweepOrderIrrelevant(table, Ids(events), ids, plan);
    var one := EntriesOn(table, plan);
    forall k | 0 <= k < |chunks|
      ensures each(k) == Gather(one, chunks[k])
    {
      LanesAreIndependent(table, events, k, plan);
    }
    GatherPermutes(each, order, UpTo(|chunks|));
    GatherFlatten(one, each, chunks, |chunks|);
    TallyBalances(table, ids, plan);
  }

  // ── The runner ─────────────────────────────────────────────────────────────

  /** The dictionary of counters a worker returns beside its error list. */
  datatype Stats = Stats(updated: nat, basculement: nat, frozen: nat)
  {
    function Bump(outcome: Outcome): Stats {
      match outcome
      case Updated => this.(updated := updated + 1)
      case Basculement => this.(basculement := basculement + 1)
      case Frozen => this.(frozen := frozen + 1)
    }
    function Plus(o: Stats): Stats {
      Stats(updated + o.updated, basculement + o.basculement, frozen + o.frozen)
    }
  }

  /** The report a worker's counters amount to. */
  function Counts(stats: Stats): Report {
    multiset{}[Counted(Updated) := stats.updated][Counted(Basculement) := stats.basculement]
      [Counted(Frozen) := stats.frozen]
  }

  function Mark(): Id -> Report {
    id => multiset{Failed(id)}
  }

  /** The counters and the error list say exactly what the report's entries say. */
  ghost predicate Shows(stats: Stats, errors: seq<Id>, report: Report) {
    report == Counts(stats) + Gather(Mark(), errors)
  }

  lemma CountsBump(stats: Stats, outcome: Outcome)
    ensures Counts(stats.Bump(outcome)) == Counts(stats) + multiset{Counted(outcome)}
  {
  }

  lemma CountsPlus(a: Stats, b: Stats)
    ensures Counts(a.Plus(b)) == Counts(a) + Counts(b)
  {
  }

  lemma MarkNext(errors: seq<Id>, id: Id)
    ensures Gather(Mark(), errors + [id]) == Gather(Mark(), errors) + multiset{Failed(id)}
  {
    GatherSnoc(Mark(), errors + [id], |errors|);
    assert (errors + [id])[..|errors|] == errors && (errors + [id])[..|errors| + 1] == errors + [id];
  }

  /** Recording one more row in the counters and the error list. */
  lemma ShowsNext(stats: Stats, errors: seq<Id>, report: Report, id: Id, result: RowResult)
    requires Shows(stats, errors, report)
    ensures Shows(if result.Processed? then stats.Bump(result.outcome) else stats,
                  if result == Raised || (result.Processed? && !result.committed) then errors + [id] else errors,
                  report + Recorded(id, result))
  {
    if result.Processed? {
      CountsBump(stats, result.outcome);
    }
    MarkNext(errors, id);
  }

  /** Adding counters and joining error lists is the union of the reports. */
  lemma ShowsMerge(stats: Stats, errors: seq<Id>, report: Report, stats': Stats, errors': seq<Id>, report': Report)
    requires Shows(stats, errors, report) && Shows(stats', errors', report')
    ensures Shows(stats.Plus(stats'), errors + errors', report + report')
  {
    CountsPlus(stats, stats');
    GatherConcat(Mark(), errors, errors');
  }

  lemma {:induction false} MarksMean(errors: seq<Id>, id: Id, outcome: Outcome)
    ensures Gather(Mark(), errors)[Failed(id)] == multiset(errors)[id]
    ensures Gather(Mark(), errors)[Counted(outcome)] == 0
  {
    if errors != [] {
      var n := |errors| - 1;
      MarksMean(errors[..n], id, outcome);
      assert errors == errors[..n] + [errors[n]];
    }
  }

  /** Counters and error list read off a batch's report: each counter is the
      number of rows whose pipeline returned that outcome, and the error list
      holds exactly the failing ids, once each. */
  lemma ReportMeans(table: Table, ids: seq<Id>, plan: Plan, stats: Stats, errors: seq<Id>, id: Id)
    requires Distinct(ids) && Shows(stats, errors, Tally(table, ids, plan))
    ensures stats.updated == |Returning(table, ids, plan, Updated)|
    ensures stats.basculement == |Returning(table, ids, plan, Basculement)|
    ensures stats.frozen == |Returning(table, ids, plan, Frozen)|
    ensures multiset(errors)[id] == if id in ids && Errs(table, id, plan) then 1 else 0
  {
    TallyFailures(table, ids, plan, id);
    TallyOutcomes(table, ids, plan, Updated);
    TallyOutcomes(table, ids, plan, Basculement);
    TallyOutcomes(table, ids, plan, Frozen);
    MarksMean(errors, id, Updated);
    MarksMean(errors, id, Basculement);
    MarksMean(errors, id, Frozen);
  }

  ghost function TallyEach(table: Table, chunks: seq<seq<Id>>, plan: Plan): int -> Report {
    k => if 0 <= k < |chunks| then Tally(table, chunks[k], plan) else multiset{}
  }

  ghost function BagEach(chunks: seq<seq<Id>>): int -> multiset<Id> {
    k => if 0 <= k < |chunks| then multiset(chunks[k]) else multiset{}
  }

  /** Cuts the id list into consecutive chunks, the last possibly shorter. */
  method SplitIds(ids: seq<Id>, size: nat) returns (chunks: seq<seq<Id>>)
    requires size >= 1
    ensures chunks == Chunks(ids, size, 0) && Flatten(chunks) == ids
  {
    chunks := [];
    var i := 0;
    while i < |ids|
      invariant chunks + Chunks(ids, size, i) == Chunks(ids, size, 0)
      decreases |ids| - i
    {
      chunks := chunks + [ids[i..End(ids, size, i)]];
      i := i + size;
    }
    ChunksPartition(ids, size, 0);
  }

  /** The next row of a chunk is still as it was, so its entries are added to
      the tally. */
  lemma NextRow(table: Table, chunk: seq<Id>, i: nat, plan: Plan)
    requires Distinct(chunk) && i < |chunk|
    ensures var now, id := Sweep(table, chunk[..i], plan), chunk[i];
      && Sweep(table, chunk[..i + 1], plan) == Visit(now, id, plan)
      && Tally(table, chunk[..i + 1], plan) == Tally(table, chunk[..i], plan) + Recorded(id, ResultOf(now, id, plan))
  {
    assert chunk[..i + 1][..i] == chunk[..i];
    SweepKeepsOthers(table, chunk[..i], plan, chunk[i]);
    SameRowSameVisit(table, Sweep(table, chunk[..i], plan), chunk[i], plan);
  }

  class Database {
    var rows: Table

    constructor (table: Table)
      ensures rows == table
    {
      rows := table;
    }

    /** One session: load the row, run the pipeline, commit it. */
    method ProcessRow(id: Id, job: Job, ghost plan: Plan) returns (result: RowResult)
      requires plan == PlanOf(job)
      modifies this
      ensures rows == Visit(old(rows), id, plan)
      ensures result == ResultOf(old(rows), id, plan)
    {
      if job.FateOf(id) == LoadFails {
        return Raised;
      }
      if id !in rows {
        return Gone;
      }
      if job.FateOf(id) == PipelineFails {
        return Raised;
      }
      var consensus := new PriceConsensus(rows[id]);
      var outcome := consensus.Process(job.RunOn(id));
      assert (consensus.Snapshot(), outcome) == plan.pipeline(id, rows[id]);
      if job.dryRun {
        return Processed(outcome, true);
      }
      if job.FateOf(id) == CommitFails {
        return Processed(outcome, false);
      }
      rows := rows[id := consensus.Snapshot()];
      return Processed(outcome, true);
    }

    method ProcessChunk(chunk: seq<Id>, job: Job, ghost plan: Plan) returns (stats: Stats, errors: seq<Id>)
      requires Distinct(chunk) && plan == PlanOf(job)
      modifies this
      ensures rows == Sweep(old(rows), chunk, plan)
      ensures Shows(stats, errors, Tally(old(rows), chunk, plan))
    {
      stats, errors := Stats(0, 0, 0), [];
      for i := 0 to |chunk|
        invariant rows == Sweep(old(rows), chunk[..i], plan)
        invariant Shows(stats, errors, Tally(old(rows), chunk[..i], plan))
      {
        var id := chunk[i];
        NextRow(old(rows), chunk, i, plan);
        ShowsNext(stats, errors, Tally(old(rows), chunk[..i], plan), id, ResultOf(rows, id, plan));
        var result := ProcessRow(id, job, plan);
        if result.Processed? {
          stats := stats.Bump(result.outcome);
        }
        if result == Raised || (result.Processed? && !result.committed) {
          errors := errors + [id];
        }
      }
      assert chunk[..|chunk|] == chunk;
    }

    /** Process one chunk and add its counters and errors to the totals. */
    method MergeChunk(chunk: seq<Id>, job: Job, ghost plan: Plan, stats: Stats, errors: seq<Id>, ghost report: Report)
      returns (stats': Stats, errors': seq<Id>)
      requires Distinct(chunk) && plan == PlanOf(job) && Shows(stats, errors, report)
      modifies this
      ensures rows == Sweep(old(rows), chunk, plan)
      ensures Shows(stats', errors', report + Tally(old(rows), chunk, plan))
    {
      var chunkStats, chunkErrors := ProcessChunk(chunk, job, plan);
      ShowsMerge(stats, errors, report, chunkStats, chunkErrors, Tally(old(rows), chunk, plan));
      stats', errors' := stats.Plus(chunkStats), errors + chunkErrors;
    }

    /** Split the ids into chunks, work them off in the order the workers finish,
        merge their counters, and return the failed ids and the rows processed. */
    method RunBatch(ids: seq<Id>, size: nat, order: seq<int>, job: Job, ghost plan: Plan)
      returns (stats: Stats, errors: seq<Id>, processed: nat)
      requires size >= 1 && Distinct(ids) && plan == PlanOf(job)
      requires multiset(order) == multiset(UpTo(|Chunks(ids, size, 0)|))
      modifies this
      ensures rows == Sweep(old(rows), ids, plan)
      ensures Shows(stats, errors, Tally(old(rows), ids, plan))
      ensures processed == stats.updated + stats.basculement
    {
      var chunks := SplitIds(ids, size);
      stats, errors := Stats(0, 0, 0), [];
      ghost var visited: seq<Id> := [];
      for j := 0 to |order|
        invariant rows == Sweep(old(rows), visited, plan)
        invariant multiset(visited) == Covered(chunks, order, j)
        invariant Shows(stats, errors, Merged(old(rows), chunks, order, j, plan))
      {
        NextChunk(old(rows), ids, size, chunks, order, j, visited, plan);
        var chunk := chunks[order[j]];
        stats, errors := MergeChunk(chunk, job, plan, stats, errors, Merged(old(rows), chunks, order, j, plan));
        visited := visited + chunk;
      }
      AllChunks(old(rows), ids, size, chunks, order, visited, plan);
      processed := stats.updated + stats.basculement;
    }
  }

  /** The rows of the first j chunks collected, as a bag. */
  ghost function Covered(chunks: seq<seq<Id>>, order: seq<int>, j: nat): multiset<Id>
    requires j <= |order|
  {
    Gather(BagEach(chunks), order[..j])
  }

  /** The first j reports collected, merged. */
  ghost function Merged(table: Table, chunks: seq<seq<Id>>, order: seq<int>, j: nat, plan: Plan): Report
    requires j <= |order|
  {
    Gather(TallyEach(table, chunks, plan), order[..j])
  }

  /** The next chunk to be collected is untouched, so it is processed as it would
      have been on the original table. */
  lemma NextChunk(table: Table, ids: seq<Id>, size: nat, chunks: seq<seq<Id>>, order: seq<int>,
                  j: nat, visited: seq<Id>, plan: Plan)
    requires size >= 1 && Distinct(ids) && chunks == Chunks(ids, size, 0)
    requires multiset(order) == multiset(UpTo(|chunks|)) && j < |order|
    requires multiset(visited) == Covered(chunks, order, j)
    ensures 0 <= order[j] < |chunks| && Distinct(chunks[order[j]])
    ensures var chunk := chunks[order[j]];
      && Sweep(Sweep(table, visited, plan), chunk, plan) == Sweep(table, visited + chunk, plan)
      && multiset(visited + chunk) == Covered(chunks, order, j + 1)
      && Merged(table, chunks, order, j, plan) + Tally(Sweep(table, visited, plan), chunk, plan)
           == Merged(table, chunks, order, j + 1, plan)
  {
    var each, bag := TallyEach(table, chunks, plan), BagEach(chunks);
    PlanCovers(ids, size, chunks, order, bag);
    NextChunkIsNew(ids, chunks, order, bag, j, visited);
    var chunk := chunks[order[j]];
    TallyUntouched(table, visited, chunk, plan);
    SweepConcat(table, visited, chunk, plan);
    GatherSnoc(each, order, j);
    GatherSnoc(bag, order, j);
  }

  lemma AllChunks(table: Table, ids: seq<Id>, size: nat, chunks: seq<seq<Id>>, order: seq<int>,
                  visited: seq<Id>, plan: Plan)
    requires size >= 1 && Distinct(ids) && chunks == Chunks(ids, size, 0)
    requires multiset(order) == multiset(UpTo(|chunks|))
    requires multiset(visited) == Covered(chunks, order, |order|)
    ensures Sweep(table, visited, plan) == Sweep(table, ids, plan)
    ensures Merged(table, chunks, order, |order|, plan) == Tally(table, ids, plan)
  {
    assert order[..|order|] == order;
    PlanCovers(ids, size, chunks, order, BagEach(chunks));
    SameBagDistinct(ids, visited);
    SweepOrderIrrelevant(table, visited, ids, plan);
    MergedTally(table, ids, size, chunks, order, TallyEach(table, chunks, plan), plan);
  }

  lemma {:induction false} SweepConcat(table: Table, a: seq<Id>, b: seq<Id>, plan: Plan)
    ensures Sweep(table, a + b, plan) == Sweep(Sweep(table, a, plan), b, plan)
  {
    if b == [] {
      assert a + b == a;
    } else {
      var n := |b| - 1;
      SweepConcat(table, a, b[..n], plan);
      assert (a + b)[..|a| + n] == a + b[..n];
    }
  }

  /** A tally does not notice visits to other rows. */
  lemma {:induction false} TallyUntouched(table: Table, visited: seq<Id>, ids: seq<Id>, plan: Plan)
    requires forall id :: id in ids ==> id !in visited
    ensures Tally(Sweep(table, visited, plan), ids, plan) == Tally(table, ids, plan)
  {
    if ids != [] {
      var n := |ids| - 1;
      TallyUntouched(table, visited, ids[..n], plan);
      SweepKeepsOthers(table, visited, plan, ids[n]);
      SameRowSameVisit(table, Sweep(table, visited, plan), ids[n], plan);
    }
  }

  lemma PlanCovers(ids: seq<Id>, size: nat, chunks: seq<seq<Id>>, order: seq<int>, bag: int -> multiset<Id>)
    requires size >= 1 && chunks == Chunks(ids, size, 0)
    requires multiset(order) == multiset(UpTo(|chunks|))
    requires forall k :: 0 <= k < |chunks| ==> bag(k) == multiset(chunks[k])
    ensures Gather(bag, order) == multiset(ids)
  {
    GatherPermutes(bag, order, UpTo(|chunks|));
    GatherBags(bag, chunks, |chunks|);
    ChunksPartition(ids, size, 0);
    assert chunks[..|chunks|] == chunks && ids[0..] == ids;
  }

  lemma {:induction false} GatherBags(bag: int -> multiset<Id>, chunks: seq<seq<Id>>, n: nat)
    requires n <= |chunks| && forall k :: 0 <= k < n ==> bag(k) == multiset(chunks[k])
    ensures Gather(bag, UpTo(n)) == multiset(Flatten(chunks[..n]))
  {
    if n > 0 {
      GatherBags(bag, chunks, n - 1);
      GatherUpTo(bag, n);
      FlattenSnoc(chunks, n);
      var front, last := Flatten(chunks[..n - 1]), chunks[n - 1];
      assert multiset(front + last) == multiset(front) + multiset(last);
    }
  }

  /** The next chunk's rows are distinct and none has been visited. */
  lemma NextChunkIsNew(ids: seq<Id>, chunks: seq<seq<Id>>, order: seq<int>, bag: int -> multiset<Id>,
                       j: nat, visited: seq<Id>)
    requires Distinct(ids) && j < |order| && Gather(bag, order) == multiset(ids)
    requires multiset(order) == multiset(UpTo(|chunks|))
    requires forall k :: 0 <= k < |chunks| ==> bag(k) == multiset(chunks[k])
    requires multiset(visited) == Gather(bag, order[..j])
    ensures 0 <= order[j] < |chunks| && Distinct(chunks[order[j]])
    ensures forall id :: id in chunks[order[j]] ==> id !in visited
  {
    var k := order[j];
    assert k in order && k in multiset(UpTo(|chunks|));
    BagSplit(order, bag, j);
    DistinctParts(ids, visited, chunks[k]);
  }

  lemma BagSplit(order: seq<int>, bag: int -> multiset<Id>, j: nat)
    requires j < |order|
    ensures Gather(bag, order[..j]) + bag(order[j]) <= Gather(bag, order)
  {
    var front, k, back := order[..j], order[j], order[j + 1..];
    SplitAt(order, j);
    GatherMiddle(bag, front, k, back);
    GatherConcat(bag, front, back);
  }

  lemma MergedTally(table: Table, ids: seq<Id>, size: nat, chunks: seq<seq<Id>>, order: seq<int>,
                    each: int -> Report, plan: Plan)
    requires size >= 1 && chunks == Chunks(ids, size, 0)
    requires multiset(order) == multiset(UpTo(|chunks|))
    requires forall k :: 0 <= k < |chunks| ==> each(k) == Tally(table, chunks[k], plan)
    ensures Gather(each, order) == Tally(table, ids, plan)
  {
    GatherPermutes(each, order, UpTo(|chunks|));
    GatherFlatten(EntriesOn(table, plan), each, chunks, |chunks|);
    ChunksPartition(ids, size, 0);
    assert chunks[..|chunks|] == chunks && ids[0..] == ids;
  }
}
