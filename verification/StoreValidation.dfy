/** Phase 3 of the consensus batch: pending stores become confirmed or
    suspicious, each flip leaves an audit row, and a confirmation asks the
    rewards service to credit cashback retroactively. */
module StoreValidation {
  import opened Common

  type Id = int

  datatype Status = Pending | Confirmed | Suspicious

  datatype Store = Store(status: Status, createdAt: int)

  /** A `price_consensus` row, as far as this phase reads it. */
  datatype Quote = Quote(store: Id, ean: string, trust: Option<real>)

  /** A row of `store_validation_history`; its origin is always `pending`. */
  datatype Audit = Audit(store: Id, to: Status, distinctEans: nat, ageDays: Option<int>)

  datatype Stats = Stats(confirmed: nat, suspicious: nat, calls: nat, errors: nat)

  datatype State = State(stores: map<Id, Store>, audit: seq<Audit>, requests: seq<Id>, stats: Stats)

  /** One execution: settings, both clock readings, the price consensus, and the
      stores on which each kind of statement or call fails. */
  datatype Phase = Phase(
    minTrust: int, minEans: int, suspiciousMonths: int, suspiciousThreshold: int,
    cutoffNow: int, ageNow: int,
    quotes: seq<Quote>,
    confirmCountFails: set<Id>, confirmFlipFails: set<Id>, callFails: set<Id>,
    suspectCountFails: set<Id>, suspectFlipFails: set<Id>)
  {
    function Cutoff(): int { cutoffNow - suspiciousMonths * 30 * DAY }
  }

  /** COUNT(DISTINCT product_ean) over the store's sufficiently trusted quotes. */
  function HighTrustEans(p: Phase, id: Id): set<string> {
    set i | 0 <= i < |p.quotes| && p.quotes[i].store == id && p.quotes[i].trust.Some? &&
            p.quotes[i].trust.value >= p.minTrust as real :: p.quotes[i].ean
  }

  function Count(p: Phase, id: Id): nat { |HighTrustEans(p, id)| }

  /** No quote, no count. */
  lemma CountEmpty(p: Phase, id: Id)
    requires p.quotes == []
    ensures Count(p, id) == 0
  {
    assert HighTrustEans(p, id) == {};
  }

  /** One more quote raises a store's count by one exactly when it is that
      store's, carries a score that reaches the minimum, and its EAN is not among
      the store's sufficiently trusted quotes already; otherwise the count stays. */
  lemma CountNext(p: Phase, q: Quote, id: Id)
    ensures var p' := p.(quotes := p.quotes + [q]);
      Count(p', id) == Count(p, id) +
        if && q.store == id && q.trust.Some? && q.trust.value >= p.minTrust as real
           && !exists i :: 0 <= i < |p.quotes| && p.quotes[i].store == id && p.quotes[i].ean == q.ean &&
                p.quotes[i].trust.Some? && p.quotes[i].trust.value >= p.minTrust as real
        then 1 else 0
  {
    EansNext(p, q, id);
  }

  lemma EansNext(p: Phase, q: Quote, id: Id)
    ensures var p' := p.(quotes := p.quotes + [q]);
      HighTrustEans(p', id) == HighTrustEans(p, id) +
        if q.store == id && q.trust.Some? && q.trust.value >= p.minTrust as real then {q.ean} else {}
  {
    var p' := p.(quotes := p.quotes + [q]);
    var n := |p.quotes|;
    assert p'.quotes[n] == q && forall i :: 0 <= i < n ==> p'.quotes[i] == p.quotes[i];
    forall ean | ean in HighTrustEans(p, id)
      ensures ean in HighTrustEans(p', id)
    {
      var i :| 0 <= i < n && p.quotes[i].store == id && p.quotes[i].trust.Some? &&
               p.quotes[i].trust.value >= p.minTrust as real && p.quotes[i].ean == ean;
      assert p'.quotes[i].ean == ean;
    }
  }

  // ── The two sub-phases, store by store ─────────────────────────────────────

  predicate Confirms(p: Phase, id: Id) {
    id !in p.confirmCountFails && Count(p, id) >= p.minEans && id !in p.confirmFlipFails
  }

  predicate ConfirmErrs(p: Phase, id: Id) {
    id in p.confirmCountFails || (Count(p, id) >= p.minEans && id in p.confirmFlipFails)
  }

  predicate Suspects(p: Phase, id: Id) {
    id !in p.suspectCountFails && Count(p, id) < p.suspiciousThreshold && id !in p.suspectFlipFails
  }

  predicate SuspectErrs(p: Phase, id: Id) {
    id in p.suspectCountFails || (Count(p, id) < p.suspiciousThreshold && id in p.suspectFlipFails)
  }

  function Flip(stores: map<Id, Store>, id: Id, to: Status): map<Id, Store> {
    if id in stores && stores[id].status == Pending then stores[id := stores[id].(status := to)] else stores
  }

  function ConfirmOne(s: State, id: Id, p: Phase): State {
    if ConfirmErrs(p, id) then s.(stats := s.stats.(errors := s.stats.errors + 1))
    else if !Confirms(p, id) then s
    else
      var calls := s.stats.calls + if id in p.callFails then 0 else 1;
      State(Flip(s.stores, id, Confirmed), s.audit + [Audit(id, Confirmed, Count(p, id), None)], s.requests + [id],
            s.stats.(confirmed := s.stats.confirmed + 1, calls := calls))
  }

  function SuspectOne(s: State, id: Id, p: Phase): State {
    if SuspectErrs(p, id) then s.(stats := s.stats.(errors := s.stats.errors + 1))
    else if !Suspects(p, id) then s
    else
      var age := if id in s.stores then (p.ageNow - s.stores[id].createdAt) / DAY else 0;
      State(Flip(s.stores, id, Suspicious), s.audit + [Audit(id, Suspicious, Count(p, id), Some(age))], s.requests,
            s.stats.(suspicious := s.stats.suspicious + 1))
  }

  function ConfirmAll(s: State, order: seq<Id>, p: Phase): State {
    if order == [] then s else ConfirmOne(ConfirmAll(s, order[..|order| - 1], p), order[|order| - 1], p)
  }

  function SuspectAll(s: State, order: seq<Id>, p: Phase): State {
    if order == [] then s else SuspectOne(SuspectAll(s, order[..|order| - 1], p), order[|order| - 1], p)
  }

  /** `order` lists the pending stores created before `cutoff`, once each. */
  ghost predicate Lists(order: seq<Id>, stores: map<Id, Store>, cutoff: Option<int>) {
    && Distinct(order)
    && forall id :: id in order <==>
         id in stores && stores[id].status == Pending && (cutoff.Some? ==> stores[id].createdAt < cutoff.value)
  }

  function Fresh(s: State): State { s.(stats := Stats(0, 0, 0, 0)) }

  function RunPhase(s: State, pending: seq<Id>, aged: seq<Id>, p: Phase): State {
    SuspectAll(ConfirmAll(Fresh(s), pending, p), aged, p)
  }

  /** Both listings are what the two SELECTs return when they are executed. */
  ghost predicate Selected(s: State, pending: seq<Id>, aged: seq<Id>, p: Phase) {
    && Lists(pending, s.stores, None)
    && Lists(aged, ConfirmAll(Fresh(s), pending, p).stores, Some(p.Cutoff()))
  }

  // ── What a sub-phase does to one store ─────────────────────────────────────

  /** A store's audit rows, oldest first. */
  function AuditOf(audit: seq<Audit>, id: Id): seq<Audit> {
    if audit == [] then []
    else
      var n := |audit| - 1;
      if audit[n].store == id then AuditOf(audit[..n], id) + [audit[n]] else AuditOf(audit[..n], id)
  }

  /** How often cashback was requested for a store. */
  function RequestsFor(requests: seq<Id>, id: Id): nat {
    if requests == [] then 0
    else RequestsFor(requests[..|requests| - 1], id) + if requests[|requests| - 1] == id then 1 else 0
  }

  lemma AuditAppend(audit: seq<Audit>, row: Audit, id: Id)
    ensures AuditOf(audit + [row], id) == if row.store == id then AuditOf(audit, id) + [row] else AuditOf(audit, id)
  {
    assert (audit + [row])[..|audit|] == audit;
  }

  /** The row's store has it as its newest audit row; no other store's changed. */
  ghost predicate OnlyTrailGrows(audit: seq<Audit>, audit': seq<Audit>, row: Audit) {
    forall x :: AuditOf(audit', x) == if x == row.store then AuditOf(audit, x) + [row] else AuditOf(audit, x)
  }

  lemma TrailGrows(audit: seq<Audit>, row: Audit)
    ensures OnlyTrailGrows(audit, audit + [row], row)
  {
    forall x
      ensures AuditOf(audit + [row], x) == if x == row.store then AuditOf(audit, x) + [row] else AuditOf(audit, x)
    {
      AuditAppend(audit, row, x);
    }
  }

  lemma RequestsAppend(requests: seq<Id>, x: Id, id: Id)
    ensures RequestsFor(requests + [x], id) == RequestsFor(requests, id) + if x == id then 1 else 0
  {
    assert (requests + [x])[..|requests|] == requests;
  }

  /** What confirming store x does to the trail of store id. */
  lemma ConfirmOneOn(s: State, x: Id, p: Phase, id: Id)
    ensures var s' := ConfirmOne(s, x, p);
      && AuditOf(s'.audit, id) ==
           (if x == id && Confirms(p, x) then AuditOf(s.audit, id) + [Confirmation(p, id)] else AuditOf(s.audit, id))
      && RequestsFor(s'.requests, id) == RequestsFor(s.requests, id) + if x == id && Confirms(p, x) then 1 else 0
  {
    AuditAppend(s.audit, Confirmation(p, x), id);
    RequestsAppend(s.requests, x, id);
  }

  function Confirmation(p: Phase, id: Id): Audit {
    Audit(id, Confirmed, Count(p, id), None)
  }

  /** Sub-phase 3.1 and one store's trail: one audit row and one request if it is
      listed and confirmed, and nothing otherwise. */
  lemma {:induction false} ConfirmAllTrail(s: State, order: seq<Id>, p: Phase, id: Id)
    requires Distinct(order)
    ensures var s' := ConfirmAll(s, order, p);
      && AuditOf(s'.audit, id) ==
           (if id in order && Confirms(p, id)
            then AuditOf(s.audit, id) + [Confirmation(p, id)]
            else AuditOf(s.audit, id))
      && RequestsFor(s'.requests, id) == RequestsFor(s.requests, id) + if id in order && Confirms(p, id) then 1 else 0
  {
    if order != [] {
      var n := |order| - 1;
      var rest, last := order[..n], order[n];
      assert order == rest + [last];
      ConfirmAllTrail(s, rest, p, id);
      ConfirmOneOn(ConfirmAll(s, rest, p), last, p, id);
    }
  }

  /** Sub-phase 3.1 and one store's row, and the errors counted for it. */
  lemma {:induction false} ConfirmAllOn(s: State, order: seq<Id>, p: Phase, id: Id)
    requires Distinct(order)
    ensures var s' := ConfirmAll(s, order, p);
      && s'.stores.Keys == s.stores.Keys
      && (id in s.stores ==>
            s'.stores[id] == if id in order && Confirms(p, id) then Flip(s.stores, id, Confirmed)[id] else s.stores[id])
      && s.stats.errors <= s'.stats.errors
      && (id in order && ConfirmErrs(p, id) ==> s.stats.errors < s'.stats.errors)
  {
    if order != [] {
      var n := |order| - 1;
      var rest, last := order[..n], order[n];
      assert order == rest + [last];
      ConfirmAllOn(s, rest, p, id);
    }
  }

  lemma SuspectOneOn(s: State, x: Id, p: Phase, id: Id)
    requires x in s.stores
    ensures var s' := SuspectOne(s, x, p);
      && s'.stores == (if Suspects(p, x) then Flip(s.stores, x, Suspicious) else s.stores)
      && s'.requests == s.requests
      && AuditOf(s'.audit, id) ==
           (if x == id && Suspects(p, x)
            then AuditOf(s.audit, id) + [Suspicion(p, id, s.stores[x].createdAt)]
            else AuditOf(s.audit, id))
      && s'.stats.errors == s.stats.errors + if SuspectErrs(p, x) then 1 else 0
  {
    AuditAppend(s.audit, Suspicion(p, x, s.stores[x].createdAt), id);
  }

  function Suspicion(p: Phase, id: Id, createdAt: int): Audit {
    Audit(id, Suspicious, Count(p, id), Some((p.ageNow - createdAt) / DAY))
  }

  lemma {:induction false} SuspectAllOn(s: State, order: seq<Id>, p: Phase, id: Id)
    requires Distinct(order) && forall x :: x in order ==> x in s.stores
    ensures var s' := SuspectAll(s, order, p);
      && s'.stores.Keys == s.stores.Keys
      && s'.requests == s.requests
      && (id in s.stores ==>
            && s'.stores[id].createdAt == s.stores[id].createdAt
            && s'.stores[id] ==
              if id in order && Suspects(p, id) then Flip(s.stores, id, Suspicious)[id] else s.stores[id])
      && AuditOf(s'.audit, id) ==
           (if id in order && Suspects(p, id)
            then AuditOf(s.audit, id) + [Suspicion(p, id, s.stores[id].createdAt)]
            else AuditOf(s.audit, id))
      && s.stats.errors <= s'.stats.errors
      && (id in order && SuspectErrs(p, id) ==> s.stats.errors < s'.stats.errors)
  {
    if order != [] {
      var n := |order| - 1;
      var rest, last := order[..n], order[n];
      assert order == rest + [last];
      SuspectAllOn(s, rest, p, id);
      if last != id {
        SuspectAllOn(s, rest, p, last);
      }
      SuspectOneOn(SuspectAll(s, rest, p), last, p, id);
    }
  }

  // ── Whole phases ───────────────────────────────────────────────────────────

  /** The status one phase leaves a store of this row in. */
  function Decided(p: Phase, id: Id, store: Store): Status {
    if store.status != Pending then store.status
    else if Confirms(p, id) then Confirmed
    else if store.createdAt < p.Cutoff() && Suspects(p, id) then Suspicious
    else Pending
  }

  /** The audit row that belongs to a status reached by leaving pending. */
  function Transition(p: Phase, id: Id, store: Store, to: Status): Audit {
    if to == Confirmed then Confirmation(p, id) else Suspicion(p, id, store.createdAt)
  }

  /** What one phase does to one store, whatever fails: its status is decided by
      the thresholds; leaving pending adds exactly the audit row of that
      transition, and a confirmation exactly one request; a store that stays as
      it was gains neither. */
  lemma PhaseOn(s: State, pending: seq<Id>, aged: seq<Id>, p: Phase, id: Id)
    requires Selected(s, pending, aged, p)
    ensures var s' := RunPhase(s, pending, aged, p);
      && s'.stores.Keys == s.stores.Keys
      && (id in s.stores ==> s'.stores[id] == s.stores[id].(status := Decided(p, id, s.stores[id])))
      && (if id in s.stores && s'.stores[id].status != s.stores[id].status
          then AuditOf(s'.audit, id) == AuditOf(s.audit, id) + [Transition(p, id, s.stores[id], s'.stores[id].status)]
          else AuditOf(s'.audit, id) == AuditOf(s.audit, id))
      && RequestsFor(s'.requests, id) == RequestsFor(s.requests, id) +
           if id in s.stores && s'.stores[id].status == Confirmed != s.stores[id].status then 1 else 0
  {
    var m := ConfirmAll(Fresh(s), pending, p);
    ConfirmAllOn(Fresh(s), pending, p, id);
    ConfirmAllTrail(Fresh(s), pending, p, id);
    SuspectAllOn(m, aged, p, id);
  }

  /** After an error-free phase every store still pending is under the confirm
      threshold, and is either recent or at or above the suspicious threshold. */
  lemma CleanPhaseLeaves(s: State, pending: seq<Id>, aged: seq<Id>, p: Phase, id: Id)
    requires Selected(s, pending, aged, p)
    requires RunPhase(s, pending, aged, p).stats.errors == 0
    requires id in RunPhase(s, pending, aged, p).stores
    requires RunPhase(s, pending, aged, p).stores[id].status == Pending
    ensures id in s.stores && Count(p, id) < p.minEans
    ensures s.stores[id].createdAt >= p.Cutoff() || Count(p, id) >= p.suspiciousThreshold
  {
    var m := ConfirmAll(Fresh(s), pending, p);
    PhaseOn(s, pending, aged, p, id);
    ConfirmAllOn(Fresh(s), pending, p, id);
    SuspectAllOn(m, aged, p, id);
  }

  /** What a phase decides about a pending store, in the settings' own terms, and
      what it writes about it. */
  lemma PhaseDecides(s: State, pending: seq<Id>, aged: seq<Id>, p: Phase, id: Id)
    requires Selected(s, pending, aged, p) && id in s.stores && s.stores[id].status == Pending
    ensures var s', n := RunPhase(s, pending, aged, p), Count(p, id);
      && id in s'.stores && s'.stores[id].createdAt == s.stores[id].createdAt
      && (s'.stores[id].status == Confirmed <==>
            n >= p.minEans && id !in p.confirmCountFails && id !in p.confirmFlipFails)
      && (s'.stores[id].status == Suspicious <==>
            && s'.stores[id].status != Confirmed
            && s.stores[id].createdAt < p.cutoffNow - p.suspiciousMonths * 30 * DAY
            && n < p.suspiciousThreshold && id !in p.suspectCountFails && id !in p.suspectFlipFails)
      && (s'.stores[id].status == Confirmed ==>
            AuditOf(s'.audit, id) == AuditOf(s.audit, id) + [Audit(id, Confirmed, n, None)])
      && (s'.stores[id].status == Suspicious ==> forall days ::
            days * DAY <= p.ageNow - s.stores[id].createdAt < (days + 1) * DAY ==>
              AuditOf(s'.audit, id) == AuditOf(s.audit, id) + [Audit(id, Suspicious, n, Some(days))])
  {
    PhaseOn(s, pending, aged, p, id);
    forall days | days * DAY <= p.ageNow - s.stores[id].createdAt < (days + 1) * DAY
      ensures (p.ageNow - s.stores[id].createdAt) / DAY == days
    {
    }
  }

  /** The counters say what happened: one audit row per flip, one request per
      confirmation, and no more successful calls than requests. */
  lemma {:induction false} ConfirmBalances(s: State, order: seq<Id>, p: Phase)
    ensures var s' := ConfirmAll(s, order, p);
      && |s'.audit| - |s.audit| == s'.stats.confirmed - s.stats.confirmed == |s'.requests| - |s.requests|
      && 0 <= s'.stats.calls - s.stats.calls <= s'.stats.confirmed - s.stats.confirmed
      && s'.stats.suspicious == s.stats.suspicious
  {
    if order != [] {
      ConfirmBalances(s, order[..|order| - 1], p);
    }
  }

  lemma {:induction false} SuspectBalances(s: State, order: seq<Id>, p: Phase)
    ensures var s' := SuspectAll(s, order, p);
      && |s'.audit| - |s.audit| == s'.stats.suspicious - s.stats.suspicious
      && s'.stats.confirmed == s.stats.confirmed && s'.stats.calls == s.stats.calls && s'.requests == s.requests
  {
    if order != [] {
      SuspectBalances(s, order[..|order| - 1], p);
    }
  }

  lemma PhaseBalances(s: State, pending: seq<Id>, aged: seq<Id>, p: Phase)
    ensures var s' := RunPhase(s, pending, aged, p);
      && |s'.audit| == |s.audit| + s'.stats.confirmed + s'.stats.suspicious
      && |s'.requests| == |s.requests| + s'.stats.confirmed
      && s'.stats.calls <= s'.stats.confirmed
  {
    ConfirmBalances(Fresh(s), pending, p);
    SuspectBalances(ConfirmAll(Fresh(s), pending, p), aged, p);
  }

  /** The listed stores that pass a test. */
  ghost function Where(order: seq<Id>, test: Id -> bool): set<Id> {
    set id | id in order && test(id)
  }

  lemma WhereSnoc(order: seq<Id>, test: Id -> bool)
    requires order != [] && Distinct(order)
    ensures var n := |order| - 1;
      |Where(order, test)| == |Where(order[..n], test)| + if test(order[n]) then 1 else 0
  {
    var n := |order| - 1;
    var rest, last := order[..n], order[n];
    assert order == rest + [last] && last !in rest;
    assert Where(order, test) == if test(last) then Where(rest, test) + {last} else Where(rest, test);
  }

  ghost function ConfirmTest(p: Phase): Id -> bool { id => Confirms(p, id) }
  ghost function CallTest(p: Phase): Id -> bool { id => Confirms(p, id) && id !in p.callFails }
  ghost function ConfirmErrTest(p: Phase): Id -> bool { id => ConfirmErrs(p, id) }
  ghost function SuspectTest(p: Phase): Id -> bool { id => Suspects(p, id) }
  ghost function SuspectErrTest(p: Phase): Id -> bool { id => SuspectErrs(p, id) }

  lemma {:induction false} ConfirmCounters(s: State, order: seq<Id>, p: Phase)
    requires Distinct(order)
    ensures ConfirmAll(s, order, p).stats == Stats(
      s.stats.confirmed + |Where(order, ConfirmTest(p))|, s.stats.suspicious,
      s.stats.calls + |Where(order, CallTest(p))|, s.stats.errors + |Where(order, ConfirmErrTest(p))|)
  {
    if order != [] {
      ConfirmCounters(s, order[..|order| - 1], p);
      WhereSnoc(order, ConfirmTest(p));
      WhereSnoc(order, CallTest(p));
      WhereSnoc(order, ConfirmErrTest(p));
    }
  }

  lemma {:induction false} SuspectCounters(s: State, order: seq<Id>, p: Phase)
    requires Distinct(order)
    ensures SuspectAll(s, order, p).stats == Stats(
      s.stats.confirmed, s.stats.suspicious + |Where(order, SuspectTest(p))|,
      s.stats.calls, s.stats.errors + |Where(order, SuspectErrTest(p))|)
  {
    if order != [] {
      SuspectCounters(s, order[..|order| - 1], p);
      WhereSnoc(order, SuspectTest(p));
      WhereSnoc(order, SuspectErrTest(p));
    }
  }

  /** The counters of a phase: stores confirmed, stores suspected, cashback calls
      that went through, and failed counts or flips, each counted once. */
  lemma PhaseCounters(s: State, pending: seq<Id>, aged: seq<Id>, p: Phase)
    requires Distinct(pending) && Distinct(aged)
    ensures RunPhase(s, pending, aged, p).stats == Stats(
      |Where(pending, ConfirmTest(p))|, |Where(aged, SuspectTest(p))|, |Where(pending, CallTest(p))|,
      |Where(pending, ConfirmErrTest(p))| + |Where(aged, SuspectErrTest(p))|)
  {
    ConfirmCounters(Fresh(s), pending, p);
    SuspectCounters(ConfirmAll(Fresh(s), pending, p), aged, p);
  }

  /** An error is a count that failed, or a threshold met whose flip failed. */
  lemma ErrsIff(p: Phase, id: Id)
    ensures ConfirmErrs(p, id) <==>
      id in p.confirmCountFails || (!Confirms(p, id) && Count(p, id) >= p.minEans)
    ensures SuspectErrs(p, id) <==>
      id in p.suspectCountFails || (!Suspects(p, id) && Count(p, id) < p.suspiciousThreshold)
  {
  }

  // ── Runs ───────────────────────────────────────────────────────────────────

  /** A store is created, or the phase runs. */
  datatype Op = Create(id: Id, store: Store) | Execute(pending: seq<Id>, aged: seq<Id>, phase: Phase)

  function Apply(s: State, op: Op): State {
    match op
    case Create(id, store) => if id in s.stores then s else s.(stores := s.stores[id := store])
    case Execute(pending, aged, p) => RunPhase(s, pending, aged, p)
  }

  function ApplyAll(s: State, ops: seq<Op>): State {
    if ops == [] then s else Apply(ApplyAll(s, ops[..|ops| - 1]), ops[|ops| - 1])
  }

  /** Every execution works on what its SELECTs return at that point. */
  ghost predicate Possible(s: State, ops: seq<Op>) {
    forall i :: 0 <= i < |ops| && ops[i].Execute? ==>
      Selected(ApplyAll(s, ops[..i]), ops[i].pending, ops[i].aged, ops[i].phase)
  }

  lemma PossiblePrefix(s: State, ops: seq<Op>, n: nat)
    requires Possible(s, ops) && n <= |ops|
    ensures Possible(s, ops[..n])
  {
    forall i | 0 <= i < n && ops[..n][i].Execute?
      ensures Selected(ApplyAll(s, ops[..n][..i]), ops[i].pending, ops[i].aged, ops[i].phase)
    {
      assert ops[..n][..i] == ops[..i];
    }
  }

  /** The status a store had at the start or was created with, if it exists. */
  function Entered(s: State, ops: seq<Op>, id: Id): Option<Status> {
    if ops == [] then if id in s.stores then Some(s.stores[id].status) else None
    else
      var n := |ops| - 1;
      var before := Entered(s, ops[..n], id);
      if before == None && ops[n].Create? && ops[n].id == id then Some(ops[n].store.status) else before
  }

  /** From s to s', a store that entered with the given status: if it has left
      pending since, it gained one audit row, of its present status, and one
      request exactly if that is confirmed; otherwise it has the status it
      entered with and gained nothing. */
  ghost predicate Explained(s: State, s': State, id: Id, entered: Option<Status>) {
    var trail, trail' := AuditOf(s.audit, id), AuditOf(s'.audit, id);
    var requests, requests' := RequestsFor(s.requests, id), RequestsFor(s'.requests, id);
    && (id in s'.stores <==> entered.Some?)
    && if id in s'.stores && s'.stores[id].status != entered.value then
         && entered == Some(Pending)
         && |trail'| == |trail| + 1 && trail' == trail + [trail'[|trail|]]
         && trail'[|trail|].store == id && trail'[|trail|].to == s'.stores[id].status
         && requests' == requests + if s'.stores[id].status == Confirmed then 1 else 0
       else trail' == trail && requests' == requests
  }

  /** One more operation. */
  lemma ExplainedStep(s: State, m: State, op: Op, id: Id, entered: Option<Status>, entered': Option<Status>)
    requires Explained(s, m, id, entered)
    requires entered' == if entered == None && op.Create? && op.id == id then Some(op.store.status) else entered
    requires op.Execute? ==> Selected(m, op.pending, op.aged, op.phase)
    ensures Explained(s, Apply(m, op), id, entered')
  {
    if op.Execute? {
      PhaseOn(m, op.pending, op.aged, op.phase, id);
    }
  }

  /** With this batch as the only writer, over any number of runs and from any
      state: a store's new audit rows are exactly its one transition out of
      pending, if it made one, and cashback is requested once for a store that
      became confirmed and never for another. */
  lemma {:induction false} EveryTrailExplained(s: State, ops: seq<Op>, id: Id)
    requires Possible(s, ops)
    ensures Explained(s, ApplyAll(s, ops), id, Entered(s, ops, id))
  {
    if ops != [] {
      var n := |ops| - 1;
      PossiblePrefix(s, ops, n);
      EveryTrailExplained(s, ops[..n], id);
      ExplainedStep(s, ApplyAll(s, ops[..n]), ops[n], id, Entered(s, ops[..n], id), Entered(s, ops, id));
    }
  }

  ghost predicate NoTrail(s: State, id: Id) {
    AuditOf(s.audit, id) == [] && RequestsFor(s.requests, id) == 0
  }

  /** A pending store has no trail; any other has the one audit row of its
      status, and one request exactly if it is confirmed. */
  ghost predicate Exact(s: State, id: Id)
    requires id in s.stores
  {
    var trail, status := AuditOf(s.audit, id), s.stores[id].status;
    if status == Pending then NoTrail(s, id)
    else |trail| == 1 && trail[0].to == status && RequestsFor(s.requests, id) == if status == Confirmed then 1 else 0
  }

  /** Exactness is kept by every run, and every store that is created pending
      during the run has an exact trail at its end. */
  lemma EveryTrailExact(s: State, ops: seq<Op>, id: Id)
    requires Possible(s, ops)
    requires if id in s.stores then Exact(s, id) else NoTrail(s, id)
    ensures var s' := ApplyAll(s, ops);
      && (id in s'.stores <==> Entered(s, ops, id).Some?)
      && (id in s'.stores && (id in s.stores || Entered(s, ops, id) == Some(Pending)) ==> Exact(s', id))
  {
    EveryTrailExplained(s, ops, id);
    if id in s.stores {
      EnteredAtStart(s, ops, id);
    }
  }

  lemma {:induction false} EnteredAtStart(s: State, ops: seq<Op>, id: Id)
    requires id in s.stores
    ensures Entered(s, ops, id) == Some(s.stores[id].status)
  {
    if ops != [] {
      EnteredAtStart(s, ops[..|ops| - 1], id);
    }
  }

  /** A store that has left pending keeps its status, audit rows and requests. */
  lemma {:induction false} DecisionIsFinal(s: State, ops: seq<Op>, id: Id)
    requires Possible(s, ops) && id in s.stores && s.stores[id].status != Pending
    ensures var s' := ApplyAll(s, ops);
      && id in s'.stores && s'.stores[id] == s.stores[id]
      && AuditOf(s'.audit, id) == AuditOf(s.audit, id)
      && RequestsFor(s'.requests, id) == RequestsFor(s.requests, id)
  {
    if ops != [] {
      var n := |ops| - 1;
      PossiblePrefix(s, ops, n);
      DecisionIsFinal(s, ops[..n], id);
      var m, op := ApplyAll(s, ops[..n]), ops[n];
      if op.Execute? {
        PhaseOn(m, op.pending, op.aged, op.phase, id);
      }
    }
  }

  // ── The phase as the batch runs it ─────────────────────────────────────────

  class ValidationPhase {
    var stores: map<Id, Store>
    var audit: seq<Audit>
    var requests: seq<Id>
    var stats: Stats

    function Snapshot(): State
      reads this
    {
      State(stores, audit, requests, stats)
    }

    constructor (s: State)
      ensures Snapshot() == s
    {
      stores, audit, requests, stats := s.stores, s.audit, s.requests, s.stats;
    }

    /** A flip ends the store's pending state for good and adds one row to its
        trail; a store already decided keeps its decision, and no other store
        or trail is touched. */
    method FlipTo(id: Id, to: Status, eans: nat, age: Option<int>)
      requires to != Pending
      modifies this`stores, this`audit
      ensures stores == Flip(old(stores), id, to) && audit == old(audit) + [Audit(id, to, eans, age)]
      ensures stores.Keys == old(stores).Keys
      ensures id in stores ==>
        stores[id].status == if old(stores)[id].status == Pending then to else old(stores)[id].status
      ensures OnlyTrailGrows(old(audit), audit, Audit(id, to, eans, age))
      ensures forall x :: x != id && x in stores ==> stores[x] == old(stores)[x]
    {
      TrailGrows(audit, Audit(id, to, eans, age));
      if id in stores && stores[id].status == Pending {
        stores := stores[id := stores[id].(status := to)];
      }
      audit := audit + [Audit(id, to, eans, age)];
    }

    method Run(pending: seq<Id>, aged: seq<Id>, p: Phase)
      modifies this
      ensures Snapshot() == RunPhase(old(Snapshot()), pending, aged, p)
    {
      stats := Stats(0, 0, 0, 0);
      ghost var start := Snapshot();
      for i := 0 to |pending|
        invariant Snapshot() == ConfirmAll(start, pending[..i], p)
      {
        assert pending[..i + 1][..i] == pending[..i];
        ConfirmStore(pending[i], p);
      }
      assert pending[..|pending|] == pending;
      ghost var middle := Snapshot();
      for i := 0 to |aged|
        invariant Snapshot() == SuspectAll(middle, aged[..i], p)
      {
        assert aged[..i + 1][..i] == aged[..i];
        SuspectStore(aged[i], p);
      }
      assert aged[..|aged|] == aged;
    }

    method ConfirmStore(id: Id, p: Phase)
      modifies this
      ensures Snapshot() == ConfirmOne(old(Snapshot()), id, p)
    {
      if id in p.confirmCountFails {
        stats := stats.(errors := stats.errors + 1);
        return;
      }
      var eans := Count(p, id);
      if eans < p.minEans {
        return;
      }
      if id in p.confirmFlipFails {
        stats := stats.(errors := stats.errors + 1);
        return;
      }
      assert Confirms(p, id) && !ConfirmErrs(p, id);
      FlipTo(id, Confirmed, eans, None);
      stats := stats.(confirmed := stats.confirmed + 1);
      requests := requests + [id];
      if id !in p.callFails {
        stats := stats.(calls := stats.calls + 1);
      }
    }

    method SuspectStore(id: Id, p: Phase)
      modifies this
      ensures Snapshot() == SuspectOne(old(Snapshot()), id, p)
    {
      if id in p.suspectCountFails {
        stats := stats.(errors := stats.errors + 1);
        return;
      }
      var eans := Count(p, id);
      if eans >= p.suspiciousThreshold {
        return;
      }
      var age := if id in stores then (p.ageNow - stores[id].createdAt) / DAY else 0;
      if id in p.suspectFlipFails {
        stats := stats.(errors := stats.errors + 1);
        return;
      }
      FlipTo(id, Suspicious, eans, Some(age));
      stats := stats.(suspicious := stats.suspicious + 1);
    }
  }
}
