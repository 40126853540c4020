/** The mystery-challenge lifecycle: scheduled, active, frozen, revealed, moved
    along by the daily announce batch. */
module MysteryLifecycle {
  import opened Common

  type Id = int

  datatype Status = Scheduled | Active | Frozen | Revealed

  datatype Challenge = Challenge(status: Status, startsAt: int, endsAt: int)

  type Table = map<Id, Challenge>

  // ── The two steps that move challenges ─────────────────────────────────────

  predicate Eligible(t: Table, now: int, i: Id) {
    i in t && t[i].status == Scheduled && t[i].startsAt <= now
  }

  /** `pick` is the sub-select's answer: an earliest eligible challenge, if any. */
  predicate IsNext(t: Table, now: int, pick: Option<Id>) {
    if pick == None then forall i :: i in t ==> !Eligible(t, now, i)
    else
      && Eligible(t, now, pick.value)
      && forall i :: i in t && Eligible(t, now, i) ==> t[pick.value].startsAt <= t[i].startsAt
  }

  predicate HasActive(t: Table) {
    exists i :: i in t && t[i].status == Active
  }

  function ActivateNext(t: Table, pick: Option<Id>): Table {
    if pick.Some? && pick.value in t && !HasActive(t)
    then t[pick.value := t[pick.value].(status := Active)]
    else t
  }

  function Advanced(c: Challenge, now: int): Challenge {
    if c.status == Active && c.endsAt <= now then c.(status := Frozen)
    else if c.status == Frozen && c.endsAt <= now - DAY then c.(status := Revealed)
    else c
  }

  function FreezeAndReveal(t: Table, now: int): Table {
    map i | i in t :: Advanced(t[i], now)
  }

  /** The step freezes a challenge exactly when it is active and over, reveals it
      exactly when it is frozen and over for a day, and changes nothing else. */
  lemma FreezeMoves(t: Table, now: int, i: Id)
    ensures var t' := FreezeAndReveal(t, now);
      && (i in t' <==> i in t)
      && (i in t ==>
            && t'[i].startsAt == t[i].startsAt && t'[i].endsAt == t[i].endsAt
            && (t'[i].status == Frozen && t[i].status != Frozen <==> t[i].status == Active && t[i].endsAt <= now)
            && (t'[i].status == Revealed && t[i].status != Revealed <==>
                  t[i].status == Frozen && t[i].endsAt <= now - DAY)
            && (t'[i].status == Active ==> t[i].status == Active)
            && (t'[i].status == Scheduled <==> t[i].status == Scheduled))
  {
  }

  // ── Repeating a step at one instant ────────────────────────────────────────

  /** The step is described as idempotent. It is, exactly when no challenge is
      still active more than a day after its end: such a challenge would be
      frozen by the first application and revealed by the second. */
  lemma FreezeIdempotentIff(t: Table, now: int)
    ensures FreezeAndReveal(FreezeAndReveal(t, now), now) == FreezeAndReveal(t, now) <==>
      forall i :: i in t ==> !(t[i].status == Active && t[i].endsAt <= now - DAY)
  {
    var once := FreezeAndReveal(t, now);
    var twice := FreezeAndReveal(once, now);
    if i :| i in t && t[i].status == Active && t[i].endsAt <= now - DAY {
      assert once[i].status == Frozen && twice[i].status == Revealed;
    } else {
      assert forall i :: i in t ==> twice[i] == once[i];
    }
  }

  /** Two applications always settle it. */
  lemma FreezeSettlesInTwo(t: Table, now: int)
    ensures var twice := FreezeAndReveal(FreezeAndReveal(t, now), now);
      FreezeAndReveal(twice, now) == twice
  {
    var twice := FreezeAndReveal(FreezeAndReveal(t, now), now);
    assert forall i :: i in t ==> FreezeAndReveal(twice, now)[i] == twice[i];
  }

  // ── Runs ───────────────────────────────────────────────────────────────────

  /** A challenge is scheduled, or the batch runs; either of the batch's steps
      may fail, which leaves the table as it was. */
  datatype Op =
    | Schedule(id: Id, startsAt: int, endsAt: int)
    | Announce(activateAt: int, freezeAt: int, pick: Option<Id>, activateFails: bool, freezeFails: bool)

  function Apply(t: Table, op: Op): Table {
    match op
    case Schedule(id, startsAt, endsAt) => if id in t then t else t[id := Challenge(Scheduled, startsAt, endsAt)]
    case Announce(_, freezeAt, pick, activateFails, freezeFails) =>
      var activated := if activateFails then t else ActivateNext(t, pick);
      if freezeFails then activated else FreezeAndReveal(activated, freezeAt)
  }

  function ApplyAll(t: Table, ops: seq<Op>): Table {
    if ops == [] then t else Apply(ApplyAll(t, ops[..|ops| - 1]), ops[|ops| - 1])
  }

  /** Every pick is what its sub-select returns at that point. */
  ghost predicate Possible(t: Table, ops: seq<Op>) {
    forall i :: 0 <= i < |ops| && ops[i].Announce? ==> IsNext(ApplyAll(t, ops[..i]), ops[i].activateAt, ops[i].pick)
  }

  ghost predicate AtMostOneActive(t: Table) {
    forall i, j :: i in t && j in t && t[i].status == Active && t[j].status == Active ==> i == j
  }

  function Rank(s: Status): nat {
    match s
    case Scheduled => 0
    case Active => 1
    case Frozen => 2
    case Revealed => 3
  }

  /** Activation only ever makes one scheduled challenge active, and only when
      none is. */
  lemma ActivateMoves(t: Table, now: int, pick: Option<Id>)
    requires AtMostOneActive(t) && IsNext(t, now, pick)
    ensures AtMostOneActive(ActivateNext(t, pick)) && ActivateNext(t, pick).Keys == t.Keys
    ensures forall i :: i in t ==>
      || ActivateNext(t, pick)[i] == t[i]
      || (Eligible(t, now, i) && !HasActive(t) && ActivateNext(t, pick)[i] == t[i].(status := Active))
  {
  }

  lemma FreezeKeepsOne(t: Table, now: int)
    requires AtMostOneActive(t)
    ensures AtMostOneActive(FreezeAndReveal(t, now))
  {
  }

  lemma StepKeepsOne(t: Table, op: Op)
    requires AtMostOneActive(t) && (op.Announce? ==> IsNext(t, op.activateAt, op.pick))
    ensures AtMostOneActive(Apply(t, op))
  {
    if op.Announce? {
      ActivateMoves(t, op.activateAt, op.pick);
      FreezeKeepsOne(if op.activateFails then t else ActivateNext(t, op.pick), op.freezeAt);
    }
  }

  /** One operation on one challenge: its status does not move back, its dates
      do not change, it leaves `scheduled` only on its start and when none is
      active, and it is revealed only if it was frozen beforehand and ended a
      day ago. */
  lemma StepMovesForward(t: Table, op: Op, i: Id)
    requires AtMostOneActive(t) && (op.Announce? ==> IsNext(t, op.activateAt, op.pick))
    ensures i in t ==> i in Apply(t, op) && Forward(t[i], Apply(t, op)[i])
    ensures i in t && t[i].status == Scheduled && Apply(t, op)[i].status != Scheduled ==>
      op.Announce? && t[i].startsAt <= op.activateAt && !HasActive(t)
    ensures i in t && t[i].status != Revealed && Apply(t, op)[i].status == Revealed ==>
      op.Announce? && t[i].status == Frozen && t[i].endsAt <= op.freezeAt - DAY
    ensures i in Apply(t, op) && i !in t ==> Apply(t, op)[i].status == Scheduled
  {
    if op.Announce? {
      ActivateMoves(t, op.activateAt, op.pick);
    }
  }

  /** No step back and no change of dates. */
  predicate Forward(c: Challenge, c': Challenge) {
    Rank(c.status) <= Rank(c'.status) && c'.startsAt == c.startsAt && c'.endsAt == c.endsAt
  }

  lemma PossiblePrefix(t: Table, ops: seq<Op>, n: nat)
    requires Possible(t, ops) && n <= |ops|
    ensures Possible(t, ops[..n])
  {
    forall i | 0 <= i < n && ops[..n][i].Announce?
      ensures IsNext(ApplyAll(t, ops[..n][..i]), ops[i].activateAt, ops[i].pick)
    {
      assert ops[..n][..i] == ops[..i];
    }
  }

  /** In every reachable table at most one challenge is active. */
  lemma {:induction false} OneActiveThroughout(t: Table, ops: seq<Op>)
    requires AtMostOneActive(t) && Possible(t, ops)
    ensures AtMostOneActive(ApplyAll(t, ops))
  {
    if ops != [] {
      var n := |ops| - 1;
      PossiblePrefix(t, ops, n);
      OneActiveThroughout(t, ops[..n]);
      StepKeepsOne(ApplyAll(t, ops[..n]), ops[n]);
    }
  }

  /** Over any run, statuses only move forward and dates never change. */
  lemma {:induction false} StatusesMoveForward(t: Table, ops: seq<Op>, i: Id)
    requires AtMostOneActive(t) && Possible(t, ops) && i in t
    ensures i in ApplyAll(t, ops) && Forward(t[i], ApplyAll(t, ops)[i])
  {
    if ops != [] {
      var n := |ops| - 1;
      PossiblePrefix(t, ops, n);
      StatusesMoveForward(t, ops[..n], i);
      OneActiveThroughout(t, ops[..n]);
      StepMovesForward(ApplyAll(t, ops[..n]), ops[n], i);
    }
  }

  /** No challenge is revealed without having been frozen at the end of an
      earlier operation, so never in the run that freezes it. */
  lemma {:induction false} RevealedOnlyAfterFrozen(t: Table, ops: seq<Op>, i: Id) returns (k: nat)
    requires AtMostOneActive(t) && Possible(t, ops)
    requires i in t ==> t[i].status == Scheduled || t[i].status == Active
    requires i in ApplyAll(t, ops) && ApplyAll(t, ops)[i].status == Revealed
    ensures 0 < k < |ops| && i in ApplyAll(t, ops[..k]) && ApplyAll(t, ops[..k])[i].status == Frozen
  {
    var n := |ops| - 1;
    PossiblePrefix(t, ops, n);
    var before := ApplyAll(t, ops[..n]);
    OneActiveThroughout(t, ops[..n]);
    StepMovesForward(before, ops[n], i);
    if before[i].status == Frozen {
      k := n;
      assert ops[..0] == [];
    } else {
      k := RevealedOnlyAfterFrozen(t, ops[..n], i);
      assert ops[..n][..k] == ops[..k];
    }
  }

  /** A run whose freeze step succeeds leaves no overdue challenge active. */
  lemma NoOverdueActive(t: Table, op: Op, i: Id)
    requires op.Announce? && !op.freezeFails && i in Apply(t, op)
    ensures !(Apply(t, op)[i].status == Active && Apply(t, op)[i].endsAt <= op.freezeAt)
  {
  }

  // ── The table as the batch updates it ──────────────────────────────────────

  class MysteryChallenges {
    var rows: Table

    constructor (t: Table)
      ensures rows == t
    {
      rows := t;
    }

    /** Afterwards no due challenge waits while none is active, and a challenge
        that became active was due, with none due earlier. */
    method ActivateNextChallenge(now: int, pick: Option<Id>)
      requires IsNext(rows, now, pick)
      modifies this
      ensures rows == ActivateNext(old(rows), pick) && rows.Keys == old(rows).Keys
      ensures HasActive(rows) || forall i :: i in rows ==> !Eligible(rows, now, i)
      ensures forall i :: i in rows && rows[i] != old(rows)[i] ==>
        && !HasActive(old(rows)) && Eligible(old(rows), now, i)
        && forall j :: j in rows && Eligible(old(rows), now, j) ==> rows[i].startsAt <= rows[j].startsAt
      ensures old(AtMostOneActive(rows)) ==> AtMostOneActive(rows)
    {
      if pick != None && !HasActive(rows) {
        rows := rows[pick.value := rows[pick.value].(status := Active)];
      }
    }

    /** Afterwards no challenge past its end is active, none has moved back, and
        one newly revealed was frozen before and over for a day. */
    method FreezeAndRevealChallenges(now: int)
      modifies this
      ensures rows == FreezeAndReveal(old(rows), now)
      ensures forall i :: i in rows ==> !(rows[i].status == Active && rows[i].endsAt <= now)
      ensures forall i :: i in old(rows) ==> i in rows && Forward(old(rows)[i], rows[i])
      ensures forall i :: i in rows && rows[i].status == Revealed ==>
        i in old(rows) && (old(rows)[i].status == Revealed ||
                           (old(rows)[i].status == Frozen && rows[i].endsAt <= now - DAY))
    {
      rows := map i | i in rows :: Advanced(rows[i], now);
    }

    /** The batch: each step in its own transaction, a failed one skipped. */
    method Announce(op: Op)
      requires op.Announce? && IsNext(rows, op.activateAt, op.pick)
      modifies this
      ensures rows == Apply(old(rows), op)
      ensures old(AtMostOneActive(rows)) ==> AtMostOneActive(rows)
    {
      if AtMostOneActive(rows) {
        StepKeepsOne(rows, op);
      }
      if !op.activateFails {
        ActivateNextChallenge(op.activateAt, op.pick);
      }
      if !op.freezeFails {
        FreezeAndRevealChallenges(op.freezeAt);
      }
    }
  }
}
