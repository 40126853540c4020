/** The promo-code counter: two triggers on `subscriptions` call one function
    that increments `discount_campaigns.uses_count` on entry into `active`. */
module PromoCounter {
  import opened Common

  type Id = int
  type Code = string

  datatype Campaign = Campaign(uses: int, maxUses: Option<int>, validFrom: Option<int>, validUntil: Option<int>)

  datatype Status = Pending | Active | Cancelled | Expired

  datatype Subscription = Subscription(user: int, status: Status, code: Option<Code>)

  type Campaigns = map<Code, Campaign>
  type Subscriptions = map<Id, Subscription>

  datatype State = State(campaigns: Campaigns, subs: Subscriptions)

  /** The WHERE clause of the increment. */
  predicate Usable(c: Campaign, now: int) {
    && (c.maxUses.Some? ==> c.uses < c.maxUses.value)
    && (c.validFrom.Some? ==> c.validFrom.value <= now)
    && (c.validUntil.Some? ==> now <= c.validUntil.value)
  }

  /** The trigger function; None stands for the exception it raises. */
  function Fire(campaigns: Campaigns, was: Option<Subscription>, row: Subscription, now: int): Option<Campaigns> {
    if row.status != Active then Some(campaigns)
    else if was.Some? && was.value.status == Active then Some(campaigns)
    else if row.code == None then Some(campaigns)
    else
      var code := row.code.value;
      if code in campaigns && Usable(campaigns[code], now)
      then Some(campaigns[code := campaigns[code].(uses := campaigns[code].uses + 1)])
      else None
  }

  /** The partial unique indexes, and the foreign key to the campaigns. */
  predicate Admissible(campaigns: Campaigns, subs: Subscriptions) {
    && (forall i, j :: i in subs && j in subs && i != j && subs[i].status == Active && subs[j].status == Active ==>
          subs[i].user != subs[j].user)
    && (forall i, j :: i in subs && j in subs && i != j && subs[i].status == Pending && subs[j].status == Pending ==>
          subs[i].user != subs[j].user)
    && (forall i :: i in subs && subs[i].code.Some? ==> subs[i].code.value in campaigns)
  }

  datatype Op = Insert(id: Id, sub: Subscription, now: int) | Update(id: Id, sub: Subscription, now: int)

  /** The statement's effect; None when it raises or touches no row. */
  function Execute(s: State, op: Op): Option<State> {
    match op
    case Insert(id, sub, now) =>
      if id in s.subs then None
      else
        var before := Fire(s.campaigns, None, sub, now);
        if before == None || !Admissible(before.value, s.subs[id := sub]) then None
        else
          var after := Fire(before.value, None, sub, now);
          if after == None then None else Some(State(after.value, s.subs[id := sub]))
    case Update(id, sub, now) =>
      if id !in s.subs then None
      else
        var before := Fire(s.campaigns, Some(s.subs[id]), sub, now);
        if before == None || !Admissible(before.value, s.subs[id := sub]) then None
        else Some(State(before.value, s.subs[id := sub]))
  }

  function Apply(s: State, op: Op): State {
    var r := Execute(s, op);
    if r == None then s else r.value
  }

  function ApplyAll(s: State, ops: seq<Op>): State {
    if ops == [] then s else Apply(ApplyAll(s, ops[..|ops| - 1]), ops[|ops| - 1])
  }

  // ── Accounting ─────────────────────────────────────────────────────────────

  function Uses(s: State, code: Code): int {
    if code in s.campaigns then s.campaigns[code].uses else 0
  }

  /** An accepted UPDATE takes the subscription into `active` with this code. */
  predicate Enters(s: State, op: Op, code: Code) {
    && op.Update? && Execute(s, op).Some?
    && op.sub.status == Active && op.sub.code == Some(code) && s.subs[op.id].status != Active
  }

  /** An accepted INSERT creates the subscription already `active` with this code. */
  predicate BornActive(s: State, op: Op, code: Code) {
    op.Insert? && Execute(s, op).Some? && op.sub.status == Active && op.sub.code == Some(code)
  }

  function EntryCount(s: State, ops: seq<Op>, code: Code): nat {
    if ops == [] then 0
    else
      var n := |ops| - 1;
      EntryCount(s, ops[..n], code) + if Enters(ApplyAll(s, ops[..n]), ops[n], code) then 1 else 0
  }

  function BornActiveCount(s: State, ops: seq<Op>, code: Code): nat {
    if ops == [] then 0
    else
      var n := |ops| - 1;
      BornActiveCount(s, ops[..n], code) + if BornActive(ApplyAll(s, ops[..n]), ops[n], code) then 1 else 0
  }

  ghost predicate WithinMax(s: State) {
    forall code :: code in s.campaigns && s.campaigns[code].maxUses.Some? ==>
      s.campaigns[code].uses <= s.campaigns[code].maxUses.value
  }

  /** One statement: an entry into active is one use, a direct active insert is
      two because both triggers fire on it, and anything else is none. */
  lemma StepCounts(s: State, op: Op, code: Code)
    requires WithinMax(s)
    ensures WithinMax(Apply(s, op)) && Apply(s, op).campaigns.Keys == s.campaigns.Keys
    ensures Uses(Apply(s, op), code) == Uses(s, code) +
      (if Enters(s, op, code) then 1 else 0) + (if BornActive(s, op, code) then 2 else 0)
  {
  }

  /** Over any run, no campaign exceeds its maximum, and its counter has grown by
      one per entry into active plus two per subscription inserted active. */
  lemma {:induction false} UsesConserved(s: State, ops: seq<Op>, code: Code)
    requires WithinMax(s)
    ensures WithinMax(ApplyAll(s, ops)) && ApplyAll(s, ops).campaigns.Keys == s.campaigns.Keys
    ensures Uses(ApplyAll(s, ops), code) == Uses(s, code) + EntryCount(s, ops, code) + 2 * BornActiveCount(s, ops, code)
  {
    if ops != [] {
      var n := |ops| - 1;
      UsesConserved(s, ops[..n], code);
      StepCounts(ApplyAll(s, ops[..n]), ops[n], code);
    }
  }

  /** If subscriptions are only ever created in another status, the counter has
      grown by exactly the number of entries into active. */
  lemma {:induction false} OneUsePerEntry(s: State, ops: seq<Op>, code: Code)
    requires WithinMax(s)
    requires forall i :: 0 <= i < |ops| && ops[i].Insert? ==> ops[i].sub.status != Active
    ensures Uses(ApplyAll(s, ops), code) == Uses(s, code) + EntryCount(s, ops, code)
  {
    if ops != [] {
      var n := |ops| - 1;
      OneUsePerEntry(s, ops[..n], code);
      UsesConserved(s, ops[..n], code);
      StepCounts(ApplyAll(s, ops[..n]), ops[n], code);
    }
  }

  /** A direct active insert needs room for two uses. */
  lemma BornActiveIff(s: State, id: Id, sub: Subscription, now: int)
    requires id !in s.subs && sub.status == Active && sub.code.Some? && sub.code.value in s.campaigns
    requires Admissible(s.campaigns, s.subs[id := sub])
    ensures var c := s.campaigns[sub.code.value];
      Execute(s, Insert(id, sub, now)).Some? <==>
        Usable(c, now) && (c.maxUses.Some? ==> c.uses + 2 <= c.maxUses.value)
  {
    var before := Fire(s.campaigns, None, sub, now);
    if before.Some? {
      assert before.value.Keys == s.campaigns.Keys;
      assert Admissible(before.value, s.subs[id := sub]);
    }
  }

  /** So the last use of a code can be redeemed through `pending` and never
      directly; afterwards the code is exhausted. */
  lemma LastUseOnlyThroughPending(s: State, id: Id, sub: Subscription, now: int)
    requires id !in s.subs && sub.status == Pending && sub.code.Some? && sub.code.value in s.campaigns
    requires Admissible(s.campaigns, s.subs[id := sub]) && Admissible(s.campaigns, s.subs[id := sub.(status := Active)])
    requires Usable(s.campaigns[sub.code.value], now)
    requires s.campaigns[sub.code.value].maxUses == Some(s.campaigns[sub.code.value].uses + 1)
    ensures Execute(s, Insert(id, sub.(status := Active), now)) == None
    ensures var s1 := Apply(s, Insert(id, sub, now));
      var s2 := Apply(s1, Update(id, sub.(status := Active), now));
      && Uses(s1, sub.code.value) == Uses(s, sub.code.value)
      && Uses(s2, sub.code.value) == Uses(s, sub.code.value) + 1
      && sub.code.value in s2.campaigns && !Usable(s2.campaigns[sub.code.value], now)
  {
    var active := sub.(status := Active);
    BornActiveIff(s, id, active, now);
    var s1 := Apply(s, Insert(id, sub, now));
    assert s1 == State(s.campaigns, s.subs[id := sub]);
    assert s1.subs[id := active] == s.subs[id := active];
    var fired := Fire(s1.campaigns, Some(sub), active, now);
    assert Admissible(fired.value, s1.subs[id := active]);
  }

  // ── What is accepted and what is stored ────────────────────────────────────

  /** Nobody else holds a subscription of this status for the same user. */
  ghost predicate AloneInStatus(subs: Subscriptions, id: Id, sub: Subscription) {
    forall i :: i in subs && i != id && subs[i].status == sub.status ==> subs[i].user != sub.user
  }

  /** No other row of the user is active or pending like this one, and its code
      is a campaign's. */
  ghost predicate Fits(campaigns: Campaigns, subs: Subscriptions, id: Id, sub: Subscription) {
    && (sub.status == Active || sub.status == Pending ==> AloneInStatus(subs, id, sub))
    && (sub.code.Some? ==> sub.code.value in campaigns)
  }

  /** In a table that keeps the indexes and the foreign key, writing one row keeps
      them exactly when it fits. */
  lemma AdmissibleIff(campaigns: Campaigns, subs: Subscriptions, id: Id, sub: Subscription)
    requires Admissible(campaigns, subs)
    ensures Admissible(campaigns, subs[id := sub]) <==> Fits(campaigns, subs, id, sub)
  {
    var subs' := subs[id := sub];
    assert subs'[id] == sub && forall i :: i in subs && i != id ==> subs'[i] == subs[i];
    if Admissible(campaigns, subs') {
      forall i | i in subs && i != id && subs[i].status == sub.status && (sub.status == Active || sub.status == Pending)
        ensures subs[i].user != sub.user
      {
        assert subs'[i].status == subs'[id].status;
      }
    }
  }

  /** A code that has room for `room` uses and is valid now. */
  predicate Redeemable(c: Campaign, now: int, room: int) {
    && (c.maxUses == None || c.uses + room <= c.maxUses.value)
    && (c.validFrom == None || c.validFrom.value <= now)
    && (c.validUntil == None || now <= c.validUntil.value)
  }

  /** An update is accepted exactly when the indexes allow it and, if it enters
      active with a code, the code is within its dates and has a use left; it
      then stores the row and counts the use, and nothing else. */
  lemma UpdateAcceptedIff(s: State, id: Id, sub: Subscription, now: int)
    requires Admissible(s.campaigns, s.subs) && id in s.subs
    ensures var enters := sub.status == Active && s.subs[id].status != Active && sub.code.Some?;
      && (Execute(s, Update(id, sub, now)).Some? <==>
            && Fits(s.campaigns, s.subs, id, sub)
            && (enters ==> Redeemable(s.campaigns[sub.code.value], now, 1)))
      && (Execute(s, Update(id, sub, now)).Some? ==>
            var s' := Execute(s, Update(id, sub, now)).value;
            && s'.subs == s.subs[id := sub]
            && s'.campaigns ==
                 if enters
                 then s.campaigns[sub.code.value := s.campaigns[sub.code.value].(uses := Uses(s, sub.code.value) + 1)]
                 else s.campaigns)
  {
    AdmissibleIff(s.campaigns, s.subs, id, sub);
    FireKeepsCodes(s, Some(s.subs[id]), id, sub, now);
  }

  /** An insert is accepted exactly when the id is new, the indexes allow it and,
      if it is active with a code, the code is within its dates and has two
      uses left, since both triggers fire. */
  lemma InsertAcceptedIff(s: State, id: Id, sub: Subscription, now: int)
    requires Admissible(s.campaigns, s.subs)
    ensures var active := sub.status == Active && sub.code.Some?;
      && (Execute(s, Insert(id, sub, now)).Some? <==>
            && id !in s.subs && Fits(s.campaigns, s.subs, id, sub)
            && (active ==> Redeemable(s.campaigns[sub.code.value], now, 2)))
      && (Execute(s, Insert(id, sub, now)).Some? ==>
            var s' := Execute(s, Insert(id, sub, now)).value;
            && s'.subs == s.subs[id := sub]
            && s'.campaigns ==
                 if active
                 then s.campaigns[sub.code.value := s.campaigns[sub.code.value].(uses := Uses(s, sub.code.value) + 2)]
                 else s.campaigns)
  {
    AdmissibleIff(s.campaigns, s.subs, id, sub);
    FireKeepsCodes(s, None, id, sub, now);
  }

  lemma FireKeepsCodes(s: State, was: Option<Subscription>, id: Id, sub: Subscription, now: int)
    ensures var fired := Fire(s.campaigns, was, sub, now);
      fired.Some? ==> (Admissible(fired.value, s.subs[id := sub]) <==> Admissible(s.campaigns, s.subs[id := sub]))
  {
    var fired := Fire(s.campaigns, was, sub, now);
    if fired.Some? {
      assert fired.value.Keys == s.campaigns.Keys;
    }
  }

  // ── The tables as statements update them ───────────────────────────────────

  class SubscriptionTables {
    var campaigns: Campaigns
    var subs: Subscriptions

    constructor (s: State)
      ensures State(campaigns, subs) == s
    {
      campaigns, subs := s.campaigns, s.subs;
    }

    /** `fn_increment_discount_uses`. */
    method IncrementDiscountUses(was: Option<Subscription>, row: Subscription, now: int) returns (ok: bool)
      modifies this`campaigns
      ensures ok <==> Fire(old(campaigns), was, row, now).Some?
      ensures campaigns == if ok then Fire(old(campaigns), was, row, now).value else old(campaigns)
    {
      if row.status != Active {
        return true;
      }
      if was != None && was.value.status == Active {
        return true;
      }
      if row.code != None {
        var code := row.code.value;
        if code !in campaigns || !Usable(campaigns[code], now) {
          return false;
        }
        campaigns := campaigns[code := campaigns[code].(uses := campaigns[code].uses + 1)];
      }
      return true;
    }

    method InsertSubscription(id: Id, sub: Subscription, now: int) returns (ok: bool)
      modifies this
      ensures ok <==> Execute(State(old(campaigns), old(subs)), Insert(id, sub, now)).Some?
      ensures State(campaigns, subs) == Apply(State(old(campaigns), old(subs)), Insert(id, sub, now))
    {
      if id in subs {
        return false;
      }
      var savepoint := campaigns;
      ok := IncrementDiscountUses(None, sub, now);
      if ok {
        ok := Admissible(campaigns, subs[id := sub]);
      }
      if ok {
        ok := IncrementDiscountUses(None, sub, now);
      }
      if ok {
        subs := subs[id := sub];
      } else {
        campaigns := savepoint;
      }
    }

    method UpdateSubscription(id: Id, sub: Subscription, now: int) returns (ok: bool)
      modifies this
      ensures ok <==> Execute(State(old(campaigns), old(subs)), Update(id, sub, now)).Some?
      ensures State(campaigns, subs) == Apply(State(old(campaigns), old(subs)), Update(id, sub, now))
    {
      if id !in subs {
        return false;
      }
      var savepoint := campaigns;
      ok := IncrementDiscountUses(Some(subs[id]), sub, now);
      if ok {
        ok := Admissible(campaigns, subs[id := sub]);
      }
      if ok {
        subs := subs[id := sub];
      } else {
        campaigns := savepoint;
      }
    }
  }
}
