/** The sliding 24-hour caps a trigger enforces on credits entered in
    `cabecoin_transactions`. */
module CreditCaps {
  import opened Common

  datatype Direction = Credit | Debit

  datatype Tx = Tx(user: Option<int>, direction: Direction, amount: int, createdAt: int)

  type Ledger = seq<Tx>

  /** The `db_pipeline_caps` section of the settings table; missing keys are None. */
  datatype CapsRow = CapsRow(enforced: Option<bool>, warn: Option<int>, block: Option<int>, userBlock: Option<int>)

  /** What one insertion sees: its clock, the session flag and the settings. */
  datatype Context = Context(now: int, session: Option<string>, caps: Option<CapsRow>)

  datatype Verdict = Accepted(warned: bool) | GlobalBlocked | UserBlocked

  function OrElse(o: Option<int>, default: int): int {
    if o.Some? then o.value else default
  }

  /** Both kill-switches are on. */
  predicate Armed(ctx: Context) {
    ctx.session == Some("true") && ctx.caps.Some? && ctx.caps.value.enforced == Some(true)
  }

  // ── Sums of credits ────────────────────────────────────────────────────────

  /** Whose credits a cap is about. */
  datatype Scope = Everyone | Only(user: int)

  predicate InScope(scope: Scope, tx: Tx) {
    tx.direction == Credit && (scope.Only? ==> tx.user == Some(scope.user))
  }

  /** Credits in scope created strictly after `lo`, with no upper bound. */
  function SumAfter(l: Ledger, scope: Scope, lo: int): int {
    if l == [] then 0
    else
      var tx := l[|l| - 1];
      SumAfter(l[..|l| - 1], scope, lo) + if InScope(scope, tx) && lo < tx.createdAt then tx.amount else 0
  }

  /** Credits in scope created in (lo, hi]. */
  function SumWithin(l: Ledger, scope: Scope, lo: int, hi: int): int {
    if l == [] then 0
    else
      var tx := l[|l| - 1];
      SumWithin(l[..|l| - 1], scope, lo, hi) + if InScope(scope, tx) && lo < tx.createdAt <= hi then tx.amount else 0
  }

  ghost predicate PositiveAmounts(l: Ledger) {
    forall i :: 0 <= i < |l| ==> l[i].amount > 0
  }

  lemma {:induction false} WithinAtMostAfter(l: Ledger, scope: Scope, lo: int, hi: int, lo': int)
    requires PositiveAmounts(l) && lo' <= lo
    ensures 0 <= SumWithin(l, scope, lo, hi) <= SumAfter(l, scope, lo')
  {
    if l != [] {
      WithinAtMostAfter(l[..|l| - 1], scope, lo, hi, lo');
    }
  }

  lemma {:induction false} AfterIsWithin(l: Ledger, scope: Scope, lo: int, hi: int)
    requires forall i :: 0 <= i < |l| && l[i].direction == Credit ==> l[i].createdAt <= hi
    ensures SumAfter(l, scope, lo) == SumWithin(l, scope, lo, hi)
  {
    if l != [] {
      AfterIsWithin(l[..|l| - 1], scope, lo, hi);
    }
  }

  // ── The trigger ────────────────────────────────────────────────────────────

  /** The BEFORE INSERT trigger's decision on a new row. */
  function Decide(l: Ledger, tx: Tx, ctx: Context): Verdict {
    if tx.direction != Credit || !Armed(ctx) then Accepted(false)
    else
      var caps := ctx.caps.value;
      var today := SumAfter(l, Everyone, ctx.now - DAY);
      if today + tx.amount > OrElse(caps.block, 50000) then GlobalBlocked
      else
        var mine := if tx.user.Some? then SumAfter(l, Only(tx.user.value), ctx.now - DAY) else 0;
        if mine + tx.amount > OrElse(caps.userBlock, 5000) then UserBlocked
        else Accepted(today + tx.amount > OrElse(caps.warn, 20000))
  }

  class CabecoinTransactions {
    var rows: Ledger

    constructor ()
      ensures rows == []
    {
      rows := [];
    }

    method Insert(tx: Tx, ctx: Context) returns (verdict: Verdict)
      modifies this
      ensures verdict == Decide(old(rows), tx, ctx)
      ensures rows == if verdict.Accepted? then old(rows) + [tx] else old(rows)
    {
      verdict := Accepted(false);
      if tx.direction == Credit && ctx.session == Some("true") {
        if ctx.caps != None && ctx.caps.value.enforced == Some(true) {
          var warn := OrElse(ctx.caps.value.warn, 20000);
          var block := OrElse(ctx.caps.value.block, 50000);
          var userBlock := OrElse(ctx.caps.value.userBlock, 5000);
          var today := SumAfter(rows, Everyone, ctx.now - DAY);
          if today + tx.amount > block {
            return GlobalBlocked;
          }
          if today + tx.amount > warn {
            verdict := Accepted(true);
          }
          var mine := if tx.user.Some? then SumAfter(rows, Only(tx.user.value), ctx.now - DAY) else 0;
          if mine + tx.amount > userBlock {
            return UserBlocked;
          }
        }
      }
      rows := rows + [tx];
    }
  }

  // ── What the decision rests on ─────────────────────────────────────────────

  /** A new row counts towards everyone if it is a credit, and towards a user if
      it is also that user's; a debit or an older row counts nowhere. */
  lemma SumAfterAppend(l: Ledger, tx: Tx, u: int, lo: int)
    ensures SumAfter([], Everyone, lo) == SumAfter([], Only(u), lo) == 0
    ensures SumAfter(l + [tx], Everyone, lo) == SumAfter(l, Everyone, lo) +
      if tx.direction == Credit && lo < tx.createdAt then tx.amount else 0
    ensures SumAfter(l + [tx], Only(u), lo) == SumAfter(l, Only(u), lo) +
      if tx.direction == Credit && tx.user == Some(u) && lo < tx.createdAt then tx.amount else 0
  {
    assert (l + [tx])[..|l|] == l;
  }

  /** With either switch off, or without settings, every row is let in silently,
      and so is every debit: the seeded default. */
  lemma SwitchedOffAccepts(l: Ledger, tx: Tx, ctx: Context)
    requires
      || tx.direction == Debit
      || ctx.session != Some("true")
      || ctx.caps == None
      || ctx.caps.value.enforced != Some(true)
    ensures Decide(l, tx, ctx) == Accepted(false)
  {
  }

  /** With both switches on, the last 24 hours and the new credit decide: over the
      global block it is refused; else over the user's block it is refused; else
      it is let in, with a warning exactly over the warning level. Settings that
      are missing count as 50000, 5000 and 20000. */
  lemma SwitchedOnDecides(l: Ledger, tx: Tx, ctx: Context, block: int, userBlock: int, warn: int)
    requires tx.direction == Credit && ctx.session == Some("true")
    requires ctx.caps.Some? && ctx.caps.value.enforced == Some(true)
    requires if ctx.caps.value.block == None then block == 50000 else ctx.caps.value.block == Some(block)
    requires if ctx.caps.value.userBlock == None then userBlock == 5000 else ctx.caps.value.userBlock == Some(userBlock)
    requires if ctx.caps.value.warn == None then warn == 20000 else ctx.caps.value.warn == Some(warn)
    ensures var all := SumAfter(l, Everyone, ctx.now - DAY) + tx.amount;
      var own := tx.amount + if tx.user.Some? then SumAfter(l, Only(tx.user.value), ctx.now - DAY) else 0;
      && (Decide(l, tx, ctx) == GlobalBlocked <==> all > block)
      && (Decide(l, tx, ctx) == UserBlocked <==> all <= block && own > userBlock)
      && (Decide(l, tx, ctx) == Accepted(true) <==> all <= block && own <= userBlock && all > warn)
  {
  }

  // ── Every window of every reachable ledger ─────────────────────────────────

  function Cap(scope: Scope, caps: CapsRow): int {
    if scope.Everyone? then OrElse(caps.block, 50000) else OrElse(caps.userBlock, 5000)
  }

  /** Credits in scope over the 24-hour window (lo, lo + 24h]. */
  function Window(l: Ledger, scope: Scope, lo: int): int {
    SumWithin(l, scope, lo, lo + DAY)
  }

  /** No 24-hour window, wherever it starts, exceeds a cap. */
  ghost predicate WithinCaps(l: Ledger, caps: CapsRow) {
    forall scope, lo :: Window(l, scope, lo) <= Cap(scope, caps)
  }

  lemma SumWithinAppend(l: Ledger, tx: Tx, scope: Scope, lo: int, hi: int)
    ensures SumWithin(l + [tx], scope, lo, hi) ==
      SumWithin(l, scope, lo, hi) + if InScope(scope, tx) && lo < tx.createdAt <= hi then tx.amount else 0
  {
    assert (l + [tx])[..|l|] == l;
  }

  /** An accepted armed credit that is not back-dated keeps every window within
      the caps: whatever the window, its earlier credits were all in the sum. */
  lemma AcceptedKeepsCaps(l: Ledger, tx: Tx, ctx: Context)
    requires PositiveAmounts(l) && WithinCaps(l, CapsOf(ctx))
    requires tx.direction == Credit ==> Armed(ctx) && ctx.now <= tx.createdAt
    requires Decide(l, tx, ctx).Accepted?
    ensures WithinCaps(l + [tx], CapsOf(ctx))
  {
    forall scope, lo
      ensures Window(l + [tx], scope, lo) <= Cap(scope, CapsOf(ctx))
    {
      SumWithinAppend(l, tx, scope, lo, lo + DAY);
      assert Window(l, scope, lo) <= Cap(scope, CapsOf(ctx));
      if InScope(scope, tx) && lo < tx.createdAt <= lo + DAY {
        WithinAtMostAfter(l, scope, lo, lo + DAY, ctx.now - DAY);
      }
    }
  }

  /** The caps in force; an absent settings row means the defaults. */
  function CapsOf(ctx: Context): CapsRow {
    if ctx.caps.Some? then ctx.caps.value else CapsRow(None, None, None, None)
  }

  /** With no credit from the future on the ledger, an armed credit to a known
      user is accepted exactly when every 24-hour window stays within the caps. */
  lemma AcceptedIffWithinCaps(l: Ledger, tx: Tx, ctx: Context)
    requires PositiveAmounts(l) && Armed(ctx) && WithinCaps(l, CapsOf(ctx))
    requires tx.direction == Credit && tx.user.Some? && tx.createdAt == ctx.now
    requires forall i :: 0 <= i < |l| ==> l[i].createdAt <= ctx.now
    ensures Decide(l, tx, ctx).Accepted? <==> WithinCaps(l + [tx], CapsOf(ctx))
  {
    if Decide(l, tx, ctx).Accepted? {
      AcceptedKeepsCaps(l, tx, ctx);
    } else {
      var lo := ctx.now - DAY;
      var scope := if Decide(l, tx, ctx).GlobalBlocked? then Everyone else Only(tx.user.value);
      AfterIsWithin(l, scope, lo, ctx.now);
      SumWithinAppend(l, tx, scope, lo, lo + DAY);
      assert Window(l + [tx], scope, lo) > Cap(scope, CapsOf(ctx));
    }
  }

  // ── Runs ───────────────────────────────────────────────────────────────────

  /** What may happen to the ledger: an insertion, a row deleted, or a row whose
      user is set to NULL because the account was deleted. */
  datatype Op = Insert(tx: Tx, ctx: Context) | Delete(i: nat) | Anonymise(i: nat)

  function Apply(l: Ledger, op: Op): Ledger {
    match op
    case Insert(tx, ctx) => if Decide(l, tx, ctx).Accepted? then l + [tx] else l
    case Delete(i) => if i < |l| then l[..i] + l[i + 1..] else l
    case Anonymise(i) => if i < |l| then l[i := l[i].(user := None)] else l
  }

  function ApplyAll(l: Ledger, ops: seq<Op>): Ledger {
    if ops == [] then l else Apply(ApplyAll(l, ops[..|ops| - 1]), ops[|ops| - 1])
  }

  /** Every credit is inserted with both switches on, the same caps, a positive
      amount and a creation time not before the trigger's clock. */
  ghost predicate Disciplined(ops: seq<Op>, row: CapsRow) {
    forall i :: 0 <= i < |ops| && ops[i].Insert? ==>
      && ops[i].tx.amount > 0
      && (ops[i].tx.direction == Credit ==>
            Armed(ops[i].ctx) && ops[i].ctx.caps == Some(row) && ops[i].ctx.now <= ops[i].tx.createdAt)
  }

  lemma {:induction false} DeleteLowersWindow(l: Ledger, i: nat, scope: Scope, lo: int, hi: int)
    requires PositiveAmounts(l) && i < |l|
    ensures SumWithin(l[..i] + l[i + 1..], scope, lo, hi) <= SumWithin(l, scope, lo, hi)
  {
    var n := |l| - 1;
    if i == n {
      assert l[..i] + l[i + 1..] == l[..n];
    } else {
      DeleteLowersWindow(l[..n], i, scope, lo, hi);
      var less := l[..n][..i] + l[..n][i + 1..];
      assert l[..i] + l[i + 1..] == less + [l[n]];
      SumWithinAppend(less, l[n], scope, lo, hi);
    }
  }

  lemma {:induction false} AnonymiseLowersWindow(l: Ledger, i: nat, scope: Scope, lo: int, hi: int)
    requires PositiveAmounts(l) && i < |l|
    ensures SumWithin(l[i := l[i].(user := None)], scope, lo, hi) <= SumWithin(l, scope, lo, hi)
  {
    var n := |l| - 1;
    var l' := l[i := l[i].(user := None)];
    if i == n {
      assert l'[..n] == l[..n];
    } else {
      AnonymiseLowersWindow(l[..n], i, scope, lo, hi);
      assert l'[..n] == l[..n][i := l[i].(user := None)];
    }
  }

  lemma ApplyKeepsCaps(l: Ledger, op: Op, row: CapsRow)
    requires PositiveAmounts(l) && WithinCaps(l, row) && Disciplined([op], row)
    ensures PositiveAmounts(Apply(l, op)) && WithinCaps(Apply(l, op), row)
  {
    assert [op][0] == op;
    match op
    case Insert(tx, ctx) =>
      if Decide(l, tx, ctx).Accepted? {
        if tx.direction == Credit {
          AcceptedKeepsCaps(l, tx, ctx);
        } else {
          AcceptedKeepsCaps(l, tx, Context(0, None, Some(row)));
        }
      }
    case Delete(i) =>
      if i < |l| {
        forall scope, lo
          ensures Window(Apply(l, op), scope, lo) <= Cap(scope, row)
        {
          DeleteLowersWindow(l, i, scope, lo, lo + DAY);
          assert Window(l, scope, lo) <= Cap(scope, row);
        }
      }
    case Anonymise(i) =>
      if i < |l| {
        forall scope, lo
          ensures Window(Apply(l, op), scope, lo) <= Cap(scope, row)
        {
          AnonymiseLowersWindow(l, i, scope, lo, lo + DAY);
          assert Window(l, scope, lo) <= Cap(scope, row);
        }
      }
  }

  /** In every ledger reachable by disciplined operations, in whatever order
      their clocks run, every 24-hour window holds at most the global block in
      total and at most the per-user block for each user. */
  lemma {:induction false} EveryWindowWithinCaps(ops: seq<Op>, row: CapsRow)
    requires Disciplined(ops, row) && Cap(Everyone, row) >= 0 && Cap(Only(0), row) >= 0
    ensures PositiveAmounts(ApplyAll([], ops)) && WithinCaps(ApplyAll([], ops), row)
  {
    if ops != [] {
      var n := |ops| - 1;
      EveryWindowWithinCaps(ops[..n], row);
      ApplyKeepsCaps(ApplyAll([], ops[..n]), ops[n], row);
    }
  }

  // ── Closed windows ─────────────────────────────────────────────────────────

  /** Credits in scope over the closed 24-hour window [lo, lo + 24h]. */
  function ClosedWindow(l: Ledger, scope: Scope, lo: int): int {
    SumWithin(l, scope, lo - 1, lo + DAY)
  }

  ghost predicate ClosedWithinCaps(l: Ledger, caps: CapsRow) {
    forall scope, lo :: ClosedWindow(l, scope, lo) <= Cap(scope, caps)
  }

  /** The trigger's comparison, had it counted the credits stamped exactly 24
      hours before as well. */
  ghost predicate FitsClosed(l: Ledger, tx: Tx, now: int, caps: CapsRow) {
    forall scope :: InScope(scope, tx) ==> SumAfter(l, scope, now - DAY - 1) + tx.amount <= Cap(scope, caps)
  }

  /** The trigger subtracts 24 hours and compares strictly, so it keeps the caps
      on half-open windows only. A credit entered now keeps them on closed
      windows exactly when it still fits once the credits stamped exactly 24
      hours ago are counted. */
  lemma ClosedWithinCapsIff(l: Ledger, tx: Tx, now: int, caps: CapsRow)
    requires PositiveAmounts(l) && ClosedWithinCaps(l, caps)
    requires tx.direction == Credit && tx.createdAt == now
    requires forall i :: 0 <= i < |l| && l[i].direction == Credit ==> l[i].createdAt <= now
    ensures ClosedWithinCaps(l + [tx], caps) <==> FitsClosed(l, tx, now, caps)
  {
    if ClosedWithinCaps(l + [tx], caps) {
      forall scope | InScope(scope, tx)
        ensures SumAfter(l, scope, now - DAY - 1) + tx.amount <= Cap(scope, caps)
      {
        AfterIsWithin(l, scope, now - DAY - 1, now);
        SumWithinAppend(l, tx, scope, now - DAY - 1, now);
        assert ClosedWindow(l + [tx], scope, now - DAY) <= Cap(scope, caps);
      }
    }
    if FitsClosed(l, tx, now, caps) {
      forall scope, lo
        ensures ClosedWindow(l + [tx], scope, lo) <= Cap(scope, caps)
      {
        SumWithinAppend(l, tx, scope, lo - 1, lo + DAY);
        assert ClosedWindow(l, scope, lo) <= Cap(scope, caps);
        if InScope(scope, tx) && lo <= now <= lo + DAY {
          WithinAtMostAfter(l, scope, lo - 1, lo + DAY, now - DAY - 1);
        }
      }
    }
  }

  /** Credits stand on the ledger in the order of their stamps. */
  ghost predicate Chronological(l: Ledger) {
    forall i, j :: 0 <= i < j < |l| && l[i].direction == Credit && l[j].direction == Credit ==>
      l[i].createdAt <= l[j].createdAt
  }

  /** A whole ledger: every closed 24-hour window is within the caps exactly when
      each credit fitted, in that sense, at the moment it was entered. */
  lemma {:induction false} EveryClosedWindowIff(l: Ledger, caps: CapsRow)
    requires PositiveAmounts(l) && Chronological(l) && Cap(Everyone, caps) >= 0 && Cap(Only(0), caps) >= 0
    ensures ClosedWithinCaps(l, caps) <==>
      forall i :: 0 <= i < |l| && l[i].direction == Credit ==> FitsClosed(l[..i], l[i], l[i].createdAt, caps)
  {
    if l != [] {
      var n := |l| - 1;
      var rest, tx := l[..n], l[n];
      assert l == rest + [tx];
      EveryClosedWindowIff(rest, caps);
      assert forall i :: 0 <= i < n ==> rest[..i] == l[..i];
      ClosedShrinks(rest, tx, caps);
      if ClosedWithinCaps(rest, caps) && tx.direction == Credit {
        ClosedWithinCapsIff(rest, tx, tx.createdAt, caps);
      }
    }
  }

  /** Leaving out the last row keeps closed windows within the caps; adding a
      debit does too. */
  lemma ClosedShrinks(l: Ledger, tx: Tx, caps: CapsRow)
    requires tx.amount > 0
    ensures ClosedWithinCaps(l + [tx], caps) ==> ClosedWithinCaps(l, caps)
    ensures tx.direction == Debit && ClosedWithinCaps(l, caps) ==> ClosedWithinCaps(l + [tx], caps)
  {
    forall scope, lo
      ensures ClosedWindow(l, scope, lo) <= ClosedWindow(l + [tx], scope, lo)
      ensures tx.direction == Debit ==> ClosedWindow(l, scope, lo) == ClosedWindow(l + [tx], scope, lo)
    {
      SumWithinAppend(l, tx, scope, lo - 1, lo + DAY);
    }
    if ClosedWithinCaps(l + [tx], caps) {
      forall scope, lo
        ensures ClosedWindow(l, scope, lo) <= Cap(scope, caps)
      {
        assert ClosedWindow(l + [tx], scope, lo) <= Cap(scope, caps);
      }
    }
  }

  lemma {:induction false} AfterSplits(l: Ledger, scope: Scope, lo: int, mid: int)
    requires lo <= mid
    ensures SumAfter(l, scope, lo) == SumWithin(l, scope, lo, mid) + SumAfter(l, scope, mid)
  {
    if l != [] {
      AfterSplits(l[..|l| - 1], scope, lo, mid);
    }
  }

  /** So what the trigger accepts can overrun a closed window only when some
      credit in the same scope is stamped exactly 24 hours earlier. */
  lemma AcceptedFitsClosed(l: Ledger, tx: Tx, ctx: Context)
    requires Armed(ctx) && tx.direction == Credit && Decide(l, tx, ctx).Accepted?
    requires forall scope :: InScope(scope, tx) ==> SumWithin(l, scope, ctx.now - DAY - 1, ctx.now - DAY) == 0
    ensures FitsClosed(l, tx, ctx.now, CapsOf(ctx))
  {
    forall scope | InScope(scope, tx)
      ensures SumAfter(l, scope, ctx.now - DAY - 1) + tx.amount <= Cap(scope, CapsOf(ctx))
    {
      AfterSplits(l, scope, ctx.now - DAY - 1, ctx.now - DAY);
    }
  }

  // ── Back-dated credits ─────────────────────────────────────────────────────

  /** Whatever ledger is within the caps, any credit stamped `at` that the
      trigger accepts at clock `now` leaves it within the caps. */
  ghost predicate StampIsSafe(at: int, now: int, row: CapsRow) {
    forall l, tx :: Admits(l, tx, at, now, row) ==> WithinCaps(l + [tx], row)
  }

  /** A ledger within the caps, and a credit stamped `at` accepted at clock `now`. */
  ghost predicate Admits(l: Ledger, tx: Tx, at: int, now: int, row: CapsRow) {
    && PositiveAmounts(l) && WithinCaps(l, row)
    && tx.direction == Credit && tx.amount > 0 && tx.createdAt == at
    && Decide(l, tx, ArmedAt(now, row)).Accepted?
  }

  /** Some credit can be accepted at all. */
  predicate Usable(row: CapsRow) {
    Cap(Everyone, row) > 0 && Cap(Only(0), row) > 0
  }

  /** A stamp is safe exactly when it is not before the clock, unless the caps
      let no credit through at all. */
  lemma StampIsSafeIff(at: int, now: int, row: CapsRow)
    requires row.enforced == Some(true)
    ensures StampIsSafe(at, now, row) <==> now <= at || !Usable(row)
  {
    if now <= at || !Usable(row) {
      forall l, tx | Admits(l, tx, at, now, row)
        ensures WithinCaps(l + [tx], row)
      {
        AcceptedIsUsable(l, tx, now, row);
        AcceptedKeepsCaps(l, tx, ArmedAt(now, row));
      }
    } else {
      var e := if at <= now - DAY then at else now - DAY;
      BackdatedCreditOverruns(e, at, now, row);
    }
  }

  lemma AcceptedIsUsable(l: Ledger, tx: Tx, now: int, row: CapsRow)
    requires row.enforced == Some(true) && PositiveAmounts(l) && tx.direction == Credit && tx.amount > 0
    requires Decide(l, tx, ArmedAt(now, row)).Accepted?
    ensures Usable(row)
  {
    WithinAtMostAfter(l, Everyone, now - DAY, now, now - DAY);
    if tx.user.Some? {
      WithinAtMostAfter(l, Only(tx.user.value), now - DAY, now, now - DAY);
    }
  }

  function Grant(amount: int, at: int): Tx { Tx(Some(1), Credit, amount, at) }

  function ArmedAt(now: int, row: CapsRow): Context { Context(now, Some("true"), Some(row)) }

  /** The largest credit both caps let through. */
  function Full(row: CapsRow): int {
    if Cap(Everyone, row) <= Cap(Only(1), row) then Cap(Everyone, row) else Cap(Only(1), row)
  }

  lemma OneGrant(amount: int, at: int, scope: Scope, lo: int, hi: int)
    ensures SumWithin([Grant(amount, at)], scope, lo, hi) ==
      if InScope(scope, Grant(amount, at)) && lo < at <= hi then amount else 0
    ensures SumAfter([Grant(amount, at)], scope, lo) ==
      if InScope(scope, Grant(amount, at)) && lo < at then amount else 0
  {
    assert [Grant(amount, at)][..0] == [];
  }

  /** A full credit stamped 24 hours before the clock or earlier, then another
      one stamped less than 24 hours after it: the trigger accepts both, and
      one window holds both. */
  lemma BackdatedCreditOverruns(e: int, at: int, now: int, row: CapsRow)
    requires row.enforced == Some(true) && Usable(row) && e <= now - DAY && e <= at < e + DAY
    ensures var l, tx := [Grant(Full(row), e)], Grant(Full(row), at);
      && Decide([], l[0], ArmedAt(e, row)).Accepted? && Admits(l, tx, at, now, row)
      && Window(l + [tx], Everyone, e - 1) == Window(l + [tx], Only(1), e - 1) == 2 * Full(row)
      && !WithinCaps(l + [tx], row)
  {
    var l, tx := [Grant(Full(row), e)], Grant(Full(row), at);
    forall scope, lo
      ensures Window(l, scope, lo) <= Cap(scope, row)
    {
      OneGrant(Full(row), e, scope, lo, lo + DAY);
    }
    BothGranted(Full(row), e, at, now - DAY, Everyone, e - 1, e - 1 + DAY);
    BothGranted(Full(row), e, at, now - DAY, Only(1), e - 1, e - 1 + DAY);
    assert !WithinCaps(l + [tx], row) by {
      var scope := if Full(row) == Cap(Everyone, row) then Everyone else Only(1);
      assert Window(l + [tx], scope, e - 1) > Cap(scope, row);
    }
  }

  /** Two grants in one span, the first too old for the trigger to count. */
  lemma BothGranted(amount: int, e: int, at: int, edge: int, scope: Scope, lo: int, hi: int)
    requires scope == Everyone || scope == Only(1)
    requires e <= edge && lo < e <= at <= hi
    ensures SumAfter([Grant(amount, e)], scope, edge) == 0
    ensures SumWithin([Grant(amount, e)] + [Grant(amount, at)], scope, lo, hi) == 2 * amount
  {
    OneGrant(amount, e, scope, edge, hi);
    OneGrant(amount, e, scope, lo, hi);
    SumWithinAppend([Grant(amount, e)], Grant(amount, at), scope, lo, hi);
  }

  /** A closed window of exactly 24 hours can hold twice the smaller of the two caps. */
  lemma ClosedWindowOverruns(at: int, row: CapsRow)
    requires row.enforced == Some(true) && Usable(row)
    ensures var l, tx := [Grant(Full(row), at)], Grant(Full(row), at + DAY);
      && Decide([], l[0], ArmedAt(at, row)).Accepted? && Decide(l, tx, ArmedAt(at + DAY, row)).Accepted?
      && ClosedWindow(l + [tx], Everyone, at) == ClosedWindow(l + [tx], Only(1), at) == 2 * Full(row)
      && !ClosedWithinCaps(l + [tx], row)
  {
    var l, tx := [Grant(Full(row), at)], Grant(Full(row), at + DAY);
    BothGranted(Full(row), at, at + DAY, at, Everyone, at - 1, at + DAY);
    BothGranted(Full(row), at, at + DAY, at, Only(1), at - 1, at + DAY);
    assert !ClosedWithinCaps(l + [tx], row) by {
      var scope := if Full(row) == Cap(Everyone, row) then Everyone else Only(1);
      assert ClosedWindow(l + [tx], scope, at) > Cap(scope, row);
    }
  }
}
