/** Refunds: at most one per payment, never above its amount, and what a retry after a crash achieves. */
module RefundOnce {
  import opened Tables
  import opened Decimals
  import opened Refunds
  import opened Booking
  import opened BookingRuns

  ghost predicate EntryBacked(payments: Payments, entry: RefundEntry) {
    exists pid | pid in payments ::
      entry.key == RefundKey(pid) && payments[pid].stripePaymentId.Some? && 0 <= entry.amount <= payments[pid].amount
  }

  /** Every refund in Stripe's ledger carries the key of a paid payment, no key twice, no amount too high,
      and a refund id stored with a payment names that payment's own ledger entry. */
  ghost predicate Ledgered(s: State) {
    && (forall i, j | 0 <= i < j < |s.ledger| :: s.ledger[i].key != s.ledger[j].key)
    && (forall i | 0 <= i < |s.ledger| :: EntryBacked(s.payments, s.ledger[i]))
    && (forall rid | rid in s.busy && s.busy[rid].RefundMade? :: RefundIdOk(s.ledger, s.busy[rid].pid, s.busy[rid].refundId))
    && (forall pid | pid in s.payments :: RefundIdOk(s.ledger, pid, s.payments[pid].refundId))
  }

  predicate RefundIdOk(ledger: seq<RefundEntry>, pid: nat, refundId: Option<nat>) {
    refundId.Some? ==> refundId.value < |ledger| && ledger[refundId.value].key == RefundKey(pid)
  }

  lemma RefundKeyInjective(p: nat, q: nat)
    ensures RefundKey(p) == RefundKey(q) ==> p == q
  {
    if RefundKey(p) == RefundKey(q) {
      assert RefundKey(p)[|"refund-"|..] == Decimal(p) && RefundKey(q)[|"refund-"|..] == Decimal(q);
      DecimalInjective(p, q);
    }
  }

  lemma {:induction false} FindKeySpec(ledger: seq<RefundEntry>, key: string)
    ensures match FindKey(ledger, key)
            case Some(i) => i < |ledger| && ledger[i].key == key
            case None => forall i | 0 <= i < |ledger| :: ledger[i].key != key
  {
    if ledger != [] {
      FindKeySpec(ledger[..|ledger| - 1], key);
    }
  }

  /** Paid payments stay, keep their amount, and stay paid. */
  ghost predicate PaidKept(before: Payments, after: Payments) {
    forall pid | pid in before && before[pid].stripePaymentId.Some? ::
      pid in after && after[pid].stripePaymentId.Some? && after[pid].amount == before[pid].amount
  }

  /** No refund id is invented: one is kept, or taken from the call that made the refund. */
  ghost predicate RefundIdsKept(s: State, after: State) {
    forall pid | pid in after.payments && after.payments[pid].refundId.Some? ::
      || (pid in s.payments && s.payments[pid].refundId == after.payments[pid].refundId)
      || (exists rid | rid in s.busy :: s.busy[rid] == RefundMade(pid, after.payments[pid].refundId))
  }

  lemma KeepsCheckout(s: State, userId: int, rid: int, price: Option<nat>)
    requires Good(s)
    ensures var after := StartCheckout(s, userId, rid, price);
            PaidKept(s.payments, after.payments) && RefundIdsKept(s, after)
  {
  }

  /** Same payment rows, same intents, same refund ids, same amounts. */
  ghost predicate SameMoney(before: Payments, after: Payments) {
    && after.Keys == before.Keys
    && forall pid | pid in before ::
         after[pid].stripePaymentId == before[pid].stripePaymentId && after[pid].refundId == before[pid].refundId
         && after[pid].amount == before[pid].amount
  }

  lemma MarkKeepsMoney(s: State, pid: nat, p: Payment)
    requires pid in s.payments
    requires p.stripePaymentId == s.payments[pid].stripePaymentId && p.refundId == s.payments[pid].refundId
    requires p.amount == s.payments[pid].amount
    ensures SameMoney(s.payments, Mark(s, pid, p).payments)
  {
  }

  lemma DeliverKeepsMoney(s: State, event: Event)
    ensures SameMoney(s.payments, DoDeliver(s, event).payments)
  {
    match event.body
    case Completed(pid, paid, intent) =>
      if pid in s.payments { MarkKeepsMoney(s, pid, s.payments[pid].(status := InProgress, stripeEventId := Some(event.id))); }
    case AsyncFailed(pid) =>
      if pid in s.payments { MarkKeepsMoney(s, pid, s.payments[pid].(status := Failed, stripeEventId := Some(event.id))); }
    case SessionExpired(pid) =>
      if pid in s.payments { MarkKeepsMoney(s, pid, s.payments[pid].(status := TimedOut, stripeEventId := Some(event.id))); }
    case Dispute(intent, reason) =>
      if HasIntent(s.payments, intent) {
        var pid := PaymentWithIntent(s.payments, intent);
        MarkKeepsMoney(s, pid, s.payments[pid].(disputeReason := Some(reason), stripeEventId := Some(event.id)));
      }
    case OtherEvent =>
  }

  /** Same payment rows, same refund ids, same amounts, no intent dropped. */
  ghost predicate SameRefunds(before: Payments, after: Payments) {
    && after.Keys == before.Keys
    && forall pid | pid in before ::
         after[pid].refundId == before[pid].refundId && after[pid].amount == before[pid].amount
         && (before[pid].stripePaymentId.Some? ==> after[pid].stripePaymentId.Some?)
  }

  lemma KeepsContinueCheckout(s: State, rid: int, ok: bool, session: string)
    requires Good(s) && rid in s.busy && s.busy[rid].Checkout()
    ensures var after := ContinueCheckout(s, rid, s.busy[rid], ok, session);
            PaidKept(s.payments, after.payments) && RefundIdsKept(s, after)
  {
  }

  lemma KeepsContinueRest(s: State, rid: int, ok: bool, session: string)
    requires Good(s) && rid in s.busy && !s.busy[rid].Checkout()
    ensures var after := DoContinue(s, rid, ok, session);
            PaidKept(s.payments, after.payments) && RefundIdsKept(s, after)
  {
    if ok && s.busy[rid].RefundMade? {
      assert s.busy[rid] == RefundMade(s.busy[rid].pid, s.busy[rid].refundId);
    }
  }

  lemma KeepsStep(s: State, step: Step)
    requires Good(s)
    ensures PaidKept(s.payments, Apply(s, step).payments) && RefundIdsKept(s, Apply(s, step))
  {
    match step
    case Checkout(userId, rid, price) => KeepsCheckout(s, userId, rid, price);
    case Deliver(event) => DeliverKeepsMoney(s, event);
    case Continue(rid, ok, session) =>
      if rid in s.busy { KeepsContinue(s, rid, ok, session); }
    case ReconcilePaid(pid, intent) => KeepsReconcile(s, pid, intent);
    case ReconcileUnpaid(pid) => KeepsReconcile(s, pid, "");
    case _ => PaymentsUntouched(s, step);
  }

  lemma KeepsContinue(s: State, rid: int, ok: bool, session: string)
    requires Good(s) && rid in s.busy
    ensures PaidKept(s.payments, DoContinue(s, rid, ok, session).payments) && RefundIdsKept(s, DoContinue(s, rid, ok, session))
  {
    if s.busy[rid].Checkout() {
      KeepsContinueCheckout(s, rid, ok, session);
    } else {
      KeepsContinueRest(s, rid, ok, session);
    }
  }

  lemma PaymentsUntouched(s: State, step: Step)
    requires step.Tick? || step.Sweep? || step.Reserve? || step.Cancel? || step.Crash?
    ensures Apply(s, step).payments == s.payments
  {
  }

  lemma KeepsReconcile(s: State, pid: nat, intent: string)
    ensures SameRefunds(s.payments, DoReconcilePaid(s, pid, intent).payments)
    ensures SameRefunds(s.payments, DoReconcileUnpaid(s, pid).payments)
  {
  }

  /** Only one kind of step moves money. */
  predicate AsksStripe(s: State, step: Step) {
    step.Continue? && step.ok && step.rid in s.busy && s.busy[step.rid].RefundAsked?
  }

  lemma OtherStepsMoveNoMoney(s: State, step: Step)
    requires !AsksStripe(s, step)
    ensures Apply(s, step).ledger == s.ledger
    ensures forall rid | rid in Apply(s, step).busy && Apply(s, step).busy[rid].RefundMade? ::
              (rid in s.busy && s.busy[rid] == Apply(s, step).busy[rid]) || Apply(s, step).busy[rid].refundId.None?
  {
    if step.Continue? && step.rid in s.busy {
      ContinueMovesNoMoney(s, step.rid, step.ok, step.session);
    }
  }

  lemma ContinueMovesNoMoney(s: State, rid: int, ok: bool, session: string)
    requires rid in s.busy && !(ok && s.busy[rid].RefundAsked?)
    ensures var after := DoContinue(s, rid, ok, session);
            && after.ledger == s.ledger
            && forall id | id in after.busy && after.busy[id].RefundMade? :: id in s.busy && s.busy[id] == after.busy[id]
  {
  }

  lemma LedgeredOther(s: State, step: Step)
    requires Good(s) && Ledgered(s) && !AsksStripe(s, step)
    ensures Ledgered(Apply(s, step))
  {
    KeepsStep(s, step);
    OtherStepsMoveNoMoney(s, step);
    var after := Apply(s, step);
    forall i | 0 <= i < |after.ledger| ensures EntryBacked(after.payments, after.ledger[i]) {
      assert EntryBacked(s.payments, s.ledger[i]);
      var pid :| pid in s.payments && s.ledger[i].key == RefundKey(pid) && s.payments[pid].stripePaymentId.Some?
        && 0 <= s.ledger[i].amount <= s.payments[pid].amount;
      assert pid in after.payments;
    }
  }

  lemma LedgerMore(s: State, entry: RefundEntry)
    requires Ledgered(s) && EntryBacked(s.payments, entry) && FindKey(s.ledger, entry.key).None?
    ensures var more := s.ledger + [entry];
            && (forall i, j | 0 <= i < j < |more| :: more[i].key != more[j].key)
            && (forall i | 0 <= i < |more| :: EntryBacked(s.payments, more[i]))
  {
    FindKeySpec(s.ledger, entry.key);
  }

  lemma LedgeredAsk(s: State, rid: int, pid: nat, amount: int, intent: string)
    requires Good(s) && Ledgered(s) && rid in s.busy && s.busy[rid] == RefundAsked(pid, amount, intent)
    ensures Ledgered(AskStripe(s, rid, pid, amount, intent))
  {
    var entry := RefundEntry(RefundKey(pid), intent, amount);
    FindKeySpec(s.ledger, entry.key);
    assert PendingOk(s, rid, s.busy[rid]);
    assert EntryBacked(s.payments, entry);
    if FindKey(s.ledger, entry.key).None? {
      LedgerMore(s, entry);
    }
  }

  lemma LedgeredStep(s: State, step: Step)
    requires Good(s) && Ledgered(s)
    ensures Ledgered(Apply(s, step))
  {
    if AsksStripe(s, step) {
      var call := s.busy[step.rid];
      LedgeredAsk(s, step.rid, call.pid, call.amount, call.intent);
    } else {
      LedgeredOther(s, step);
    }
  }

  lemma {:induction false} LedgeredRun(s: State, steps: seq<Step>)
    requires Good(s) && Ledgered(s) && forall i | 0 <= i < |steps| :: Sane(steps[i])
    ensures Good(Run(s, steps)) && Ledgered(Run(s, steps))
    decreases |steps|
  {
    if steps != [] {
      GoodStep(s, steps[0]);
      LedgeredStep(s, steps[0]);
      LedgeredRun(Apply(s, steps[0]), steps[1..]);
    }
  }

  /** How often, and how much, Stripe has refunded under a key. */
  function RefundCount(ledger: seq<RefundEntry>, key: string): nat {
    if ledger == [] then 0
    else RefundCount(ledger[..|ledger| - 1], key) + if ledger[|ledger| - 1].key == key then 1 else 0
  }

  function RefundTotal(ledger: seq<RefundEntry>, key: string): int {
    if ledger == [] then 0
    else RefundTotal(ledger[..|ledger| - 1], key) + if ledger[|ledger| - 1].key == key then ledger[|ledger| - 1].amount else 0
  }

  lemma {:induction false} DistinctKeys(ledger: seq<RefundEntry>, key: string, most: nat)
    requires forall i, j | 0 <= i < j < |ledger| :: ledger[i].key != ledger[j].key
    requires forall i | 0 <= i < |ledger| && ledger[i].key == key :: 0 <= ledger[i].amount <= most
    ensures RefundCount(ledger, key) <= 1 && 0 <= RefundTotal(ledger, key) <= most
    ensures RefundCount(ledger, key) == 0 <==> forall i | 0 <= i < |ledger| :: ledger[i].key != key
    ensures RefundCount(ledger, key) == 0 ==> RefundTotal(ledger, key) == 0
  {
    if ledger != [] {
      DistinctKeys(ledger[..|ledger| - 1], key, most);
    }
  }

  /** A backed ledger without repeated keys refunds each payment once, and no more than it took. */
  lemma OneRefundPerKey(s: State, pid: nat)
    requires Good(s) && Ledgered(s) && pid in s.payments
    ensures RefundCount(s.ledger, RefundKey(pid)) <= 1
    ensures 0 <= RefundTotal(s.ledger, RefundKey(pid)) <= s.payments[pid].amount
  {
    forall i | 0 <= i < |s.ledger| && s.ledger[i].key == RefundKey(pid)
      ensures 0 <= s.ledger[i].amount <= s.payments[pid].amount
    {
      assert EntryBacked(s.payments, s.ledger[i]);
      var owner :| owner in s.payments && s.ledger[i].key == RefundKey(owner)
        && 0 <= s.ledger[i].amount <= s.payments[owner].amount;
      RefundKeyInjective(owner, pid);
    }
    DistinctKeys(s.ledger, RefundKey(pid), s.payments[pid].amount);
  }

  /** Over any run, with any crashes and retries, a payment is refunded at most once and never above its amount. */
  lemma RefundedAtMostOnce(s: State, steps: seq<Step>, pid: nat)
    requires Good(s) && Ledgered(s) && forall i | 0 <= i < |steps| :: Sane(steps[i])
    requires pid in Run(s, steps).payments
    ensures var end := Run(s, steps);
            RefundCount(end.ledger, RefundKey(pid)) <= 1
            && 0 <= RefundTotal(end.ledger, RefundKey(pid)) <= end.payments[pid].amount
  {
    LedgeredRun(s, steps);
    OneRefundPerKey(Run(s, steps), pid);
  }

  // ---- One attempt, run to its end ----

  /** A cancel of a confirmed reservation in which nothing crashes and neither Stripe nor the database fails. */
  function Attempt(userId: int, rid: int, startTime: int, table: seq<Policy>): seq<Step> {
    [Cancel(userId, rid, Some(startTime), table), Continue(rid, true, ""), Continue(rid, true, ""), Continue(rid, true, "")]
  }

  ghost predicate Refundable(s: State, userId: int, rid: int) {
    Good(s) && Ledgered(s) && rid !in s.busy && Owned(s, userId, rid) && s.reservations[rid].status == Confirmed && HasPayment(s.payments, rid)
  }

  /** What this attempt would ask Stripe for, if it has to ask at all. */
  ghost function Asked(s: State, rid: int, startTime: int, table: seq<Policy>): Option<RefundEntry>
    requires HasPayment(s.payments, rid)
  {
    var pid := PaymentOf(s.payments, rid);
    var p := s.payments[pid];
    var percent := RefundPercent(table, HoursUntil(startTime, s.now));
    if p.status == PaymentStatus.Refunded || !(percent > 0.0 && p.stripePaymentId.Some?) then None
    else Some(RefundEntry(RefundKey(pid), p.stripePaymentId.value, RefundAmount(p.amount, percent)))
  }

  /** Stripe has no objection: nothing was refunded under this key, or exactly the same was. */
  ghost predicate StripeAgrees(ledger: seq<RefundEntry>, entry: RefundEntry) {
    forall i | 0 <= i < |ledger| && ledger[i].key == entry.key :: ledger[i] == entry
  }

  lemma RunFour(s: State, q: seq<Step>)
    requires |q| == 4
    ensures Run(s, q) == Apply(Apply(Apply(Apply(s, q[0]), q[1]), q[2]), q[3])
  {
    assert q[1..][1..] == q[2..] && q[2..][1..] == q[3..] && q[3..][1..] == [];
    var s2 := Apply(Apply(s, q[0]), q[1]);
    assert Run(s2, q[2..]) == Run(Apply(s2, q[2]), q[3..]);
    assert Run(Apply(s2, q[2]), q[3..]) == Run(Apply(Apply(s2, q[2]), q[3]), []);
    assert Run(Apply(s, q[0]), q[1..]) == Run(s2, q[2..]);
  }

  /** Both rows of a finished refund. */
  ghost predicate Settled(s: State, rid: int) {
    && rid in s.reservations && s.reservations[rid].status == Cancelled
    && HasPayment(s.payments, rid) && s.payments[PaymentOf(s.payments, rid)].status == PaymentStatus.Refunded
    && rid !in s.busy
  }

  /** The last two writes of any refund, whichever way it got there. */
  lemma FinishFromMade(s: State, rid: int, refundId: Option<nat>)
    requires Good(s) && rid in s.busy && s.busy[rid] == RefundMade(s.busy[rid].pid, refundId)
    ensures Settled(Apply(Apply(s, Continue(rid, true, "")), Continue(rid, true, "")), rid)
    ensures Apply(Apply(s, Continue(rid, true, "")), Continue(rid, true, "")).ledger == s.ledger
  {
    var pid := s.busy[rid].pid;
    assert PendingOk(s, rid, s.busy[rid]);
    GoodContinue(s, rid, true, "");
    var written := Apply(s, Continue(rid, true, ""));
    assert written.busy[rid] == RefundWritten(pid) && written.payments[pid].status == PaymentStatus.Refunded;
    var end := Apply(written, Continue(rid, true, ""));
    assert end.payments == written.payments && end.payments[pid].reservationId == rid;
    GoodContinue(written, rid, true, "");
    assert PaymentOf(end.payments, rid) == pid;
  }

  /** Any call that reaches its last write leaves the payment REFUNDED and the reservation CANCELLED. */
  lemma LastWriteSettles(s: State, rid: int)
    requires Good(s) && rid in s.busy && s.busy[rid].RefundWritten?
    ensures Settled(Apply(s, Continue(rid, true, "")), rid)
  {
  }

  /** From REFUNDED with the reservation still CONFIRMED, a further cancel finishes without calling Stripe. */
  lemma RetryAfterRefunded(s: State, userId: int, rid: int, startTime: Option<int>, table: seq<Policy>)
    requires Refundable(s, userId, rid) && s.payments[PaymentOf(s.payments, rid)].status == PaymentStatus.Refunded
    ensures var end := Apply(s, Cancel(userId, rid, startTime, table));
            Settled(end, rid) && end.ledger == s.ledger && end.payments == s.payments
  {
  }

  lemma AttemptUnasked(s: State, userId: int, rid: int, startTime: int, table: seq<Policy>)
    requires Refundable(s, userId, rid) && Percents(table) && Asked(s, rid, startTime, table).None?
    ensures var end := Run(s, Attempt(userId, rid, startTime, table)); Settled(end, rid) && end.ledger == s.ledger
  {
    var q := Attempt(userId, rid, startTime, table);
    RunFour(s, q);
    var s1 := Apply(s, q[0]);
    GoodStep(s, q[0]);
    if s.payments[PaymentOf(s.payments, rid)].status == PaymentStatus.Refunded {
      RetryAfterRefunded(s, userId, rid, Some(startTime), table);
    } else {
      assert s1.busy[rid] == RefundMade(PaymentOf(s.payments, rid), None);
      FinishFromMade(s1, rid, None);
    }
  }

  /** Stripe's answer to one request: agreement leads to the last two writes, refusal to nothing. */
  lemma AskOutcome(s: State, rid: int, pid: nat, entry: RefundEntry)
    requires Good(s) && rid in s.busy && s.busy[rid] == RefundAsked(pid, entry.amount, entry.intent)
    requires entry.key == RefundKey(pid)
    requires forall i, j | 0 <= i < j < |s.ledger| :: s.ledger[i].key != s.ledger[j].key
    ensures var after := AskStripe(s, rid, pid, entry.amount, entry.intent);
            if StripeAgrees(s.ledger, entry) then rid in after.busy && after.busy[rid].RefundMade? && after.busy[rid].pid == pid
            else after == Done(s, rid)
  {
    FindKeySpec(s.ledger, entry.key);
  }

  lemma StartAsking(s: State, userId: int, rid: int, startTime: int, table: seq<Policy>)
    requires Refundable(s, userId, rid) && Percents(table) && Asked(s, rid, startTime, table).Some?
    ensures var entry := Asked(s, rid, startTime, table).value;
            var s1 := s.(busy := s.busy[rid := RefundAsked(PaymentOf(s.payments, rid), entry.amount, entry.intent)]);
            && Apply(s, Cancel(userId, rid, Some(startTime), table)) == s1 && Good(s1)
            && Done(s1, rid) == s && entry.key == RefundKey(PaymentOf(s.payments, rid))
  {
    GoodStep(s, Cancel(userId, rid, Some(startTime), table));
    var s1 := Apply(s, Cancel(userId, rid, Some(startTime), table));
    assert s1.busy - {rid} == s.busy;
  }

  lemma AttemptAsking(s: State, userId: int, rid: int, startTime: int, table: seq<Policy>)
    requires Refundable(s, userId, rid) && Percents(table) && Asked(s, rid, startTime, table).Some?
    ensures var end := Run(s, Attempt(userId, rid, startTime, table));
            if StripeAgrees(s.ledger, Asked(s, rid, startTime, table).value) then Settled(end, rid) else end == s
  {
    RunFour(s, Attempt(userId, rid, startTime, table));
    StartAsking(s, userId, rid, startTime, table);
    var entry := Asked(s, rid, startTime, table).value;
    var s1 := Apply(s, Cancel(userId, rid, Some(startTime), table));
    AfterAsking(s1, rid, s1.busy[rid].pid, entry);
  }

  lemma AfterAsking(s1: State, rid: int, pid: nat, entry: RefundEntry)
    requires Good(s1) && rid in s1.busy && s1.busy[rid] == RefundAsked(pid, entry.amount, entry.intent)
    requires entry.key == RefundKey(pid)
    requires forall i, j | 0 <= i < j < |s1.ledger| :: s1.ledger[i].key != s1.ledger[j].key
    ensures var next := Continue(rid, true, "");
            var end := Apply(Apply(Apply(s1, next), next), next);
            if StripeAgrees(s1.ledger, entry) then Settled(end, rid) else end == Done(s1, rid)
  {
    AskOutcome(s1, rid, pid, entry);
    GoodContinue(s1, rid, true, "");
    AttemptTail(s1, rid, entry, AskStripe(s1, rid, pid, entry.amount, entry.intent));
  }

  lemma AttemptTail(s1: State, rid: int, entry: RefundEntry, s2: State)
    requires Good(s2)
    requires if StripeAgrees(s1.ledger, entry) then rid in s2.busy && s2.busy[rid].RefundMade? else s2 == Done(s1, rid)
    ensures var end := Apply(Apply(s2, Continue(rid, true, "")), Continue(rid, true, ""));
            if StripeAgrees(s1.ledger, entry) then Settled(end, rid) else end == s2
  {
    if StripeAgrees(s1.ledger, entry) {
      FinishFromMade(s2, rid, s2.busy[rid].refundId);
    }
  }

  /** A complete attempt settles the booking exactly when it need not ask Stripe, or Stripe agrees;
      otherwise it changes nothing at all. */
  lemma AttemptSettlesIff(s: State, userId: int, rid: int, startTime: int, table: seq<Policy>)
    requires Refundable(s, userId, rid) && Percents(table)
    ensures var end := Run(s, Attempt(userId, rid, startTime, table));
            var asked := Asked(s, rid, startTime, table);
            && (Settled(end, rid) <==> asked.None? || StripeAgrees(s.ledger, asked.value))
            && (!Settled(end, rid) ==> end == s)
            && (asked.None? ==> end.ledger == s.ledger)
  {
    if Asked(s, rid, startTime, table).None? {
      AttemptUnasked(s, userId, rid, startTime, table);
    } else {
      AttemptAsking(s, userId, rid, startTime, table);
    }
  }

  /** The same from the empty system. */
  lemma RefundedOnceEver(now: int, steps: seq<Step>, pid: nat)
    requires forall i | 0 <= i < |steps| :: Sane(steps[i])
    requires pid in Run(Initial(now), steps).payments
    ensures var end := Run(Initial(now), steps);
            RefundCount(end.ledger, RefundKey(pid)) <= 1
            && 0 <= RefundTotal(end.ledger, RefundKey(pid)) <= end.payments[pid].amount
  {
    RefundedAtMostOnce(Initial(now), steps, pid);
  }

  // ---- A refund that no retry can finish ----

  /** Booked in full, cancelled while 100% are due, crashed after Stripe's answer, and `t` has come. */
  function Stuck(t: int): seq<Step> {
    BookIt + [CancelIt, Continue(Rid, true, "")] + [Crash(Rid), Tick(t)]
  }

  const FullRefund := RefundEntry(RefundKey(Pid), "pi", 1000)

  lemma FullAsked()
    ensures Run(Booked, [CancelIt, Continue(Rid, true, "")]) == Only(ConfirmedRow(Row), Paid, [FullRefund], map[Rid := RefundMade(Pid, Some(0))])
  {
    RunTwo(Booked, CancelIt, Continue(Rid, true, ""));
    SeededPercent(HoursUntil(InTwoDays, Today));
    assert HoursUntil(InTwoDays, Today) == 48.0;
    assert HasPayment(Booked.payments, Rid) && PaymentOf(Booked.payments, Rid) == Pid;
    assert RefundAmount(1000, 100.0) == 1000;
    assert Apply(Booked, CancelIt) == Only(ConfirmedRow(Row), Paid, [], map[Rid := RefundAsked(Pid, 1000, "pi")]);
    assert [] + [FullRefund] == [FullRefund];
  }

  const Asked100 := Only(ConfirmedRow(Row), Paid, [FullRefund], map[Rid := RefundMade(Pid, Some(0))])

  lemma AskedRun()
    ensures Run(Initial(Today), BookIt + [CancelIt, Continue(Rid, true, "")]) == Asked100
  {
    BookedRun();
    FullAsked();
    RunConcat(Initial(Today), BookIt, [CancelIt, Continue(Rid, true, "")]);
  }

  lemma CrashedRun(t: int)
    requires Today < t
    ensures Run(Asked100, [Crash(Rid), Tick(t)]) == Only(ConfirmedRow(Row), Paid, [FullRefund], map[]).(now := t)
  {
    RunTwo(Asked100, Crash(Rid), Tick(t));
    assert map[Rid := RefundMade(Pid, Some(0))] - {Rid} == map[];
  }

  lemma StuckState(t: int)
    requires Today < t
    ensures Run(Initial(Today), Stuck(t)) == Only(ConfirmedRow(Row), Paid, [FullRefund], map[]).(now := t)
  {
    AskedRun();
    CrashedRun(t);
    RunConcat(Initial(Today), BookIt + [CancelIt, Continue(Rid, true, "")], [Crash(Rid), Tick(t)]);
  }

  lemma StuckGood(t: int)
    ensures Good(Run(Initial(Today), Stuck(t))) && Ledgered(Run(Initial(Today), Stuck(t)))
  {
    LedgeredRun(Initial(Today), Stuck(t));
  }

  /** In the 50% band every complete attempt then changes nothing: Stripe has paid the customer back in full,
      the payment says SUCCEEDED and the seat stays CONFIRMED. */
  lemma StuckRefund(t: int)
    requires Today < t <= InTwoDays - 24 * 60 * MINUTE
    ensures var s := Run(Initial(Today), Stuck(t));
            && Refundable(s, Alice, Rid) && RefundTotal(s.ledger, RefundKey(Pid)) == 1000
            && Run(s, Attempt(Alice, Rid, InTwoDays, Seeded())) == s && !Settled(s, Rid)
  {
    var s := Run(Initial(Today), Stuck(t));
    StuckState(t);
    StuckGood(t);
    assert HasPayment(s.payments, Rid) && PaymentOf(s.payments, Rid) == Pid;
    SeededPercent(HoursUntil(InTwoDays, t));
    assert RefundAmount(1000, 50.0) == 500;
    assert s.ledger[0].key == RefundKey(Pid) && s.ledger[0].amount == 1000;
    AttemptSettlesIff(s, Alice, Rid, InTwoDays, Seeded());
    assert [FullRefund][..0] == [];
  }

  /** The key is the prefix and the payment's id in decimal. */
  lemma RefundKeyText()
    ensures RefundKey(7) == "refund-7" && RefundKey(42) == "refund-42"
  {
    assert Decimal(42) == "42";
  }

  lemma AttemptLedger(s: State, userId: int, rid: int, startTime: int, table: seq<Policy>)
    requires Refundable(s, userId, rid) && Percents(table) && Asked(s, rid, startTime, table).Some?
    requires FindKey(s.ledger, RefundKey(PaymentOf(s.payments, rid))).None?
    ensures Run(s, Attempt(userId, rid, startTime, table)).ledger == s.ledger + [Asked(s, rid, startTime, table).value]
  {
    RunFour(s, Attempt(userId, rid, startTime, table));
    StartAsking(s, userId, rid, startTime, table);
    AskMoves(Apply(s, Cancel(userId, rid, Some(startTime), table)), rid, PaymentOf(s.payments, rid), Asked(s, rid, startTime, table).value);
  }

  /** What an attempt asks for is the percent of the amount, rounded half up, from the payment's own intent. */
  lemma AskedAmount(s: State, rid: int, startTime: int, table: seq<Policy>)
    requires Good(s) && HasPayment(s.payments, rid) && Percents(table) && Asked(s, rid, startTime, table).Some?
    ensures var entry := Asked(s, rid, startTime, table).value; var p := s.payments[PaymentOf(s.payments, rid)];
            && entry.key == RefundKey(PaymentOf(s.payments, rid)) && p.stripePaymentId == Some(entry.intent)
            && var exact := p.amount as real * RefundPercent(table, HoursUntil(startTime, s.now)) / 100.0;
               -0.5 < entry.amount as real - exact <= 0.5
  {
    PercentInRange(table, HoursUntil(startTime, s.now));
    RefundWithinAmount(s.payments[PaymentOf(s.payments, rid)].amount, RefundPercent(table, HoursUntil(startTime, s.now)));
  }

  /** A first attempt moves that amount, and no other money. */
  lemma AttemptMoves(s: State, userId: int, rid: int, startTime: int, table: seq<Policy>, moved: RefundEntry)
    requires Refundable(s, userId, rid) && Percents(table) && Asked(s, rid, startTime, table) == Some(moved)
    requires FindKey(s.ledger, RefundKey(PaymentOf(s.payments, rid))).None?
    ensures Run(s, Attempt(userId, rid, startTime, table)).ledger == s.ledger + [moved]
    ensures var p := s.payments[PaymentOf(s.payments, rid)];
            var exact := p.amount as real * RefundPercent(table, HoursUntil(startTime, s.now)) / 100.0;
            moved.key == RefundKey(PaymentOf(s.payments, rid)) && p.stripePaymentId == Some(moved.intent)
            && -0.5 < moved.amount as real - exact <= 0.5
  {
    AttemptLedger(s, userId, rid, startTime, table);
    AskedAmount(s, rid, startTime, table);
  }

  lemma AskMoves(s1: State, rid: int, pid: nat, entry: RefundEntry)
    requires Good(s1) && rid in s1.busy && s1.busy[rid] == RefundAsked(pid, entry.amount, entry.intent)
    requires entry.key == RefundKey(pid) && FindKey(s1.ledger, entry.key).None?
    ensures var next := Continue(rid, true, ""); Apply(Apply(Apply(s1, next), next), next).ledger == s1.ledger + [entry]
  {
    var s2 := AskStripe(s1, rid, pid, entry.amount, entry.intent);
    assert s2.ledger == s1.ledger + [entry] && s2.busy[rid] == RefundMade(pid, Some(|s1.ledger|));
    assert Apply(s1, Continue(rid, true, "")) == s2;
    GoodContinue(s1, rid, true, "");
    FinishFromMade(s2, rid, Some(|s1.ledger|));
  }
}
