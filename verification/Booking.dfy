/** The booking protocol: reservations, payments, Stripe's refund ledger, and calls that may crash
    between any two writes. Calls on one reservation are serialised; everything else interleaves. */
module Booking {
  import opened Tables
  import opened Decimals
  import opened Refunds

  datatype PaymentStatus = Pending | InProgress | Succeeded | Declined | TimedOut | Failed | Refunded

  datatype Payment = Payment(
    reservationId: int,
    amount: int,
    status: PaymentStatus,
    stripePaymentId: Option<string>,
    stripeSessionId: string,
    stripeEventId: Option<string>,
    refundId: Option<nat>,
    disputeReason: Option<string>,
    createdAt: int)

  type Payments = map<nat, Payment>

  /** One refund Stripe has carried out; its position in the ledger is its refund id. */
  datatype RefundEntry = RefundEntry(key: string, intent: string, amount: int)

  /** Where an unfinished call on a reservation stands: what it has written and what it will do next. */
  datatype Pending =
    | CheckoutStarted(pid: nat)
    | CheckoutStored(pid: nat, until: int)
    | CheckoutFailed(pid: nat)
    | PaidConfirmed(pid: nat, eventId: string, intent: string)
    | RefundAsked(pid: nat, amount: int, intent: string)
    | RefundMade(pid: nat, refundId: Option<nat>)
    | RefundWritten(pid: nat)
  {
    predicate Checkout() {
      CheckoutStarted? || CheckoutStored? || CheckoutFailed?
    }
  }

  datatype State = State(
    reservations: Reservations,
    nextReservation: int,
    payments: Payments,
    nextPayment: nat,
    ledger: seq<RefundEntry>,
    busy: map<int, Pending>,
    now: int,
    lastSweep: int)

  datatype EventBody =
    | Completed(pid: nat, paid: bool, intent: string)
    | AsyncFailed(pid: nat)
    | SessionExpired(pid: nat)
    | Dispute(disputed: string, reason: string)
    | OtherEvent

  datatype Event = Event(id: string, body: EventBody)

  datatype Step =
    | Tick(to: int)
    | Sweep
    | Reserve(userId: int, screeningId: int, seatId: int, asked: int)
    | Checkout(userId: int, rid: int, price: Option<nat>)
    | Cancel(userId: int, rid: int, startTime: Option<int>, table: seq<Policy>)
    | Deliver(event: Event)
    | ReconcilePaid(pid: nat, intent: string)
    | ReconcileUnpaid(pid: nat)
    | Continue(rid: int, ok: bool, session: string)
    | Crash(rid: int)

  const CHECKOUT_EXPIRY_MINUTES := 30

  // ---- Single writes ----

  /** The unique columns of the payment table. */
  predicate PaymentFits(payments: Payments, pid: nat, p: Payment) {
    forall q | q in payments && q != pid ::
      && payments[q].reservationId != p.reservationId
      && (p.stripeEventId.Some? ==> payments[q].stripeEventId != p.stripeEventId)
      && (p.stripePaymentId.Some? ==> payments[q].stripePaymentId != p.stripePaymentId)
  }

  /** An update fails on a missing row or on a unique column. */
  predicate CanUpdate(payments: Payments, pid: nat, p: Payment) {
    pid in payments && PaymentFits(payments, pid, p)
  }

  predicate HasPayment(payments: Payments, rid: int) {
    exists pid | pid in payments :: payments[pid].reservationId == rid
  }

  /** findByReservationId. */
  ghost function PaymentOf(payments: Payments, rid: int): nat
    requires HasPayment(payments, rid)
    ensures PaymentOf(payments, rid) in payments && payments[PaymentOf(payments, rid)].reservationId == rid
  {
    var pid :| pid in payments && payments[pid].reservationId == rid; pid
  }

  /** findByStripeEventId finds a row. */
  predicate Recorded(payments: Payments, eventId: string) {
    exists pid | pid in payments :: payments[pid].stripeEventId == Some(eventId)
  }

  predicate HasIntent(payments: Payments, intent: string) {
    exists pid | pid in payments :: payments[pid].stripePaymentId == Some(intent)
  }

  ghost function PaymentWithIntent(payments: Payments, intent: string): nat
    requires HasIntent(payments, intent)
    ensures PaymentWithIntent(payments, intent) in payments
    ensures payments[PaymentWithIntent(payments, intent)].stripePaymentId == Some(intent)
  {
    var pid :| pid in payments && payments[pid].stripePaymentId == Some(intent); pid
  }

  function RefundKey(pid: nat): string {
    "refund-" + Decimal(pid)
  }

  function FindKey(ledger: seq<RefundEntry>, key: string): Option<nat> {
    if ledger == [] then None
    else if ledger[|ledger| - 1].key == key then Some(|ledger| - 1)
    else FindKey(ledger[..|ledger| - 1], key)
  }

  /** Stripe's refunds.create under an idempotency key: a known key replays the first answer when the
      request is the same and is an error otherwise; a new key moves money. */
  function StripeRefund(ledger: seq<RefundEntry>, entry: RefundEntry): (r: (Option<nat>, seq<RefundEntry>)) {
    match FindKey(ledger, entry.key)
    case Some(i) => (if i < |ledger| && ledger[i] == entry then Some(i) else None, ledger)
    case None => (Some(|ledger|), ledger + [entry])
  }

  // ---- Calls, one atomic piece at a time ----

  function Done(s: State, rid: int): State {
    s.(busy := s.busy - {rid})
  }

  ghost function DoReserve(s: State, userId: int, screeningId: int, seatId: int, asked: int): State {
    if asked > s.now || Taken(s.reservations, screeningId, seatId) then s
    else
      var row := Reservation(userId, screeningId, seatId, Held, Some(asked + HOLD_MINUTES * MINUTE), s.now);
      s.(reservations := s.reservations[s.nextReservation := row], nextReservation := s.nextReservation + 1)
  }

  predicate Owned(s: State, userId: int, rid: int) {
    rid in s.reservations && s.reservations[rid].userId == userId
  }

  ghost function StartCheckout(s: State, userId: int, rid: int, price: Option<nat>): State {
    if rid in s.busy || !Owned(s, userId, rid) || s.reservations[rid].status != Held
       || HasPayment(s.payments, rid) || price.None? then s
    else
      var p := Payment(rid, price.value * 100, PaymentStatus.Pending, None, "", None, None, None, s.now);
      s.(payments := s.payments[s.nextPayment := p], nextPayment := s.nextPayment + 1,
         busy := s.busy[rid := CheckoutStarted(s.nextPayment)])
  }

  /** Stripe counts the session's expiry in whole seconds. */
  function SessionExpiry(now: int): int {
    (now / 1000 + CHECKOUT_EXPIRY_MINUTES * 60) * 1000
  }

  ghost function StartCancel(s: State, userId: int, rid: int, startTime: Option<int>, table: seq<Policy>): State {
    if rid in s.busy || !Owned(s, userId, rid) then s
    else match s.reservations[rid].status
      case Cancelled => s
      case Held => CancelRow(s, rid)
      case Confirmed => StartRefund(s, rid, startTime, table)
  }

  /** finalizeCancel's write: the status changes, the deadline stays. */
  function CancelRow(s: State, rid: int): State {
    if rid in s.reservations then s.(reservations := s.reservations[rid := s.reservations[rid].(status := Cancelled)])
    else s
  }

  ghost function StartRefund(s: State, rid: int, startTime: Option<int>, table: seq<Policy>): State {
    if !HasPayment(s.payments, rid) then s
    else
      var pid := PaymentOf(s.payments, rid);
      var p := s.payments[pid];
      if p.status == Refunded then CancelRow(s, rid)
      else if startTime.None? then s
      else
        var percent := RefundPercent(table, HoursUntil(startTime.value, s.now));
        if percent > 0.0 && p.stripePaymentId.Some? then
          s.(busy := s.busy[rid := RefundAsked(pid, RefundAmount(p.amount, percent), p.stripePaymentId.value)])
        else s.(busy := s.busy[rid := RefundMade(pid, None)])
  }

  ghost function DoDeliver(s: State, event: Event): State {
    if Recorded(s.payments, event.id) then s
    else match event.body
      case Completed(pid, paid, intent) =>
        if pid !in s.payments || s.payments[pid].reservationId in s.busy then s
        else if paid then StartPaid(s, pid, event.id, intent)
        else Mark(s, pid, s.payments[pid].(status := InProgress, stripeEventId := Some(event.id)))
      case AsyncFailed(pid) =>
        if pid !in s.payments || s.payments[pid].reservationId in s.busy then s
        else Mark(s, pid, s.payments[pid].(status := Failed, stripeEventId := Some(event.id)))
      case SessionExpired(pid) =>
        if pid !in s.payments || s.payments[pid].reservationId in s.busy then s
        else Mark(s, pid, s.payments[pid].(status := TimedOut, stripeEventId := Some(event.id)))
      case Dispute(intent, reason) =>
        if !HasIntent(s.payments, intent) then s
        else
          var pid := PaymentWithIntent(s.payments, intent);
          if s.payments[pid].reservationId in s.busy then s
          else Mark(s, pid, s.payments[pid].(disputeReason := Some(reason), stripeEventId := Some(event.id)))
      case OtherEvent => s
  }

  function Mark(s: State, pid: nat, p: Payment): State {
    if CanUpdate(s.payments, pid, p) then s.(payments := s.payments[pid := p]) else s
  }

  /** The confirm of a paid webhook; when it throws, nothing at all has been written. */
  function StartPaid(s: State, pid: nat, eventId: string, intent: string): State
    requires pid in s.payments
  {
    var rid := s.payments[pid].reservationId;
    if rid !in s.reservations || !IndexAllows(s.reservations, rid, ConfirmedRow(s.reservations[rid])) then s
    else s.(reservations := s.reservations[rid := ConfirmedRow(s.reservations[rid])],
            busy := s.busy[rid := PaidConfirmed(pid, eventId, intent)])
  }

  /** confirmWithReservation: both rows or neither. */
  function DoReconcilePaid(s: State, pid: nat, intent: string): State {
    if pid !in s.payments || s.payments[pid].reservationId in s.busy then s
    else
      var rid := s.payments[pid].reservationId;
      var p := s.payments[pid].(status := Succeeded, stripePaymentId := Some(intent));
      if !PaymentFits(s.payments, pid, p) || rid !in s.reservations
         || !IndexAllows(s.reservations, rid, ConfirmedRow(s.reservations[rid])) then s
      else s.(payments := s.payments[pid := p], reservations := s.reservations[rid := ConfirmedRow(s.reservations[rid])])
  }

  /** declineWithReservation: both rows or neither. */
  function DoReconcileUnpaid(s: State, pid: nat): State {
    if pid !in s.payments || s.payments[pid].reservationId in s.busy then s
    else
      var rid := s.payments[pid].reservationId;
      if rid !in s.reservations then s
      else CancelRow(s.(payments := s.payments[pid := s.payments[pid].(status := Declined)]), rid)
  }

  function HoldUntil(s: State, rid: int, until: int): State
    requires rid in s.reservations
  {
    s.(reservations := s.reservations[rid := s.reservations[rid].(heldUntil := Some(until))])
  }

  function ContinueCheckout(s: State, rid: int, call: Pending, ok: bool, session: string): State
    requires call.Checkout()
  {
    match call
    case CheckoutStarted(pid) =>
      if ok && pid in s.payments then
        s.(payments := s.payments[pid := s.payments[pid].(stripeSessionId := session)],
           busy := s.busy[rid := CheckoutStored(pid, SessionExpiry(s.now))])
      else s.(busy := s.busy[rid := CheckoutFailed(pid)])
    case CheckoutStored(pid, until) =>
      if ok && rid in s.reservations then
        Done(HoldUntil(s, rid, until), rid)
      else s.(busy := s.busy[rid := CheckoutFailed(pid)])
    case CheckoutFailed(pid) =>
      if ok then Done(s.(payments := s.payments - {pid}), rid) else Done(s, rid)
  }

  function RecordedPayment(p: Payment, eventId: string, intent: string): Payment {
    p.(status := Succeeded, stripeEventId := Some(eventId), stripePaymentId := Some(intent))
  }

  function ContinuePaid(s: State, rid: int, pid: nat, eventId: string, intent: string): State {
    if pid in s.payments then
      Done(Mark(s, pid, RecordedPayment(s.payments[pid], eventId, intent)), rid)
    else Done(s, rid)
  }

  function AskStripe(s: State, rid: int, pid: nat, amount: int, intent: string): State {
    var (refundId, ledger) := StripeRefund(s.ledger, RefundEntry(RefundKey(pid), intent, amount));
    if refundId.None? then Done(s, rid)
    else s.(ledger := ledger, busy := s.busy[rid := RefundMade(pid, refundId)])
  }

  /** An undefined refund id leaves the column as it was. */
  function WriteRefunded(s: State, rid: int, pid: nat, refundId: Option<nat>): State {
    if pid !in s.payments then Done(s, rid)
    else
      var p := s.payments[pid];
      s.(payments := s.payments[pid := p.(status := Refunded, refundId := if refundId.Some? then refundId else p.refundId)],
         busy := s.busy[rid := RefundWritten(pid)])
  }

  /** The next write (or Stripe call) of an unfinished call; `ok` is false when it throws, which ends
      every call except a checkout, whose catch block still has a row to delete. */
  function DoContinue(s: State, rid: int, ok: bool, session: string): State
    requires rid in s.busy
  {
    var call := s.busy[rid];
    if call.Checkout() then ContinueCheckout(s, rid, call, ok, session)
    else if !ok then Done(s, rid)
    else match call
      case PaidConfirmed(pid, eventId, intent) => ContinuePaid(s, rid, pid, eventId, intent)
      case RefundAsked(pid, amount, intent) => AskStripe(s, rid, pid, amount, intent)
      case RefundMade(pid, refundId) => WriteRefunded(s, rid, pid, refundId)
      case RefundWritten(pid) => Done(CancelRow(s, rid), rid)
  }

  /** One atomic step of the whole system; a step that is not enabled changes nothing. */
  ghost function Apply(s: State, step: Step): State {
    match step
    case Tick(to) => if to > s.now then s.(now := to) else s
    case Sweep => s.(reservations := Swept(s.reservations, s.now), lastSweep := s.now)
    case Reserve(userId, screeningId, seatId, asked) => DoReserve(s, userId, screeningId, seatId, asked)
    case Checkout(userId, rid, price) => StartCheckout(s, userId, rid, price)
    case Cancel(userId, rid, startTime, table) => StartCancel(s, userId, rid, startTime, table)
    case Deliver(event) => DoDeliver(s, event)
    case ReconcilePaid(pid, intent) => DoReconcilePaid(s, pid, intent)
    case ReconcileUnpaid(pid) => DoReconcileUnpaid(s, pid)
    case Continue(rid, ok, session) => if rid in s.busy then DoContinue(s, rid, ok, session) else s
    case Crash(rid) => Done(s, rid)
  }

  ghost function Run(s: State, steps: seq<Step>): State
    decreases |steps|
  {
    if steps == [] then s else Run(Apply(s, steps[0]), steps[1..])
  }

  lemma {:induction false} RunConcat(s: State, a: seq<Step>, b: seq<Step>)
    ensures Run(s, a + b) == Run(Run(s, a), b)
    decreases |a|
  {
    if a == [] {
      assert a + b == b;
    } else {
      assert (a + b)[0] == a[0] && (a + b)[1..] == a[1..] + b;
      RunConcat(Apply(s, a[0]), a[1..], b);
    }
  }

  lemma RunOne(s: State, a: Step)
    ensures Run(s, [a]) == Apply(s, a)
  {
    assert [a][1..] == [] && Run(Apply(s, a), []) == Apply(s, a);
  }

  // ---- What every reachable state satisfies ----

  ghost predicate UniquePayments(payments: Payments) {
    forall p, q | p in payments && q in payments && p != q ::
      && payments[p].reservationId != payments[q].reservationId
      && (payments[p].stripeEventId.Some? ==> payments[p].stripeEventId != payments[q].stripeEventId)
      && (payments[p].stripePaymentId.Some? ==> payments[p].stripePaymentId != payments[q].stripePaymentId)
  }

  /** Nothing but the checkout that created it has touched this payment. */
  predicate Fresh(p: Payment) {
    p.status == PaymentStatus.Pending && p.stripePaymentId.None? && p.stripeEventId.None?
  }

  ghost predicate PendingOk(s: State, rid: int, call: Pending) {
    && rid in s.reservations
    && call.pid in s.payments && s.payments[call.pid].reservationId == rid
    && (call.Checkout() ==> Fresh(s.payments[call.pid]))
    && (call.PaidConfirmed? ==> s.reservations[rid].status == Confirmed)
    && (call.RefundAsked? ==> s.payments[call.pid].stripePaymentId.Some? && 0 <= call.amount <= s.payments[call.pid].amount)
    && (call.RefundWritten? ==> s.payments[call.pid].status == Refunded)
  }

  /** Keys, foreign keys and unique columns. */
  ghost predicate Consistent(s: State) {
    && UniqueActive(s.reservations)
    && (forall rid | rid in s.reservations :: rid < s.nextReservation)
    && (forall pid | pid in s.payments :: pid < s.nextPayment && s.payments[pid].reservationId in s.reservations
          && s.payments[pid].amount >= 0)
    && UniquePayments(s.payments)
    && (forall rid | rid in s.busy :: PendingOk(s, rid, s.busy[rid]))
  }

  /** Nobody's money is taken for a seat they do not have. */
  ghost predicate PaidMeansConfirmed(s: State) {
    forall pid | pid in s.payments && s.payments[pid].status == Succeeded ::
      s.payments[pid].reservationId in s.reservations && s.reservations[s.payments[pid].reservationId].status == Confirmed
  }

  ghost predicate Good(s: State) {
    Consistent(s) && PaidMeansConfirmed(s)
  }

  /** The inputs the code takes on trust: percents between 0 and 100. */
  predicate Sane(step: Step) {
    step.Cancel? ==> Percents(step.table)
  }

  lemma GoodTick(s: State, to: int)
    requires Good(s)
    ensures Good(Apply(s, Tick(to)))
  {
  }

  lemma GoodSweep(s: State)
    requires Good(s)
    ensures Good(Apply(s, Sweep))
  {
  }

  lemma GoodReserve(s: State, userId: int, screeningId: int, seatId: int, asked: int)
    requires Good(s)
    ensures Good(DoReserve(s, userId, screeningId, seatId, asked))
  {
  }

  /** An unfinished call moves on to its next write. */
  lemma GoodNext(s: State, rid: int, call: Pending)
    requires Good(s) && PendingOk(s, rid, call)
    ensures Good(s.(busy := s.busy[rid := call]))
  {
  }

  lemma GoodHold(s: State, rid: int, until: int)
    requires Good(s) && rid in s.reservations
    ensures Good(HoldUntil(s, rid, until))
  {
  }

  /** One payment row changes, in a way its reservation and its unfinished call allow. */
  lemma GoodPayment(s: State, pid: nat, p: Payment)
    requires Good(s) && CanUpdate(s.payments, pid, p)
    requires p.reservationId == s.payments[pid].reservationId && p.amount == s.payments[pid].amount
    requires p.status == Succeeded ==> s.reservations[p.reservationId].status == Confirmed
    requires p.reservationId in s.busy ==> PendingOk(s.(payments := s.payments[pid := p]), p.reservationId, s.busy[p.reservationId])
    ensures Good(s.(payments := s.payments[pid := p]))
  {
  }

  lemma GoodDelete(s: State, pid: nat)
    requires Good(s) && pid in s.payments && s.payments[pid].reservationId !in s.busy
    ensures Good(s.(payments := s.payments - {pid}))
  {
  }

  lemma GoodCheckout(s: State, userId: int, rid: int, price: Option<nat>)
    requires Good(s)
    ensures Good(StartCheckout(s, userId, rid, price))
  {
    if StartCheckout(s, userId, rid, price) != s {
      var p := Payment(rid, price.value * 100, PaymentStatus.Pending, None, "", None, None, None, s.now);
      GoodNewPayment(s, p);
      GoodNext(s.(payments := s.payments[s.nextPayment := p], nextPayment := s.nextPayment + 1), rid, CheckoutStarted(s.nextPayment));
    }
  }

  lemma GoodNewPayment(s: State, p: Payment)
    requires Good(s) && Fresh(p) && p.amount >= 0 && p.reservationId in s.reservations && !HasPayment(s.payments, p.reservationId)
    ensures Good(s.(payments := s.payments[s.nextPayment := p], nextPayment := s.nextPayment + 1))
  {
  }

  lemma GoodCancelRow(s: State, rid: int)
    requires Good(s)
    requires rid in s.busy ==> !s.busy[rid].PaidConfirmed?
    requires forall pid | pid in s.payments && s.payments[pid].reservationId == rid :: s.payments[pid].status != Succeeded
    ensures Good(CancelRow(s, rid))
  {
  }

  lemma GoodStartRefund(s: State, rid: int, startTime: Option<int>, table: seq<Policy>)
    requires Good(s) && Percents(table) && rid in s.reservations && rid !in s.busy
    ensures Good(StartRefund(s, rid, startTime, table))
  {
    if HasPayment(s.payments, rid) {
      var pid := PaymentOf(s.payments, rid);
      if s.payments[pid].status == Refunded {
        GoodCancelRow(s, rid);
      } else if startTime.Some? {
        var percent := RefundPercent(table, HoursUntil(startTime.value, s.now));
        PercentInRange(table, HoursUntil(startTime.value, s.now));
        RefundWithinAmount(s.payments[pid].amount, percent);
        if percent > 0.0 && s.payments[pid].stripePaymentId.Some? {
          GoodNext(s, rid, RefundAsked(pid, RefundAmount(s.payments[pid].amount, percent), s.payments[pid].stripePaymentId.value));
        } else {
          GoodNext(s, rid, RefundMade(pid, None));
        }
      }
    }
  }

  lemma GoodCancel(s: State, userId: int, rid: int, startTime: Option<int>, table: seq<Policy>)
    requires Good(s) && Percents(table)
    ensures Good(StartCancel(s, userId, rid, startTime, table))
  {
    if rid !in s.busy && Owned(s, userId, rid) {
      if s.reservations[rid].status == Held {
        GoodCancelRow(s, rid);
      } else if s.reservations[rid].status == Confirmed {
        GoodStartRefund(s, rid, startTime, table);
      }
    }
  }

  /** Only status and Stripe columns of one idle payment change. */
  lemma GoodMark(s: State, pid: nat, p: Payment)
    requires Good(s) && pid in s.payments && s.payments[pid].reservationId !in s.busy
    requires p.reservationId == s.payments[pid].reservationId && p.amount == s.payments[pid].amount
    requires p.status == Succeeded ==> s.payments[pid].status == Succeeded
    ensures Good(Mark(s, pid, p))
  {
    if CanUpdate(s.payments, pid, p) {
      GoodPayment(s, pid, p);
    }
  }

  lemma GoodConfirm(s: State, rid: int)
    requires Good(s) && rid in s.reservations && rid !in s.busy
    requires IndexAllows(s.reservations, rid, ConfirmedRow(s.reservations[rid]))
    ensures Good(s.(reservations := s.reservations[rid := ConfirmedRow(s.reservations[rid])]))
  {
  }

  lemma GoodStartPaid(s: State, pid: nat, eventId: string, intent: string)
    requires Good(s) && pid in s.payments && s.payments[pid].reservationId !in s.busy
    ensures Good(StartPaid(s, pid, eventId, intent))
  {
    var rid := s.payments[pid].reservationId;
    if IndexAllows(s.reservations, rid, ConfirmedRow(s.reservations[rid])) {
      GoodConfirm(s, rid);
      GoodNext(s.(reservations := s.reservations[rid := ConfirmedRow(s.reservations[rid])]), rid, PaidConfirmed(pid, eventId, intent));
    }
  }

  lemma GoodDeliver(s: State, event: Event)
    requires Good(s)
    ensures Good(DoDeliver(s, event))
  {
    if DoDeliver(s, event) != s {
      match event.body
      case Completed(pid, paid, intent) =>
        if paid { GoodStartPaid(s, pid, event.id, intent); }
        else { GoodMark(s, pid, s.payments[pid].(status := InProgress, stripeEventId := Some(event.id))); }
      case AsyncFailed(pid) => GoodMark(s, pid, s.payments[pid].(status := Failed, stripeEventId := Some(event.id)));
      case SessionExpired(pid) => GoodMark(s, pid, s.payments[pid].(status := TimedOut, stripeEventId := Some(event.id)));
      case Dispute(intent, reason) =>
        var pid := PaymentWithIntent(s.payments, intent);
        GoodMark(s, pid, s.payments[pid].(disputeReason := Some(reason), stripeEventId := Some(event.id)));
      case OtherEvent =>
    }
  }

  lemma GoodReconcilePaid(s: State, pid: nat, intent: string)
    requires Good(s)
    ensures Good(DoReconcilePaid(s, pid, intent))
  {
    if DoReconcilePaid(s, pid, intent) != s {
      var rid := s.payments[pid].reservationId;
      GoodConfirm(s, rid);
      GoodPayment(s.(reservations := s.reservations[rid := ConfirmedRow(s.reservations[rid])]), pid,
                  s.payments[pid].(status := Succeeded, stripePaymentId := Some(intent)));
    }
  }

  lemma GoodReconcileUnpaid(s: State, pid: nat)
    requires Good(s)
    ensures Good(DoReconcileUnpaid(s, pid))
  {
    if pid in s.payments && s.payments[pid].reservationId !in s.busy {
      var declined := s.payments[pid].(status := Declined);
      GoodPayment(s, pid, declined);
      GoodCancelRow(s.(payments := s.payments[pid := declined]), s.payments[pid].reservationId);
    }
  }

  lemma GoodDone(s: State, rid: int)
    requires Good(s)
    ensures Good(Done(s, rid))
  {
  }

  lemma GoodSessionStored(s: State, rid: int, pid: nat, session: string)
    requires Good(s) && rid in s.busy && s.busy[rid] == CheckoutStarted(pid)
    ensures Good(ContinueCheckout(s, rid, s.busy[rid], true, session))
  {
    assert PendingOk(s, rid, s.busy[rid]);
    var p := s.payments[pid].(stripeSessionId := session);
    GoodPayment(s, pid, p);
    GoodNext(s.(payments := s.payments[pid := p]), rid, CheckoutStored(pid, SessionExpiry(s.now)));
  }

  lemma GoodContinueCheckout(s: State, rid: int, ok: bool, session: string)
    requires Good(s) && rid in s.busy && s.busy[rid].Checkout()
    ensures Good(ContinueCheckout(s, rid, s.busy[rid], ok, session))
  {
    assert PendingOk(s, rid, s.busy[rid]);
    GoodDone(s, rid);
    match s.busy[rid]
    case CheckoutStarted(pid) =>
      if ok { GoodSessionStored(s, rid, pid, session); } else { GoodNext(s, rid, CheckoutFailed(pid)); }
    case CheckoutStored(pid, until) =>
      if ok { GoodHold(s, rid, until); GoodDone(HoldUntil(s, rid, until), rid); } else { GoodNext(s, rid, CheckoutFailed(pid)); }
    case CheckoutFailed(pid) => if ok { GoodDelete(Done(s, rid), pid); }
  }

  lemma GoodContinuePaid(s: State, rid: int, pid: nat, eventId: string, intent: string)
    requires Good(s) && rid in s.busy && s.busy[rid] == PaidConfirmed(pid, eventId, intent)
    ensures Good(ContinuePaid(s, rid, pid, eventId, intent))
  {
    assert PendingOk(s, rid, s.busy[rid]);
    GoodDone(s, rid);
    var p := RecordedPayment(s.payments[pid], eventId, intent);
    if CanUpdate(s.payments, pid, p) {
      GoodPayment(Done(s, rid), pid, p);
    }
  }

  lemma GoodAskStripe(s: State, rid: int, pid: nat, amount: int, intent: string)
    requires Good(s) && rid in s.busy && s.busy[rid] == RefundAsked(pid, amount, intent)
    ensures Good(AskStripe(s, rid, pid, amount, intent))
  {
    assert PendingOk(s, rid, s.busy[rid]);
    GoodDone(s, rid);
    var (refundId, ledger) := StripeRefund(s.ledger, RefundEntry(RefundKey(pid), intent, amount));
    GoodNext(s.(ledger := ledger), rid, RefundMade(pid, refundId));
  }

  lemma GoodWriteRefunded(s: State, rid: int, pid: nat, refundId: Option<nat>)
    requires Good(s) && rid in s.busy && s.busy[rid] == RefundMade(pid, refundId)
    ensures Good(WriteRefunded(s, rid, pid, refundId))
  {
    assert PendingOk(s, rid, s.busy[rid]);
    var p := s.payments[pid].(status := Refunded, refundId := if refundId.Some? then refundId else s.payments[pid].refundId);
    GoodPayment(s, pid, p);
    GoodNext(s.(payments := s.payments[pid := p]), rid, RefundWritten(pid));
  }

  lemma GoodLastWrite(s: State, rid: int, pid: nat)
    requires Good(s) && rid in s.busy && s.busy[rid] == RefundWritten(pid)
    ensures Good(Done(CancelRow(s, rid), rid))
  {
    assert PendingOk(s, rid, s.busy[rid]);
    GoodCancelRow(s, rid);
    GoodDone(CancelRow(s, rid), rid);
  }

  lemma GoodContinue(s: State, rid: int, ok: bool, session: string)
    requires Good(s) && rid in s.busy
    ensures Good(DoContinue(s, rid, ok, session))
  {
    if s.busy[rid].Checkout() {
      GoodContinueCheckout(s, rid, ok, session);
    } else if !ok {
      GoodDone(s, rid);
    } else {
      match s.busy[rid]
      case PaidConfirmed(pid, eventId, intent) => GoodContinuePaid(s, rid, pid, eventId, intent);
      case RefundAsked(pid, amount, intent) => GoodAskStripe(s, rid, pid, amount, intent);
      case RefundMade(pid, refundId) => GoodWriteRefunded(s, rid, pid, refundId);
      case RefundWritten(pid) => GoodLastWrite(s, rid, pid);
    }
  }

  lemma GoodStep(s: State, step: Step)
    requires Good(s) && Sane(step)
    ensures Good(Apply(s, step))
  {
    match step
    case Tick(to) => GoodTick(s, to);
    case Sweep => GoodSweep(s);
    case Reserve(userId, screeningId, seatId, asked) => GoodReserve(s, userId, screeningId, seatId, asked);
    case Checkout(userId, rid, price) => GoodCheckout(s, userId, rid, price);
    case Cancel(userId, rid, startTime, table) => GoodCancel(s, userId, rid, startTime, table);
    case Deliver(event) => GoodDeliver(s, event);
    case ReconcilePaid(pid, intent) => GoodReconcilePaid(s, pid, intent);
    case ReconcileUnpaid(pid) => GoodReconcileUnpaid(s, pid);
    case Continue(rid, ok, session) => if rid in s.busy { GoodContinue(s, rid, ok, session); }
    case Crash(rid) => GoodDone(s, rid);
  }

  /** Whatever interleaves, and wherever calls crash, a SUCCEEDED payment has a CONFIRMED reservation. */
  lemma {:induction false} SucceededAlwaysConfirmed(s: State, steps: seq<Step>)
    requires Good(s) && forall i | 0 <= i < |steps| :: Sane(steps[i])
    ensures Good(Run(s, steps))
    decreases |steps|
  {
    if steps != [] {
      GoodStep(s, steps[0]);
      SucceededAlwaysConfirmed(Apply(s, steps[0]), steps[1..]);
    }
  }

  /** The empty system. */
  function Initial(now: int): State {
    State(map[], 0, map[], 0, [], map[], now, now)
  }

  lemma PaidAlwaysSeated(now: int, steps: seq<Step>, pid: nat)
    requires forall i | 0 <= i < |steps| :: Sane(steps[i])
    requires var end := Run(Initial(now), steps); pid in end.payments && end.payments[pid].status == Succeeded
    ensures var end := Run(Initial(now), steps);
            && end.payments[pid].reservationId in end.reservations
            && end.reservations[end.payments[pid].reservationId].status == Confirmed
  {
    SucceededAlwaysConfirmed(Initial(now), steps);
  }
}
