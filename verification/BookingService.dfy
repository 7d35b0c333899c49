/** The payment service's calls as they run, write after write, with the process dying at any point. */
module BookingService {
  import opened Tables
  import opened Refunds
  import opened Booking
  import opened Redelivery
  import opened Reconciliation

  datatype Outcome = Finished | Thrown | Crashed

  /** What a process that survives `n` steps of a call leaves behind. */
  ghost function Survived(s: State, call: seq<Step>, n: nat, rid: int): State {
    Done(Run(s, call[..if n < |call| then n else |call|]), rid)
  }

  /** The first step, then whatever the rest survives. */
  lemma SurvivedFirst(s: State, step: Step, rest: seq<Step>, n: nat, rid: int)
    ensures Survived(s, [step] + rest, n + 1, rid) == Survived(Apply(s, step), rest, n, rid)
  {
    var m := if n < |rest| then n else |rest|;
    assert ([step] + rest)[..m + 1][0] == step && ([step] + rest)[..m + 1][1..] == rest[..m];
  }

  lemma SurvivedNothing(s: State, call: seq<Step>, rid: int)
    ensures Survived(s, call, 0, rid) == Done(s, rid)
  {
  }

  /** Once the reservation is idle again the rest of the call has nothing left to do. */
  lemma {:induction false} SurvivedIdle(s: State, rest: seq<Step>, n: nat, rid: int)
    requires rid !in s.busy && forall i | 0 <= i < |rest| :: rest[i].Continue? && rest[i].rid == rid
    ensures Survived(s, rest, n, rid) == s
    decreases n
  {
    assert s.busy - {rid} == s.busy;
    if n == 0 || rest == [] {
      SurvivedNothing(s, rest, rid);
    } else {
      assert rest == [rest[0]] + rest[1..];
      SurvivedFirst(s, rest[0], rest[1..], n - 1, rid);
      SurvivedIdle(s, rest[1..], n - 1, rid);
    }
  }

  /** A call refused by its checks, or killed before its first step, leaves no trace. */
  lemma SurvivedRefused(s: State, step: Step, rest: seq<Step>, n: nat, rid: int)
    requires rid !in s.busy && (n == 0 || Apply(s, step) == s)
    requires forall i | 0 <= i < |rest| :: rest[i].Continue? && rest[i].rid == rid
    ensures Survived(s, [step] + rest, n, rid) == s
  {
    assert s.busy - {rid} == s.busy;
    if n == 0 {
      SurvivedNothing(s, [step] + rest, rid);
    } else {
      SurvivedFirst(s, step, rest, n - 1, rid);
      SurvivedIdle(s, rest, n - 1, rid);
    }
  }

  /** No crash, and no failed reply, can break what every reachable state satisfies. */
  lemma SurvivedGood(s: State, call: seq<Step>, n: nat, rid: int)
    requires Good(s) && forall i | 0 <= i < |call| :: Sane(call[i])
    ensures Good(Survived(s, call, n, rid))
  {
    var prefix := call[..if n < |call| then n else |call|];
    SucceededAlwaysConfirmed(s, prefix);
    GoodDone(Run(s, prefix), rid);
  }

  /** The rest of a started call: its reply to each remaining I/O operation. */
  function Replies(rid: int, session: string, replies: seq<bool>): seq<Step> {
    if replies == [] then [] else [Continue(rid, replies[0], session)] + Replies(rid, session, replies[1..])
  }

  lemma {:induction false} RepliesContinue(rid: int, session: string, replies: seq<bool>)
    ensures |Replies(rid, session, replies)| == |replies|
    ensures forall i | 0 <= i < |replies| :: Replies(rid, session, replies)[i] == Continue(rid, replies[i], session)
  {
    if replies != [] {
      RepliesContinue(rid, session, replies[1..]);
    }
  }

  /** No unfinished call touches the reservation this event is about. */
  ghost predicate IdleTarget(s: State, body: EventBody) {
    Target(s, body).Some? && Target(s, body).value in s.payments ==> Reaches(s, body)
  }

  class PaymentsService {
    var reservations: Reservations
    var nextReservation: int
    var payments: Payments
    var nextPayment: nat
    var ledger: seq<RefundEntry>
    var now: int
    ghost var busy: map<int, Pending>
    ghost var lastSweep: int

    constructor (now: int)
      ensures Now() == Initial(now) && Good(Now())
    {
      reservations, nextReservation, payments, nextPayment := map[], 0, map[], 0;
      ledger, busy := [], map[];
      this.now, lastSweep := now, now;
    }

    ghost function Now(): State
      reads this
    {
      State(reservations, nextReservation, payments, nextPayment, ledger, busy, now, lastSweep)
    }

    /** The checks and the new PENDING row. */
    method CreatePayment(userId: int, rid: int, price: Option<nat>) returns (pid: Option<nat>)
      requires Good(Now()) && rid !in busy
      modifies `payments, `nextPayment, `busy
      ensures Now() == Apply(old(Now()), Checkout(userId, rid, price))
      ensures pid.None? ==> Now() == old(Now())
      ensures pid.Some? <==> rid in reservations && reservations[rid].userId == userId && reservations[rid].status == Held
                             && price.Some? && forall q | q in old(payments) :: old(payments)[q].reservationId != rid
      ensures pid.Some? ==> rid in reservations && pid == Some(old(nextPayment)) && price.Some?
      ensures pid.Some? ==> payments == old(payments)[pid.value :=
                     Payment(rid, price.value * 100, PaymentStatus.Pending, None, "", None, None, None, now)]
      ensures pid.Some? ==> rid in busy && busy[rid] == CheckoutStarted(pid.value)
    {
      if rid !in reservations || reservations[rid].userId != userId || reservations[rid].status != Held
         || HasPayment(payments, rid) || price.None? {
        return None;
      }
      pid := Some(nextPayment);
      payments := payments[nextPayment := Payment(rid, price.value * 100, PaymentStatus.Pending, None, "", None, None, None, now)];
      busy := busy[rid := CheckoutStarted(nextPayment)];
      nextPayment := nextPayment + 1;
    }

    /** `replies` says which of the call's later I/O operations succeed; `lifetime` how many steps the process survives. */
    method CreateCheckoutSession(userId: int, rid: int, price: Option<nat>, session: string, replies: seq<bool>, lifetime: nat)
      returns (o: Outcome)
      requires Good(Now()) && rid !in busy && |replies| == 3
      modifies `reservations, `payments, `nextPayment, `busy
      ensures Now() == Survived(old(Now()), [Checkout(userId, rid, price)] + Replies(rid, session, replies), lifetime, rid)
      ensures o.Finished? ==> rid in old(reservations)
      ensures o.Finished? ==>
                reservations == old(reservations)[rid := old(reservations)[rid].(heldUntil := Some(SessionExpiry(now)))]
      ensures o.Finished? ==> price.Some? && old(reservations)[rid].userId == userId && old(reservations)[rid].status == Held
      ensures o.Finished? ==> forall q | q in old(payments) :: old(payments)[q].reservationId != rid
      ensures o.Finished? ==>
                payments == old(payments)[old(nextPayment) :=
                  Payment(rid, price.value * 100, PaymentStatus.Pending, None, session, None, None, None, now)]
    {
      ghost var s0 := Now();
      ghost var start := Checkout(userId, rid, price);
      ghost var rest := Replies(rid, session, replies);
      RepliesContinue(rid, session, replies);
      if lifetime == 0 {
        SurvivedRefused(s0, start, rest, 0, rid);
        return Crashed;
      }
      var pid := CreatePayment(userId, rid, price);
      if pid.None? {
        SurvivedRefused(s0, start, rest, lifetime, rid);
        return Thrown;
      }
      SurvivedFirst(s0, start, rest, lifetime - 1, rid);
      o := StoreSession(rid, pid.value, session, replies, lifetime - 1);
    }

    /** The try block: create the session, store its id, push the deadline out; on any failure delete the payment row. */
    method StoreSession(rid: int, pid: nat, session: string, replies: seq<bool>, lifetime: nat) returns (o: Outcome)
      requires rid in reservations && pid in payments && |replies| == 3
      requires rid in busy && busy[rid] == CheckoutStarted(pid)
      modifies `reservations, `payments, `busy
      ensures Now() == Survived(old(Now()), Replies(rid, session, replies), lifetime, rid)
      ensures o.Finished? ==>
                payments == old(payments)[pid := old(payments)[pid].(stripeSessionId := session)]
                && reservations == old(reservations)[rid := old(reservations)[rid].(heldUntil := Some(SessionExpiry(now)))]
    {
      ghost var rest := Replies(rid, session, replies);
      if lifetime == 0 {
        SurvivedNothing(Now(), rest, rid);
        busy := busy - {rid};
        return Crashed;
      }
      RepliesContinue(rid, session, replies[1..]);
      SurvivedFirst(Now(), Continue(rid, replies[0], session), Replies(rid, session, replies[1..]), lifetime - 1, rid);
      var until := SessionExpiry(now);
      if !replies[0] {
        busy := busy[rid := CheckoutFailed(pid)];
        o := DeletePayment(rid, pid, session, replies[1..], lifetime - 1);
        return;
      }
      payments := payments[pid := payments[pid].(stripeSessionId := session)];
      busy := busy[rid := CheckoutStored(pid, until)];
      o := ExtendHold(rid, pid, until, session, replies[1..], lifetime - 1);
    }

    /** The deadline moves to the session's expiry; a failed write takes the payment back. */
    method ExtendHold(rid: int, pid: nat, until: int, session: string, replies: seq<bool>, lifetime: nat) returns (o: Outcome)
      requires rid in reservations && pid in payments && |replies| == 2
      requires rid in busy && busy[rid] == CheckoutStored(pid, until)
      modifies `reservations, `payments, `busy
      ensures Now() == Survived(old(Now()), Replies(rid, session, replies), lifetime, rid)
      ensures o.Finished? ==>
                payments == old(payments)
                && reservations == old(reservations)[rid := old(reservations)[rid].(heldUntil := Some(until))]
    {
      if lifetime == 0 {
        SurvivedNothing(Now(), Replies(rid, session, replies), rid);
        busy := busy - {rid};
        return Crashed;
      }
      RepliesContinue(rid, session, replies[1..]);
      SurvivedFirst(Now(), Continue(rid, replies[0], session), Replies(rid, session, replies[1..]), lifetime - 1, rid);
      if !replies[0] {
        busy := busy[rid := CheckoutFailed(pid)];
        o := DeletePayment(rid, pid, session, replies[1..], lifetime - 1);
        return;
      }
      reservations := reservations[rid := reservations[rid].(heldUntil := Some(until))];
      busy := busy - {rid};
      SurvivedIdle(Now(), Replies(rid, session, replies[1..]), lifetime - 1, rid);
      return Finished;
    }

    /** The catch block; the error is rethrown whether or not the delete succeeds. */
    method DeletePayment(rid: int, pid: nat, session: string, replies: seq<bool>, lifetime: nat) returns (o: Outcome)
      requires rid in busy && busy[rid] == CheckoutFailed(pid) && replies != []
      modifies `payments, `busy
      ensures Now() == Survived(old(Now()), Replies(rid, session, replies), lifetime, rid)
      ensures !o.Finished?
    {
      ghost var rest := Replies(rid, session, replies[1..]);
      RepliesContinue(rid, session, replies[1..]);
      if lifetime == 0 {
        SurvivedNothing(Now(), Replies(rid, session, replies), rid);
        busy := busy - {rid};
        return Crashed;
      }
      SurvivedFirst(Now(), Continue(rid, replies[0], session), rest, lifetime - 1, rid);
      if replies[0] {
        payments := payments - {pid};
      }
      busy := busy - {rid};
      SurvivedIdle(Now(), rest, lifetime - 1, rid);
      return Thrown;
    }

    /** The paid branch of checkout.session.completed: confirm first, record the event only afterwards. */
    method HandleCheckoutPaid(event: Event, replies: seq<bool>, lifetime: nat) returns (o: Outcome)
      requires Good(Now()) && |replies| == 1 && event.body.Completed? && event.body.paid
      requires event.body.pid in payments && payments[event.body.pid].reservationId !in busy
      modifies `reservations, `payments, `busy
      ensures var rid := old(payments)[event.body.pid].reservationId;
              Now() == Survived(old(Now()), [Deliver(event)] + Replies(rid, "", replies), lifetime, rid)
      ensures o.Thrown? ==> payments == old(payments)
      ensures o.Finished? && !Recorded(old(payments), event.id) ==>
                var p := old(payments)[event.body.pid];
                payments == old(payments)[event.body.pid :=
                  p.(status := Succeeded, stripeEventId := Some(event.id), stripePaymentId := Some(event.body.intent))]
      ensures o.Finished? && !Recorded(old(payments), event.id) ==>
                var rid := old(payments)[event.body.pid].reservationId;
                rid in old(reservations)
                && reservations == old(reservations)[rid := old(reservations)[rid].(status := Confirmed, heldUntil := None)]
    {
      ghost var s0 := Now();
      var pid := event.body.pid;
      var rid := payments[pid].reservationId;
      ghost var rest := Replies(rid, "", replies);
      RepliesContinue(rid, "", replies);
      if lifetime == 0 {
        SurvivedRefused(s0, Deliver(event), rest, 0, rid);
        return Crashed;
      }
      if Recorded(payments, event.id) {
        SurvivedRefused(s0, Deliver(event), rest, lifetime, rid);
        return Finished;
      }
      if !IndexAllows(reservations, rid, ConfirmedRow(reservations[rid])) {
        SurvivedRefused(s0, Deliver(event), rest, lifetime, rid);
        return Thrown;
      }
      SurvivedFirst(s0, Deliver(event), rest, lifetime - 1, rid);
      reservations := reservations[rid := ConfirmedRow(reservations[rid])];
      busy := busy[rid := PaidConfirmed(pid, event.id, event.body.intent)];
      o := RecordPaid(rid, pid, event.id, event.body.intent, replies, lifetime - 1);
    }

    method RecordPaid(rid: int, pid: nat, eventId: string, intent: string, replies: seq<bool>, lifetime: nat) returns (o: Outcome)
      requires |replies| == 1 && pid in payments && rid in busy && busy[rid] == PaidConfirmed(pid, eventId, intent)
      modifies `payments, `busy
      ensures Now() == Survived(old(Now()), Replies(rid, "", replies), lifetime, rid)
      ensures if o.Finished? then
                payments == old(payments)[pid := old(payments)[pid].(status := Succeeded, stripeEventId := Some(eventId), stripePaymentId := Some(intent))]
              else payments == old(payments)
    {
      if lifetime == 0 {
        SurvivedNothing(Now(), Replies(rid, "", replies), rid);
        busy := busy - {rid};
        return Crashed;
      }
      SurvivedFirst(Now(), Continue(rid, replies[0], ""), [], lifetime - 1, rid);
      assert Replies(rid, "", replies[1..]) == [];
      var p := payments[pid].(status := Succeeded, stripeEventId := Some(eventId), stripePaymentId := Some(intent));
      o := Thrown;
      if replies[0] && CanUpdate(payments, pid, p) {
        payments := payments[pid := p];
        o := Finished;
      }
      busy := busy - {rid};
      SurvivedIdle(Now(), [], lifetime - 1, rid);
    }

    /** `replies` says whether the first write, and the second write or recordFailure, goes through; `failed` lists the
        users for whom recordFailure is called. */
    method HandleWebhookEvent(event: Event, replies: seq<bool>, lifetime: nat) returns (o: Outcome, failed: seq<int>)
      requires Good(Now()) && IdleTarget(Now(), event.body) && |replies| == 2
      modifies `reservations, `payments, `busy
      ensures Good(Now())
      ensures lifetime == 0 || !replies[0] || Recorded(old(payments), event.id) ==> Now() == old(Now()) && failed == []
      ensures failed == RecordedFailure(old(Now()), event, lifetime > 1 && replies[0] && replies[1])
      ensures lifetime > 0 && replies[0] ==>
                if PaidBody(event.body) && event.body.pid in old(payments) then
                  var rid := old(payments)[event.body.pid].reservationId;
                  Now() == Survived(old(Now()), [Deliver(event)] + Replies(rid, "", replies[1..]), lifetime, rid)
                else Now() == Apply(old(Now()), Deliver(event))
      ensures !replies[0] && lifetime > 0 && Reaches(old(Now()), event.body) && !Recorded(old(payments), event.id) ==> o.Thrown?
    {
      GoodStep(Now(), Deliver(event));
      failed := [];
      if lifetime == 0 {
        o := Crashed;
      } else if Recorded(payments, event.id) {
        o := Finished;
        if PaidBody(event.body) && event.body.pid in payments {
          var rid := payments[event.body.pid].reservationId;
          RepliesContinue(rid, "", replies[1..]);
          SurvivedRefused(Now(), Deliver(event), Replies(rid, "", replies[1..]), lifetime, rid);
        }
      } else if PaidBody(event.body) {
        o := HandlePaidSession(event, replies, lifetime);
      } else {
        o, failed := MarkPayment(event, replies, lifetime);
      }
    }

    /** handleCheckoutCompleted for a paid session. */
    method HandlePaidSession(event: Event, replies: seq<bool>, lifetime: nat) returns (o: Outcome)
      requires Good(Now()) && IdleTarget(Now(), event.body) && PaidBody(event.body) && !Recorded(payments, event.id)
      requires |replies| == 2 && lifetime > 0
      modifies `reservations, `payments, `busy
      ensures Good(Now())
      ensures if replies[0] && event.body.pid in old(payments) then
                var rid := old(payments)[event.body.pid].reservationId;
                Now() == Survived(old(Now()), [Deliver(event)] + Replies(rid, "", replies[1..]), lifetime, rid)
              else Now() == old(Now())
      ensures !replies[0] && event.body.pid in old(payments) ==> o.Thrown?
    {
      if event.body.pid !in payments {
        return Finished;
      }
      if !replies[0] {
        return Thrown;
      }
      var rid := payments[event.body.pid].reservationId;
      RepliesContinue(rid, "", replies[1..]);
      SurvivedGood(Now(), [Deliver(event)] + Replies(rid, "", replies[1..]), lifetime, rid);
      o := HandleCheckoutPaid(event, replies[1..], lifetime);
    }

    /** The branches that write one payment: unpaid, failed, expired and disputed. Only a failed payment has a
        second operation, recordFailure, which `replies` and `lifetime` may keep from happening. */
    method MarkPayment(event: Event, replies: seq<bool>, lifetime: nat) returns (o: Outcome, failed: seq<int>)
      requires Good(Now()) && IdleTarget(Now(), event.body) && !Recorded(payments, event.id)
      requires !PaidBody(event.body) && |replies| == 2 && lifetime > 0
      modifies `payments
      ensures Now() == if replies[0] then DoDeliver(old(Now()), event) else old(Now())
      ensures var acts := Reaches(old(Now()), event.body); var fails := event.body.AsyncFailed?;
              && (acts && replies[0] ==> payments != old(payments) && Recorded(payments, event.id))
              && (o.Crashed? <==> acts && replies[0] && fails && lifetime == 1)
              && (o.Thrown? <==> if acts then !replies[0] || (fails && lifetime > 1 && !replies[1])
                                 else fails || event.body.SessionExpired?)
      ensures failed == RecordedFailure(old(Now()), event, lifetime > 1 && replies[0] && replies[1])
      ensures payments.Keys == old(payments).Keys
      ensures forall pid | pid in payments && Target(old(Now()), event.body) != Some(pid) :: payments[pid] == old(payments)[pid]
      ensures replies[0] && Reaches(old(Now()), event.body) ==>
                var pid := Target(old(Now()), event.body).value; var p := old(payments)[pid].(stripeEventId := Some(event.id));
                payments[pid] == match event.body
                                 case Completed(_, _, _) => p.(status := InProgress)
                                 case AsyncFailed(_) => p.(status := Failed)
                                 case SessionExpired(_) => p.(status := TimedOut)
                                 case Dispute(_, reason) => p.(disputeReason := Some(reason))
                                 case OtherEvent => p
    {
      var pid: nat;
      var marked: Payment;
      DeliveryActsIff(Now(), event);
      match event.body {
        case Completed(id, paid, intent) =>
          if id !in payments { return Finished, []; }
          pid, marked := id, payments[id].(status := InProgress);
        case AsyncFailed(id) =>
          if id !in payments { return Thrown, []; }
          pid, marked := id, payments[id].(status := Failed);
        case SessionExpired(id) =>
          if id !in payments { return Thrown, []; }
          pid, marked := id, payments[id].(status := TimedOut);
        case Dispute(intent, reason) =>
          if !HasIntent(payments, intent) { return Finished, []; }
          pid := FindByIntent(intent);
          marked := payments[pid].(disputeReason := Some(reason));
        case OtherEvent =>
          return Finished, [];
      }
      if !replies[0] {
        return Thrown, [];
      }
      payments := payments[pid := marked.(stripeEventId := Some(event.id))];
      assert payments[pid].stripeEventId == Some(event.id);
      if event.body.AsyncFailed? {
        if lifetime == 1 {
          return Crashed, [];
        }
        if !replies[1] {
          return Thrown, [];
        }
        return Finished, [reservations[payments[pid].reservationId].userId];
      }
      return Finished, [];
    }

    method FindByIntent(intent: string) returns (pid: nat)
      requires UniquePayments(payments) && HasIntent(payments, intent)
      ensures pid == PaymentWithIntent(payments, intent)
    {
      pid :| pid in payments && payments[pid].stripePaymentId == Some(intent);
    }

    method FindByReservation(rid: int) returns (pid: nat)
      requires UniquePayments(payments) && HasPayment(payments, rid)
      ensures pid == PaymentOf(payments, rid)
    {
      pid :| pid in payments && payments[pid].reservationId == rid;
    }

    /** A cancel: 404 for a stranger, 409 when already cancelled, a status write when HELD, a refund when CONFIRMED. */
    method Cancel(userId: int, rid: int, startTime: Option<int>, table: seq<Policy>, replies: seq<bool>, lifetime: nat)
      returns (o: Outcome)
      requires Good(Now()) && rid !in busy && |replies| == 3 && Percents(table)
      modifies `reservations, `payments, `ledger, `busy
      ensures Now() == Survived(old(Now()), [Step.Cancel(userId, rid, startTime, table)] + Replies(rid, "", replies), lifetime, rid)
      ensures Good(Now())
      ensures o.Finished? ==> rid in reservations && reservations[rid].status == Cancelled
      ensures o.Finished? ==> rid in old(reservations) && old(reservations)[rid].userId == userId && old(reservations)[rid].status != Cancelled
      ensures !(rid in old(reservations) && old(reservations)[rid].userId == userId && old(reservations)[rid].status != Cancelled) ==>
                Now() == old(Now())
      ensures o.Finished? && old(reservations)[rid].status == Confirmed ==>
                HasPayment(payments, rid) && payments[PaymentOf(payments, rid)].status == PaymentStatus.Refunded
    {
      ghost var s0 := Now();
      ghost var start := Step.Cancel(userId, rid, startTime, table);
      ghost var rest := Replies(rid, "", replies);
      RepliesContinue(rid, "", replies);
      if lifetime == 0 || rid !in reservations || reservations[rid].userId != userId || reservations[rid].status == Cancelled {
        SurvivedRefused(s0, start, rest, lifetime, rid);
        return if lifetime == 0 then Crashed else Thrown;
      }
      SurvivedFirst(s0, start, rest, lifetime - 1, rid);
      GoodStep(s0, start);
      if reservations[rid].status == Held {
        reservations := reservations[rid := reservations[rid].(status := Cancelled)];
        SurvivedIdle(Now(), rest, lifetime - 1, rid);
        return Finished;
      }
      SurvivedGood(StartRefund(s0, rid, startTime, table), rest, lifetime - 1, rid);
      o := RefundReservation(rid, startTime, table, replies, lifetime - 1);
    }

    method RefundReservation(rid: int, startTime: Option<int>, table: seq<Policy>, replies: seq<bool>, lifetime: nat)
      returns (o: Outcome)
      requires Good(Now()) && rid !in busy && |replies| == 3
      requires rid in reservations && reservations[rid].status == Confirmed
      modifies `reservations, `payments, `ledger, `busy
      ensures Now() == Survived(StartRefund(old(Now()), rid, startTime, table), Replies(rid, "", replies), lifetime, rid)
      ensures o.Finished? ==> rid in reservations && reservations[rid].status == Cancelled
      ensures o.Finished? ==>
                && HasPayment(old(payments), rid) && PaymentOf(old(payments), rid) in payments
                && payments[PaymentOf(old(payments), rid)].status == PaymentStatus.Refunded
                && payments[PaymentOf(old(payments), rid)].reservationId == rid
    {
      RepliesContinue(rid, "", replies);
      if !HasPayment(payments, rid) {
        SurvivedIdle(Now(), Replies(rid, "", replies), lifetime, rid);
        return Thrown;
      }
      var pid := FindByReservation(rid);
      var p := payments[pid];
      if p.status == Refunded {
        reservations := reservations[rid := reservations[rid].(status := Cancelled)];
        SurvivedIdle(Now(), Replies(rid, "", replies), lifetime, rid);
        return Finished;
      }
      if startTime.None? {
        SurvivedIdle(Now(), Replies(rid, "", replies), lifetime, rid);
        return Thrown;
      }
      var percent := RefundPercent(table, HoursUntil(startTime.value, now));
      if !(percent > 0.0 && p.stripePaymentId.Some?) {
        busy := busy[rid := RefundMade(pid, None)];
        o := FinishRefund(rid, pid, None, replies, lifetime);
        return;
      }
      o := AskForRefund(rid, pid, RefundAmount(p.amount, percent), p.stripePaymentId.value, replies, lifetime);
    }

    /** The Stripe call under the payment's idempotency key, then the two writes. */
    method AskForRefund(rid: int, pid: nat, amount: int, intent: string, replies: seq<bool>, lifetime: nat) returns (o: Outcome)
      requires |replies| == 3 && rid in reservations && rid !in busy && pid in payments && payments[pid].reservationId == rid
      modifies `reservations, `payments, `ledger, `busy
      ensures Now() == Survived(old(Now()).(busy := old(busy)[rid := RefundAsked(pid, amount, intent)]),
                                Replies(rid, "", replies), lifetime, rid)
      ensures o.Finished? ==> rid in reservations && reservations[rid].status == Cancelled
      ensures o.Finished? ==> pid in payments && payments[pid].status == PaymentStatus.Refunded && payments[pid].reservationId == rid
    {
      busy := busy[rid := RefundAsked(pid, amount, intent)];
      ghost var rest := Replies(rid, "", replies[1..]);
      RepliesContinue(rid, "", replies[1..]);
      if lifetime == 0 {
        SurvivedNothing(Now(), Replies(rid, "", replies), rid);
        busy := busy - {rid};
        return Crashed;
      }
      SurvivedFirst(Now(), Continue(rid, replies[0], ""), rest, lifetime - 1, rid);
      if !replies[0] {
        busy := busy - {rid};
        SurvivedIdle(Now(), rest, lifetime - 1, rid);
        return Thrown;
      }
      var (refundId, after) := StripeRefund(ledger, RefundEntry(RefundKey(pid), intent, amount));
      if refundId.None? {
        busy := busy - {rid};
        SurvivedIdle(Now(), rest, lifetime - 1, rid);
        return Thrown;
      }
      ledger := after;
      busy := busy[rid := RefundMade(pid, refundId)];
      o := FinishRefund(rid, pid, refundId, replies[1..], lifetime - 1);
    }

    /** REFUNDED is written before CANCELLED. */
    method FinishRefund(rid: int, pid: nat, refundId: Option<nat>, replies: seq<bool>, lifetime: nat) returns (o: Outcome)
      requires |replies| >= 2 && rid in reservations && pid in payments && payments[pid].reservationId == rid
      requires rid in busy && busy[rid] == RefundMade(pid, refundId)
      modifies `reservations, `payments, `busy
      ensures Now() == Survived(old(Now()), Replies(rid, "", replies), lifetime, rid)
      ensures o.Finished? ==> rid in reservations && reservations[rid].status == Cancelled
      ensures o.Finished? ==> pid in payments && payments[pid].status == PaymentStatus.Refunded && payments[pid].reservationId == rid
    {
      if lifetime == 0 {
        SurvivedNothing(Now(), Replies(rid, "", replies), rid);
        busy := busy - {rid};
        return Crashed;
      }
      RepliesContinue(rid, "", replies[1..]);
      SurvivedFirst(Now(), Continue(rid, replies[0], ""), Replies(rid, "", replies[1..]), lifetime - 1, rid);
      if !replies[0] {
        busy := busy - {rid};
        SurvivedIdle(Now(), Replies(rid, "", replies[1..]), lifetime - 1, rid);
        return Thrown;
      }
      var p := payments[pid];
      payments := payments[pid := p.(status := Refunded, refundId := if refundId.Some? then refundId else p.refundId)];
      busy := busy[rid := RefundWritten(pid)];
      o := FinalizeCancel(rid, pid, replies[1..], lifetime - 1);
    }

    /** finalizeCancel, once the payment says REFUNDED. */
    method FinalizeCancel(rid: int, pid: nat, replies: seq<bool>, lifetime: nat) returns (o: Outcome)
      requires replies != [] && rid in reservations && rid in busy && busy[rid] == RefundWritten(pid)
      modifies `reservations, `busy
      ensures Now() == Survived(old(Now()), Replies(rid, "", replies), lifetime, rid)
      ensures o.Finished? ==> rid in reservations && reservations[rid].status == Cancelled
    {
      if lifetime == 0 {
        SurvivedNothing(Now(), Replies(rid, "", replies), rid);
        busy := busy - {rid};
        return Crashed;
      }
      ghost var rest := Replies(rid, "", replies[1..]);
      RepliesContinue(rid, "", replies[1..]);
      SurvivedFirst(Now(), Continue(rid, replies[0], ""), rest, lifetime - 1, rid);
      o := Thrown;
      if replies[0] {
        reservations := reservations[rid := reservations[rid].(status := Cancelled)];
        o := Finished;
      }
      busy := busy - {rid};
      SurvivedIdle(Now(), rest, lifetime - 1, rid);
    }

    /** findStuckTimedOut: TIMED_OUT payments older than the cutoff, in any order. */
    method FindStuckTimedOut(olderThan: int) returns (stuck: seq<nat>)
      ensures Stuck(stuck, payments, olderThan)
      ensures forall pid :: pid in stuck <==> pid in payments && payments[pid].status == TimedOut && payments[pid].createdAt < olderThan
    {
      var todo: set<nat> := set pid: nat | pid in payments && IsStuck(payments[pid], olderThan) :: pid;
      stuck := [];
      while todo != {}
        invariant forall pid | pid in todo :: pid in payments && IsStuck(payments[pid], olderThan)
        invariant forall i | 0 <= i < |stuck| :: stuck[i] !in todo && stuck[i] in payments && IsStuck(payments[stuck[i]], olderThan)
        invariant forall i, j | 0 <= i < j < |stuck| :: stuck[i] != stuck[j]
        invariant forall pid | pid in payments && IsStuck(payments[pid], olderThan) :: pid in todo || pid in stuck
        decreases todo
      {
        var pid :| pid in todo;
        stuck := stuck + [pid];
        todo := todo - {pid};
      }
    }

    /** One iteration: both rows are written in one transaction, or neither. */
    method ReconcileOne(pid: nat, answer: Lookup) returns (ok: bool)
      requires Idle(Now(), pid)
      modifies `reservations, `payments
      ensures ok <==> !Rejects(old(Now()), pid, answer)
      ensures ok ==> !answer.LookupFails? && Now() == Settle(old(Now()), pid, answer) == Apply(old(Now()), ReconcileStep(pid, answer))
      ensures ok ==> payments == old(payments)[pid := SettledPayment(old(payments)[pid], answer)]
      ensures ok ==> var rid := old(payments)[pid].reservationId;
                     rid in old(reservations) && reservations == old(reservations)[rid := SettledRow(old(reservations)[rid], answer)]
      ensures !ok ==> Now() == old(Now())
    {
      var p := payments[pid];
      if answer.LookupFails? {
        return false;
      }
      if answer.SessionPaid? {
        var paid := p.(status := Succeeded, stripePaymentId := Some(answer.intent));
        if !PaymentFits(payments, pid, paid)
           || !IndexAllows(reservations, p.reservationId, ConfirmedRow(reservations[p.reservationId])) {
          return false;
        }
        payments := payments[pid := paid];
        reservations := reservations[p.reservationId := ConfirmedRow(reservations[p.reservationId])];
      } else {
        payments := payments[pid := p.(status := Declined)];
        reservations := reservations[p.reservationId := reservations[p.reservationId].(status := Cancelled)];
      }
      return true;
    }

    /** The loop body: the lookup and the transaction, then a failure on the user's record for an unpaid session.
        `settled` says whether the pair was written, `done` whether the iteration ran to its end. */
    method ReconcileIteration(ghost s0: State, stuck: seq<nat>, n: nat, lookup: map<nat, Lookup>, dbDown: set<nat>, redisDown: set<nat>)
      returns (settled: bool, done: bool, failed: seq<int>)
      requires n < |stuck| && Reconcilable(s0, stuck, lookup) && Settles(s0, stuck, n, lookup, dbDown)
      requires Now() == After(s0, stuck, n, lookup)
      modifies `reservations, `payments
      ensures settled <==> Settles(s0, stuck, n + 1, lookup, dbDown)
      ensures Now() == if settled then After(s0, stuck, n + 1, lookup) else old(Now())
      ensures done <==> settled && !Uncounted(stuck[n], lookup, redisDown)
      ensures failed == if done then FailureOf(s0, stuck[n], lookup) else []
    {
      var pid := stuck[n];
      NextIdle(s0, stuck, n, lookup);
      if pid in dbDown {
        return false, false, [];
      }
      settled := ReconcileOne(pid, lookup[pid]);
      if !settled {
        return false, false, [];
      }
      if !lookup[pid].SessionUnpaid? {
        return true, true, [];
      }
      if pid in redisDown {
        return true, false, [];
      }
      return true, true, [reservations[payments[pid].reservationId].userId];
    }

    /** Every stuck payment in turn, until something is rejected. `handled` is how many pairs were written, `counted` how
        many iterations ran to their end, and `failed` the users for whom recordFailure was called. */
    method ReconcileTimedOutPayments(lookup: map<nat, Lookup>, dbDown: set<nat>, redisDown: set<nat>)
      returns (stuck: seq<nat>, handled: nat, counted: nat, failed: seq<int>, ghost at: seq<nat>)
      requires Good(Now()) && payments.Keys <= lookup.Keys
      requires forall pid | pid in payments && IsStuck(payments[pid], now - RECONCILE_GRACE_MINUTES * MINUTE) ::
                 payments[pid].reservationId !in busy
      modifies `reservations, `payments
      ensures Stuck(stuck, old(payments), now - RECONCILE_GRACE_MINUTES * MINUTE) && counted <= handled <= |stuck|
      ensures Reconcilable(old(Now()), stuck, lookup)
      ensures Good(Now()) && Now() == Run(old(Now()), ReconcileSteps(stuck[..handled], lookup))
      ensures Reconciled(Handled(stuck, handled), lookup, old(reservations), old(payments), reservations, payments)
      ensures forall i | 0 <= i < counted :: !StopsAt(old(Now()), stuck, i, lookup, dbDown, redisDown)
      ensures counted < |stuck| ==> StopsAt(old(Now()), stuck, counted, lookup, dbDown, redisDown)
      ensures handled == if counted < |stuck| && Settles(old(Now()), stuck, counted + 1, lookup, dbDown) then counted + 1 else counted
      ensures forall pid :: pid in stuck <==>
                pid in old(payments) && old(payments)[pid].status == TimedOut && old(payments)[pid].createdAt < now - 600000
      ensures AsAnswered(stuck, handled, lookup, old(reservations), old(payments), reservations, payments)
      ensures failed == Failures(old(Now()), stuck, counted, lookup)
      ensures ListsUnpaid(failed, at, stuck, counted, lookup, old(reservations), old(payments))
    {
      stuck := FindStuckTimedOut(now - RECONCILE_GRACE_MINUTES * MINUTE);
      ghost var s0 := Now();
      assert Reconcilable(s0, stuck, lookup);
      handled, counted, failed := ReconcileAll(stuck, lookup, dbDown, redisDown);
      StoppedRight(s0, stuck, handled, counted, lookup, dbDown, redisDown);
      SettledSummary(s0, stuck, handled, lookup, dbDown);
      ReconciledAsAnswered(stuck, handled, lookup, s0.reservations, s0.payments, reservations, payments);
      FailuresListed(s0, stuck, counted, lookup);
      at := UnpaidAt(stuck, counted, lookup);
    }

    /** The loop itself. */
    method ReconcileAll(stuck: seq<nat>, lookup: map<nat, Lookup>, dbDown: set<nat>, redisDown: set<nat>)
      returns (handled: nat, counted: nat, failed: seq<int>)
      requires Reconcilable(Now(), stuck, lookup)
      modifies `reservations, `payments
      ensures Halted(old(Now()), stuck, handled, counted, lookup, dbDown, redisDown)
      ensures Now() == After(old(Now()), stuck, handled, lookup)
      ensures failed == Failures(old(Now()), stuck, counted, lookup)
    {
      handled, counted, failed := 0, 0, [];
      ghost var s0 := Now();
      while handled < |stuck|
        invariant counted == handled <= |stuck| && Settles(s0, stuck, handled, lookup, dbDown)
        invariant Now() == After(s0, stuck, handled, lookup)
        invariant forall i | 0 <= i < handled :: !Uncounted(stuck[i], lookup, redisDown)
        invariant failed == Failures(s0, stuck, handled, lookup)
      {
        var settled, done, more := ReconcileIteration(s0, stuck, handled, lookup, dbDown, redisDown);
        if !settled {
          return;
        }
        handled := handled + 1;
        if !done {
          return;
        }
        counted, failed := handled, failed + more;
      }
    }
  }
}
