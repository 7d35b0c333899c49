/** Webhook deliveries that arrive more than once. */
module Redelivery {
  import opened Tables
  import opened Booking
  import opened BookingRuns
  import opened Refunds
  import opened RefundOnce

  /** The payment an event is about, if there is one. */
  ghost function Target(s: State, body: EventBody): Option<nat> {
    match body
    case Completed(pid, paid, intent) => Some(pid)
    case AsyncFailed(pid) => Some(pid)
    case SessionExpired(pid) => Some(pid)
    case Dispute(intent, reason) => if HasIntent(s.payments, intent) then Some(PaymentWithIntent(s.payments, intent)) else None
    case OtherEvent => None
  }

  /** This delivery carries the one event id its payment ever receives. */
  ghost predicate Single(s: State, step: Step, idOf: nat -> string) {
    step.Deliver? && Target(s, step.event.body).Some? ==> step.event.id == idOf(Target(s, step.event.body).value)
  }

  ghost predicate SingleIds(s: State, steps: seq<Step>, idOf: nat -> string)
    decreases |steps|
  {
    steps == [] || (Single(s, steps[0], idOf) && SingleIds(Apply(s, steps[0]), steps[1..], idOf))
  }

  ghost predicate IdsMatch(s: State, idOf: nat -> string) {
    && (forall pid | pid in s.payments && s.payments[pid].stripeEventId.Some? :: s.payments[pid].stripeEventId.value == idOf(pid))
    && (forall rid | rid in s.busy && s.busy[rid].PaidConfirmed? :: s.busy[rid].eventId == idOf(s.busy[rid].pid))
  }

  /** A step either leaves a payment's event id alone or writes the payment's own id. */
  ghost predicate WritesOwnIds(before: Payments, after: Payments, idOf: nat -> string) {
    && (forall pid | pid in after ::
          || after[pid].stripeEventId.None?
          || after[pid].stripeEventId == Some(idOf(pid))
          || (pid in before && after[pid].stripeEventId == before[pid].stripeEventId))
    && (forall pid | pid in before && before[pid].stripeEventId.Some? :: pid in after && after[pid].stripeEventId.Some?)
  }

  lemma MarkWritesOwnId(s: State, pid: nat, p: Payment, idOf: nat -> string)
    requires pid in s.payments && p.stripeEventId == Some(idOf(pid))
    ensures WritesOwnIds(s.payments, Mark(s, pid, p).payments, idOf)
  {
  }

  lemma DeliverWritesOwnId(s: State, event: Event, idOf: nat -> string)
    requires Single(s, Deliver(event), idOf)
    ensures WritesOwnIds(s.payments, DoDeliver(s, event).payments, idOf)
    ensures forall rid | rid in DoDeliver(s, event).busy && rid !in s.busy ::
              DoDeliver(s, event).busy[rid].PaidConfirmed? ==> DoDeliver(s, event).busy[rid].eventId == idOf(DoDeliver(s, event).busy[rid].pid)
    ensures forall rid | rid in s.busy :: rid in DoDeliver(s, event).busy && DoDeliver(s, event).busy[rid] == s.busy[rid]
  {
    if DoDeliver(s, event) != s {
      match event.body
      case Completed(pid, paid, intent) =>
        if !paid { MarkWritesOwnId(s, pid, s.payments[pid].(status := InProgress, stripeEventId := Some(event.id)), idOf); }
      case AsyncFailed(pid) => MarkWritesOwnId(s, pid, s.payments[pid].(status := Failed, stripeEventId := Some(event.id)), idOf);
      case SessionExpired(pid) => MarkWritesOwnId(s, pid, s.payments[pid].(status := TimedOut, stripeEventId := Some(event.id)), idOf);
      case Dispute(intent, reason) =>
        var pid := PaymentWithIntent(s.payments, intent);
        MarkWritesOwnId(s, pid, s.payments[pid].(disputeReason := Some(reason), stripeEventId := Some(event.id)), idOf);
      case OtherEvent =>
    }
  }

  lemma CheckoutWritesOwnId(s: State, rid: int, ok: bool, session: string, idOf: nat -> string)
    requires Good(s) && rid in s.busy && s.busy[rid].Checkout()
    ensures WritesOwnIds(s.payments, ContinueCheckout(s, rid, s.busy[rid], ok, session).payments, idOf)
  {
    assert PendingOk(s, rid, s.busy[rid]);
  }

  lemma ContinueWritesOwnId(s: State, rid: int, ok: bool, session: string, idOf: nat -> string)
    requires Good(s) && IdsMatch(s, idOf) && rid in s.busy
    ensures WritesOwnIds(s.payments, DoContinue(s, rid, ok, session).payments, idOf)
  {
    assert PendingOk(s, rid, s.busy[rid]);
    if s.busy[rid].Checkout() {
      CheckoutWritesOwnId(s, rid, ok, session, idOf);
    } else if ok {
      match s.busy[rid]
      case PaidConfirmed(pid, eventId, intent) =>
        assert Done(s, rid).payments == s.payments;
        MarkWritesOwnId(s, pid, RecordedPayment(s.payments[pid], eventId, intent), idOf);
      case RefundMade(pid, refundId) => assert WriteRefunded(s, rid, pid, refundId).payments[pid].stripeEventId == s.payments[pid].stripeEventId;
      case RefundAsked(pid, amount, intent) => assert AskStripe(s, rid, pid, amount, intent).payments == s.payments;
      case RefundWritten(pid) => assert Done(CancelRow(s, rid), rid).payments == s.payments;
    }
  }

  lemma OthersWriteNoIds(s: State, step: Step, idOf: nat -> string)
    requires Good(s) && !step.Deliver? && !step.Continue?
    ensures WritesOwnIds(s.payments, Apply(s, step).payments, idOf)
  {
    match step
    case ReconcilePaid(pid, intent) => ReconcileWritesNoId(s, pid, intent, idOf);
    case ReconcileUnpaid(pid) => ReconcileWritesNoId(s, pid, "", idOf);
    case Checkout(userId, rid, price) => CheckoutWritesNoId(s, userId, rid, price, idOf);
    case Cancel(userId, rid, startTime, table) => assert StartCancel(s, userId, rid, startTime, table).payments == s.payments;
    case Deliver(event) =>
    case Continue(rid, ok, session) =>
    case _ => assert Apply(s, step).payments == s.payments;
  }

  lemma ReconcileWritesNoId(s: State, pid: nat, intent: string, idOf: nat -> string)
    ensures WritesOwnIds(s.payments, DoReconcilePaid(s, pid, intent).payments, idOf)
    ensures WritesOwnIds(s.payments, DoReconcileUnpaid(s, pid).payments, idOf)
  {
  }

  lemma CheckoutWritesNoId(s: State, userId: int, rid: int, price: Option<nat>, idOf: nat -> string)
    requires Good(s)
    ensures WritesOwnIds(s.payments, StartCheckout(s, userId, rid, price).payments, idOf)
  {
  }

  lemma OthersStartNoDelivery(s: State, step: Step)
    requires !step.Deliver? && !step.Continue?
    ensures forall rid | rid in Apply(s, step).busy && Apply(s, step).busy[rid].PaidConfirmed? ::
              rid in s.busy && s.busy[rid] == Apply(s, step).busy[rid]
  {
  }

  lemma ContinueStartsNoDelivery(s: State, rid: int, ok: bool, session: string)
    requires rid in s.busy
    ensures forall id | id in DoContinue(s, rid, ok, session).busy && DoContinue(s, rid, ok, session).busy[id].PaidConfirmed? ::
              id in s.busy && s.busy[id] == DoContinue(s, rid, ok, session).busy[id]
  {
  }

  /** Once stored, an event id stays stored, and every stored id is its payment's own. */
  lemma IdsStep(s: State, step: Step, idOf: nat -> string)
    requires Good(s) && IdsMatch(s, idOf) && Single(s, step, idOf)
    ensures IdsMatch(Apply(s, step), idOf)
    ensures forall e | Recorded(s.payments, e) :: Recorded(Apply(s, step).payments, e)
  {
    var after := Apply(s, step);
    if step.Deliver? {
      DeliverWritesOwnId(s, step.event, idOf);
    } else if step.Continue? {
      if step.rid in s.busy {
        ContinueWritesOwnId(s, step.rid, step.ok, step.session, idOf);
        ContinueStartsNoDelivery(s, step.rid, step.ok, step.session);
      }
    } else {
      OthersWriteNoIds(s, step, idOf);
      OthersStartNoDelivery(s, step);
    }
    RecordedPersists(s, after, idOf);
  }

  lemma RecordedPersists(s: State, after: State, idOf: nat -> string)
    requires IdsMatch(s, idOf) && WritesOwnIds(s.payments, after.payments, idOf)
    ensures forall e | Recorded(s.payments, e) :: Recorded(after.payments, e)
  {
  }

  function StoredIds(payments: Payments): set<string> {
    set pid | pid in payments && payments[pid].stripeEventId.Some? :: payments[pid].stripeEventId.value
  }

  /** The same run without the deliveries whose event was already recorded earlier on. */
  ghost function DropRedeliveries(s: State, seen: set<string>, steps: seq<Step>): seq<Step>
    decreases |steps|
  {
    if steps == [] then []
    else if steps[0].Deliver? && steps[0].event.id in seen then DropRedeliveries(s, seen, steps[1..])
    else
      var next := Apply(s, steps[0]);
      [steps[0]] + DropRedeliveries(next, seen + StoredIds(next.payments), steps[1..])
  }

  /** When each payment hears of one event id only, redeliveries after the first recorded one are invisible:
      the run without them ends in the same state. */
  lemma {:induction false} RedeliveriesInvisible(s: State, seen: set<string>, steps: seq<Step>, idOf: nat -> string)
    requires Good(s) && IdsMatch(s, idOf) && SingleIds(s, steps, idOf)
    requires forall i | 0 <= i < |steps| :: Sane(steps[i])
    requires forall e | e in seen :: Recorded(s.payments, e)
    ensures Run(s, DropRedeliveries(s, seen, steps)) == Run(s, steps)
    decreases |steps|
  {
    if steps != [] {
      var next := Apply(s, steps[0]);
      GoodStep(s, steps[0]);
      IdsStep(s, steps[0], idOf);
      if steps[0].Deliver? && steps[0].event.id in seen {
        assert next == s;
        RedeliveriesInvisible(s, seen, steps[1..], idOf);
      } else {
        var more := seen + StoredIds(next.payments);
        assert forall e | e in StoredIds(next.payments) :: Recorded(next.payments, e);
        RedeliveriesInvisible(next, more, steps[1..], idOf);
        var rest := DropRedeliveries(next, more, steps[1..]);
        assert ([steps[0]] + rest)[1..] == rest;
      }
    }
  }

  /** The payment an event is about exists, and no unfinished call has its reservation. */
  ghost predicate Reaches(s: State, body: EventBody) {
    && Target(s, body).Some? && Target(s, body).value in s.payments
    && s.payments[Target(s, body).value].reservationId !in s.busy
  }

  /** The partial unique index lets this payment's reservation be confirmed. */
  predicate SeatAdmits(s: State, pid: nat)
    requires pid in s.payments && s.payments[pid].reservationId in s.reservations
  {
    var rid := s.payments[pid].reservationId;
    IndexAllows(s.reservations, rid, ConfirmedRow(s.reservations[rid]))
  }

  /** What the handler of an event that is not a paid one writes to its payment. */
  function AfterEvent(p: Payment, event: Event): Payment {
    var q := p.(stripeEventId := Some(event.id));
    match event.body
    case Completed(pid, paid, intent) => q.(status := InProgress)
    case AsyncFailed(pid) => q.(status := Failed)
    case SessionExpired(pid) => q.(status := TimedOut)
    case Dispute(intent, reason) => q.(disputeReason := Some(reason))
    case OtherEvent => p
  }

  predicate PaidBody(body: EventBody) {
    body.Completed? && body.paid
  }

  /** A delivery of any type acts exactly when it reaches its payment, no payment stores its id any more, and,
      for a paid one, the index admits the seat. Otherwise, a throwing confirm included, it writes nothing and can
      be retried. A paid one confirms; any other one writes its status, whatever the payment's status was. */
  lemma DeliveryActsIff(s: State, event: Event)
    requires Good(s)
    ensures var after := DoDeliver(s, event);
            var acts := Reaches(s, event.body) && !Recorded(s.payments, event.id)
                        && (PaidBody(event.body) ==> SeatAdmits(s, event.body.pid));
            && (after != s <==> acts)
            && (acts && !PaidBody(event.body) ==>
                  var pid := Target(s, event.body).value;
                  after == s.(payments := s.payments[pid := AfterEvent(s.payments[pid], event)]))
            && (acts && PaidBody(event.body) ==>
                  var rid := s.payments[event.body.pid].reservationId;
                  after == s.(reservations := s.reservations[rid := ConfirmedRow(s.reservations[rid])],
                              busy := s.busy[rid := PaidConfirmed(event.body.pid, event.id, event.body.intent)]))
  {
    if Reaches(s, event.body) && !Recorded(s.payments, event.id) {
      var pid := Target(s, event.body).value;
      if PaidBody(event.body) {
        var rid := s.payments[pid].reservationId;
        assert DoDeliver(s, event).busy == s.busy ==> rid !in DoDeliver(s, event).busy;
      } else {
        EventFits(s, event, pid);
      }
    }
  }

  lemma EventFits(s: State, event: Event, pid: nat)
    requires Good(s) && pid in s.payments && !Recorded(s.payments, event.id)
    ensures CanUpdate(s.payments, pid, AfterEvent(s.payments[pid], event))
    ensures !event.body.OtherEvent? ==> s.payments[pid := AfterEvent(s.payments[pid], event)] != s.payments
  {
    var after := s.payments[pid := AfterEvent(s.payments[pid], event)];
    if !event.body.OtherEvent? {
      assert after[pid].stripeEventId == Some(event.id) && s.payments[pid].stripeEventId != Some(event.id);
    }
  }

  /** A crash between the confirm and the record: the redelivery resumes exactly where the first one stopped. */
  lemma CrashedDeliveryResumes(s: State, event: Event)
    requires Good(s) && PaidBody(event.body) && Reaches(s, event.body)
    ensures var rid := s.payments[event.body.pid].reservationId;
            var first := Apply(s, Deliver(event));
            Apply(Apply(first, Crash(rid)), Deliver(event)) == first
  {
    var rid := s.payments[event.body.pid].reservationId;
    var first := Apply(s, Deliver(event));
    var crashed := Apply(first, Crash(rid));
    assert rid in s.reservations;
    DeliveryActsIff(s, event);
    if first == s {
      assert crashed == s;
    } else {
      assert crashed.busy == s.busy;
      assert ConfirmedRow(first.reservations[rid]) == first.reservations[rid];
      assert first.reservations[rid := first.reservations[rid]] == first.reservations;
    }
  }

  /** A refunded, cancelled booking whose payment still stores the id of the event that paid for it. */
  ghost predicate RefundedBooking(s: State, pid: nat, paid: Event) {
    && Good(s) && pid in s.payments && s.payments[pid].reservationId !in s.busy
    && s.payments[pid].status == PaymentStatus.Refunded
    && s.reservations[s.payments[pid].reservationId].status == Cancelled
    && s.payments[pid].stripePaymentId.Some? && s.payments[pid].stripeEventId == Some(paid.id)
    && paid.body == Completed(pid, true, s.payments[pid].stripePaymentId.value)
  }

  /** With two event ids the claim fails: a dispute overwrites the recorded id, and a redelivery of the paid
      event then brings the booking back to SUCCEEDED and CONFIRMED if its seat is still free. */
  lemma OlderEventReprocessed(s: State, pid: nat, paid: Event, dispute: Event, reason: string)
    requires RefundedBooking(s, pid, paid)
    requires dispute.body == Dispute(s.payments[pid].stripePaymentId.value, reason)
    requires dispute.id != paid.id && !Recorded(s.payments, dispute.id)
    requires var row := s.reservations[s.payments[pid].reservationId]; !Taken(s.reservations, row.screeningId, row.seatId)
    ensures Apply(s, Deliver(paid)) == s
    ensures var rid := s.payments[pid].reservationId;
            var end := Apply(Apply(Apply(s, Deliver(dispute)), Deliver(paid)), Continue(rid, true, ""));
            end.payments[pid].status == Succeeded && end.reservations[rid].status == Confirmed
  {
    var rid := s.payments[pid].reservationId;
    assert PaymentWithIntent(s.payments, s.payments[pid].stripePaymentId.value) == pid;
    var marked := s.payments[pid].(disputeReason := Some(reason), stripeEventId := Some(dispute.id));
    var s1 := s.(payments := s.payments[pid := marked]);
    assert PaymentFits(s.payments, pid, marked);
    assert Apply(s, Deliver(dispute)) == s1;
    GoodStep(s, Deliver(dispute));
    assert !Recorded(s1.payments, paid.id);
    DeliveryActsIff(s1, paid);
  }

  /** Nor is a dispute needed: any failed or expired event whose id the paid one has overwritten undoes the
      payment's SUCCEEDED when it comes again, while the seat stays CONFIRMED. */
  lemma OlderFailureReprocessed(s: State, pid: nat, older: Event)
    requires Good(s) && pid in s.payments && s.payments[pid].status == Succeeded && s.payments[pid].reservationId !in s.busy
    requires (older.body == SessionExpired(pid) || older.body == AsyncFailed(pid)) && !Recorded(s.payments, older.id)
    ensures var end := Apply(s, Deliver(older)); var rid := s.payments[pid].reservationId;
            && pid in end.payments && end.payments[pid].status == (if older.body.SessionExpired? then TimedOut else Failed)
            && rid in end.reservations && end.reservations[rid].status == Confirmed
  {
    DeliveryActsIff(s, older);
  }

  // ---- Failures that are written but not put on record ----

  /** The user whose failure this delivery puts on record; `lives` says whether the call gets past its write. */
  ghost function RecordedFailure(s: State, event: Event, lives: bool): seq<int> {
    if event.body.AsyncFailed? && Reaches(s, event.body) && !Recorded(s.payments, event.id) && lives
       && s.payments[event.body.pid].reservationId in s.reservations
    then [s.reservations[s.payments[event.body.pid].reservationId].userId] else []
  }

  /** This step writes another event id over the one that the payment stores. */
  ghost predicate Overwrites(s: State, step: Step, pid: nat, id: string) {
    match step
    case Deliver(event) =>
      !PaidBody(event.body) && Reaches(s, event.body) && Target(s, event.body) == Some(pid) && !Recorded(s.payments, event.id)
    case Continue(rid, ok, session) =>
      && ok && rid in s.busy && s.busy[rid].PaidConfirmed? && s.busy[rid].pid == pid && s.busy[rid].eventId != id
      && pid in s.payments && CanUpdate(s.payments, pid, RecordedPayment(s.payments[pid], s.busy[rid].eventId, s.busy[rid].intent))
    case _ => false
  }

  /** The payment is there, stores some event id, and belongs to this user's reservation. */
  ghost predicate Owns(s: State, pid: nat, rid: int, userId: int) {
    && pid in s.payments && s.payments[pid].stripeEventId.Some? && s.payments[pid].reservationId == rid
    && rid in s.reservations && s.reservations[rid].userId == userId
  }

  lemma StoredDeliver(s: State, event: Event, pid: nat, id: string)
    requires Good(s) && pid in s.payments && s.payments[pid].stripeEventId == Some(id)
    ensures var after := DoDeliver(s, event);
            pid in after.payments && (after.payments[pid].stripeEventId == Some(id) <==> !Overwrites(s, Deliver(event), pid, id))
  {
    DeliveryActsIff(s, event);
  }

  lemma StoredContinue(s: State, rid: int, ok: bool, session: string, pid: nat, id: string)
    requires Good(s) && rid in s.busy && pid in s.payments && s.payments[pid].stripeEventId == Some(id)
    ensures var after := DoContinue(s, rid, ok, session);
            pid in after.payments && (after.payments[pid].stripeEventId == Some(id) <==> !Overwrites(s, Continue(rid, ok, session), pid, id))
  {
    assert PendingOk(s, rid, s.busy[rid]);
  }

  lemma StoredOther(s: State, step: Step, pid: nat, id: string)
    requires Good(s) && !step.Deliver? && !step.Continue? && pid in s.payments && s.payments[pid].stripeEventId == Some(id)
    ensures pid in Apply(s, step).payments && Apply(s, step).payments[pid].stripeEventId == Some(id)
  {
    var own: nat -> string := _ => id;
    OthersWriteNoIds(s, step, own);
  }

  /** A stored event id goes exactly when another event, or a payment's record, is written over it. */
  lemma StoredStepIff(s: State, step: Step, pid: nat, id: string)
    requires Good(s) && pid in s.payments && s.payments[pid].stripeEventId == Some(id)
    ensures pid in Apply(s, step).payments
    ensures Apply(s, step).payments[pid].stripeEventId == Some(id) <==> !Overwrites(s, step, pid, id)
  {
    match step
    case Deliver(event) => StoredDeliver(s, event, pid, id);
    case Continue(rid, ok, session) => if rid in s.busy { StoredContinue(s, rid, ok, session, pid, id); }
    case _ => StoredOther(s, step, pid, id);
  }

  ghost predicate NeverOverwritten(s: State, steps: seq<Step>, pid: nat, id: string)
    decreases |steps|
  {
    steps == [] || (!Overwrites(s, steps[0], pid, id) && NeverOverwritten(Apply(s, steps[0]), steps[1..], pid, id))
  }

  /** While nothing is written over the failed event's id, every redelivery is taken for processed: a failure
      that was not put on record the first time is lost. */
  lemma {:induction false} LostWhileStored(s: State, steps: seq<Step>, pid: nat, event: Event, lives: bool)
    requires Good(s) && pid in s.payments && s.payments[pid].stripeEventId == Some(event.id)
    requires NeverOverwritten(s, steps, pid, event.id) && forall i | 0 <= i < |steps| :: Sane(steps[i])
    ensures var end := Run(s, steps); RecordedFailure(end, event, lives) == [] && Apply(end, Deliver(event)) == end
    decreases |steps|
  {
    if steps != [] {
      GoodStep(s, steps[0]);
      StoredStepIff(s, steps[0], pid, event.id);
      LostWhileStored(Apply(s, steps[0]), steps[1..], pid, event, lives);
    }
  }

  lemma OwnsContinue(s: State, id: int, ok: bool, session: string, pid: nat, rid: int, userId: int)
    requires Good(s) && Owns(s, pid, rid, userId) && id in s.busy
    ensures Owns(DoContinue(s, id, ok, session), pid, rid, userId)
  {
    assert PendingOk(s, id, s.busy[id]);
  }

  lemma OwnsDeliver(s: State, event: Event, pid: nat, rid: int, userId: int)
    requires Good(s) && Owns(s, pid, rid, userId)
    ensures Owns(DoDeliver(s, event), pid, rid, userId)
  {
    DeliveryActsIff(s, event);
  }

  lemma OwnsReconcile(s: State, id: nat, intent: string, pid: nat, rid: int, userId: int)
    requires Owns(s, pid, rid, userId)
    ensures Owns(DoReconcilePaid(s, id, intent), pid, rid, userId) && Owns(DoReconcileUnpaid(s, id), pid, rid, userId)
  {
  }

  /** A payment that stores an event id is never deleted, and keeps its reservation and its user. */
  lemma OwnsStep(s: State, step: Step, pid: nat, rid: int, userId: int)
    requires Good(s) && Owns(s, pid, rid, userId)
    ensures Owns(Apply(s, step), pid, rid, userId)
  {
    match step
    case Deliver(event) => OwnsDeliver(s, event, pid, rid, userId);
    case Continue(id, ok, session) => if id in s.busy { OwnsContinue(s, id, ok, session, pid, rid, userId); }
    case ReconcilePaid(id, intent) => OwnsReconcile(s, id, intent, pid, rid, userId);
    case ReconcileUnpaid(id) => OwnsReconcile(s, id, "", pid, rid, userId);
    case _ =>
  }

  lemma {:induction false} OwnsRun(s: State, steps: seq<Step>, pid: nat, rid: int, userId: int)
    requires Good(s) && Owns(s, pid, rid, userId) && forall i | 0 <= i < |steps| :: Sane(steps[i])
    ensures Owns(Run(s, steps), pid, rid, userId)
    decreases |steps|
  {
    if steps != [] {
      GoodStep(s, steps[0]);
      OwnsStep(s, steps[0], pid, rid, userId);
      OwnsRun(Apply(s, steps[0]), steps[1..], pid, rid, userId);
    }
  }

  /** After a failed event has been written, and whatever has happened since, delivering it once more puts the
      user's failure on record exactly when no payment stores its id any more, no call on the reservation is
      unfinished, and this delivery lives on. */
  lemma RedeliveredFailureIff(s: State, event: Event, steps: seq<Step>, lives: bool)
    requires Good(s) && event.body.AsyncFailed? && Reaches(s, event.body) && !Recorded(s.payments, event.id)
    requires forall i | 0 <= i < |steps| :: Sane(steps[i])
    ensures var rid := s.payments[event.body.pid].reservationId;
            var end := Run(Apply(s, Deliver(event)), steps);
            && rid in s.reservations
            && RecordedFailure(end, event, lives) ==
               if !Recorded(end.payments, event.id) && rid !in end.busy && lives then [s.reservations[rid].userId] else []
  {
    var pid := event.body.pid;
    var rid := s.payments[pid].reservationId;
    GoodStep(s, Deliver(event));
    DeliveryActsIff(s, event);
    OwnsRun(Apply(s, Deliver(event)), steps, pid, rid, s.reservations[rid].userId);
  }

  lemma {:induction false} RecordedForGood(s: State, steps: seq<Step>, idOf: nat -> string, id: string)
    requires Good(s) && IdsMatch(s, idOf) && SingleIds(s, steps, idOf) && Recorded(s.payments, id)
    requires forall i | 0 <= i < |steps| :: Sane(steps[i])
    ensures Recorded(Run(s, steps).payments, id)
    decreases |steps|
  {
    if steps != [] {
      GoodStep(s, steps[0]);
      IdsStep(s, steps[0], idOf);
      RecordedForGood(Apply(s, steps[0]), steps[1..], idOf, id);
    }
  }

  /** When each payment hears of one event id only, a failure whose first delivery died is lost for good. */
  lemma LostForGood(s: State, event: Event, steps: seq<Step>, idOf: nat -> string, lives: bool)
    requires Good(s) && event.body.AsyncFailed? && Reaches(s, event.body) && !Recorded(s.payments, event.id)
    requires IdsMatch(s, idOf) && Single(s, Deliver(event), idOf) && SingleIds(Apply(s, Deliver(event)), steps, idOf)
    requires forall i | 0 <= i < |steps| :: Sane(steps[i])
    ensures RecordedFailure(Run(Apply(s, Deliver(event)), steps), event, lives) == []
  {
    GoodStep(s, Deliver(event));
    IdsStep(s, Deliver(event), idOf);
    ActingRecords(s, event);
    RecordedForGood(Apply(s, Deliver(event)), steps, idOf, event.id);
  }

  lemma ActingRecords(s: State, event: Event)
    requires Good(s) && !PaidBody(event.body) && Reaches(s, event.body) && !Recorded(s.payments, event.id)
    ensures Recorded(DoDeliver(s, event).payments, event.id)
  {
    DeliveryActsIff(s, event);
    var pid := Target(s, event.body).value;
    assert DoDeliver(s, event).payments[pid].stripeEventId == Some(event.id);
  }

  // ---- From the empty system ----

  const ExpiredEvent := Event("evt_old", SessionExpired(Pid))
  const FailedEvent := Event("evt_old", AsyncFailed(Pid))
  const DisputeEvent := Event("evt_new", Dispute("pi", "fraudulent"))

  lemma OlderMarked(older: Event)
    requires older == ExpiredEvent || older == FailedEvent
    ensures Run(CheckedOut, [Deliver(older)]) == Only(ExtendedRow, AfterEvent(Unpaid, older), [], map[])
  {
    BookedRun();
    RunOne(CheckedOut, Deliver(older));
    DeliveryActsIff(CheckedOut, older);
  }

  lemma OlderDelivered(older: Event)
    requires older == ExpiredEvent || older == FailedEvent
    ensures Run(Initial(Today), [ReserveIt] + CheckOut + [Deliver(older)] + PayIt) == Booked && Good(Booked)
  {
    BookedRun();
    OlderMarked(older);
    RunConcat(Initial(Today), [ReserveIt] + CheckOut, [Deliver(older)]);
    RunConcat(Initial(Today), [ReserveIt] + CheckOut + [Deliver(older)], PayIt);
    PaidRun(ExtendedRow, AfterEvent(Unpaid, older));
  }

  /** An expired or failed event, a paid one, and the first one again: TIMED_OUT or FAILED, and CONFIRMED. */
  lemma OlderFailureRun(older: Event)
    requires older == ExpiredEvent || older == FailedEvent
    ensures var end := Run(Initial(Today), [ReserveIt] + CheckOut + [Deliver(older)] + PayIt + [Deliver(older)]);
            && Pid in end.payments && end.payments[Pid].status == (if older == ExpiredEvent then TimedOut else Failed)
            && Rid in end.reservations && end.reservations[Rid].status == Confirmed
  {
    OlderDelivered(older);
    RunConcat(Initial(Today), [ReserveIt] + CheckOut + [Deliver(older)] + PayIt, [Deliver(older)]);
    RunOne(Booked, Deliver(older));
    OlderFailureReprocessed(Booked, Pid, older);
  }

  /** The failed event is written, the process dies, and the redelivery records nothing. */
  lemma FailureLost()
    ensures var s := Run(Initial(Today), [ReserveIt] + CheckOut);
            && s == CheckedOut && RecordedFailure(s, FailedEvent, true) == [Alice] && RecordedFailure(s, FailedEvent, false) == []
            && RecordedFailure(Run(s, [Deliver(FailedEvent)]), FailedEvent, true) == []
  {
    BookedRun();
    OlderMarked(FailedEvent);
    var marked := Run(CheckedOut, [Deliver(FailedEvent)]);
    assert marked.payments[Pid].stripeEventId == Some("evt_old");
    assert !Recorded(CheckedOut.payments, "evt_old");
  }

  /** The paid event in between: now the redelivery does record a failure, against a payment that has succeeded. */
  lemma FailureComesBack()
    ensures var s := Run(Initial(Today), [ReserveIt] + CheckOut + [Deliver(FailedEvent)] + PayIt);
            s == Booked && RecordedFailure(s, FailedEvent, true) == [Alice] && s.payments[Pid].status == Succeeded
  {
    OlderDelivered(FailedEvent);
    assert !Recorded(Booked.payments, "evt_old");
  }

  const RefundIt := [CancelIt, Continue(Rid, true, "")] + [Continue(Rid, true, ""), Continue(Rid, true, "")]

  const RefundedBooked := Only(ConfirmedRow(Row).(status := Cancelled),
                               Paid.(status := PaymentStatus.Refunded, refundId := Some(0)), [FullRefund], map[])

  lemma RefundFinished()
    ensures Run(Asked100, [Continue(Rid, true, ""), Continue(Rid, true, "")]) == RefundedBooked
  {
    RunTwo(Asked100, Continue(Rid, true, ""), Continue(Rid, true, ""));
    var refunded := Paid.(status := PaymentStatus.Refunded, refundId := Some(0));
    assert Apply(Asked100, Continue(Rid, true, "")) == Only(ConfirmedRow(Row), refunded, [FullRefund], map[Rid := RefundWritten(Pid)]);
  }

  /** Booked, cancelled and refunded in full. */
  lemma RefundedRun()
    ensures Run(Initial(Today), BookIt + RefundIt) == RefundedBooked
  {
    AskedRun();
    RefundFinished();
    assert BookIt + RefundIt == (BookIt + [CancelIt, Continue(Rid, true, "")]) + [Continue(Rid, true, ""), Continue(Rid, true, "")];
    RunConcat(Initial(Today), BookIt + [CancelIt, Continue(Rid, true, "")], [Continue(Rid, true, ""), Continue(Rid, true, "")]);
  }

  lemma RefundedGood()
    ensures RefundedBooking(RefundedBooked, Pid, PaidEvent)
  {
    RefundedRun();
    SucceededAlwaysConfirmed(Initial(Today), BookIt + RefundIt);
  }

  lemma PaidIgnored()
    ensures Run(RefundedBooked, [Deliver(PaidEvent)]) == RefundedBooked
  {
    RunOne(RefundedBooked, Deliver(PaidEvent));
    assert RefundedBooked.payments[Pid].stripeEventId == Some("evt_paid");
  }

  lemma Revived()
    ensures var end := Apply(Apply(Apply(RefundedBooked, Deliver(DisputeEvent)), Deliver(PaidEvent)), Continue(Rid, true, ""));
            && Pid in end.payments && end.payments[Pid].status == Succeeded
            && Rid in end.reservations && end.reservations[Rid].status == Confirmed
  {
    RefundedGood();
    assert !Recorded(RefundedBooked.payments, "evt_new");
    OlderEventReprocessed(RefundedBooked, Pid, PaidEvent, DisputeEvent, "fraudulent");
  }

  /** Booked and refunded, disputed, and the paid event again: SUCCEEDED and CONFIRMED, with the money gone. */
  lemma RevivedRun()
    ensures var refunded := Run(Initial(Today), BookIt + RefundIt);
            var end := Run(refunded, [Deliver(DisputeEvent), Deliver(PaidEvent), Continue(Rid, true, "")]);
            && Run(refunded, [Deliver(PaidEvent)]) == refunded
            && Pid in end.payments && end.payments[Pid].status == Succeeded
            && Rid in end.reservations && end.reservations[Rid].status == Confirmed
  {
    RefundedRun();
    PaidIgnored();
    Revived();
    RunThree(RefundedBooked, Deliver(DisputeEvent), Deliver(PaidEvent), Continue(Rid, true, ""));
  }

  /** Redeliveries are invisible over every single-id run from the empty system. */
  lemma RedeliveriesInvisibleEver(now: int, steps: seq<Step>, idOf: nat -> string)
    requires SingleIds(Initial(now), steps, idOf) && forall i | 0 <= i < |steps| :: Sane(steps[i])
    ensures Run(Initial(now), DropRedeliveries(Initial(now), {}, steps)) == Run(Initial(now), steps)
  {
    RedeliveriesInvisible(Initial(now), {}, steps, idOf);
  }
}
