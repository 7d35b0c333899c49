/** How long a seat can stay HELD when the sweep runs at least once a minute. */
module HoldDeadlines {
  import opened Tables
  import opened Refunds
  import opened Booking

  /** The sweep has run within the last minute. */
  predicate Punctual(s: State) {
    s.now <= s.lastSweep + MINUTE
  }

  /** The cron keeps its schedule all along the run. */
  ghost predicate KeepsSchedule(s: State, steps: seq<Step>)
    decreases |steps|
  {
    Punctual(s) && (steps == [] || KeepsSchedule(Apply(s, steps[0]), steps[1..]))
  }

  predicate CheckingOut(s: State, rid: int) {
    rid in s.busy && s.busy[rid].Checkout()
  }

  /** A payment row that no checkout is still working on: only then may the deadline have been pushed out. */
  ghost predicate HasSettledPayment(s: State, rid: int) {
    HasPayment(s.payments, rid) && !CheckingOut(s, rid)
  }

  /** The deadline of one HELD row. */
  ghost predicate RowTimely(s: State, rid: int)
    requires rid in s.reservations
  {
    var row := s.reservations[rid];
    row.status == Held ==>
      && row.heldUntil.Some? && row.createdAt <= s.now
      && (row.heldUntil.value >= s.lastSweep || row.createdAt >= s.lastSweep)
      && row.heldUntil.value <= row.createdAt + 41 * MINUTE
      && (!HasSettledPayment(s, rid) ==> row.heldUntil.value <= row.createdAt + HOLD_MINUTES * MINUTE)
      && (rid in s.busy && s.busy[rid].CheckoutStored? ==>
            row.heldUntil.value <= s.busy[rid].until <= row.createdAt + 41 * MINUTE)
  }

  ghost predicate Timely(s: State) {
    s.lastSweep <= s.now && forall rid | rid in s.reservations :: RowTimely(s, rid)
  }

  lemma TimelySweep(s: State)
    requires Good(s) && Timely(s)
    ensures Timely(Apply(s, Sweep))
  {
  }

  lemma TimelyReserve(s: State, userId: int, screeningId: int, seatId: int, asked: int)
    requires Good(s) && Timely(s)
    ensures Timely(DoReserve(s, userId, screeningId, seatId, asked))
  {
  }

  lemma TimelyCheckout(s: State, userId: int, rid: int, price: Option<nat>)
    requires Good(s) && Timely(s)
    ensures Timely(StartCheckout(s, userId, rid, price))
  {
    var after := StartCheckout(s, userId, rid, price);
    if after != s {
      forall id | id in after.reservations ensures RowTimely(after, id) {
        assert RowTimely(s, id);
        if id != rid && HasPayment(s.payments, id) {
          assert after.payments[PaymentOf(s.payments, id)].reservationId == id;
        }
      }
    }
  }

  /** Rows change only by leaving HELD; calls in checkout stay where they are; payments keep their reservation. */
  lemma TimelyOther(s: State, after: State)
    requires Timely(s)
    requires after.now == s.now && after.lastSweep == s.lastSweep && after.reservations.Keys == s.reservations.Keys
    requires forall rid | rid in s.reservations :: after.reservations[rid] == s.reservations[rid] || after.reservations[rid].status != Held
    requires forall rid :: CheckingOut(after, rid) ==> rid in s.busy && s.busy[rid] == after.busy[rid]
    requires forall rid :: CheckingOut(s, rid) ==> rid in after.busy && s.busy[rid] == after.busy[rid]
    requires forall pid | pid in s.payments :: pid in after.payments && after.payments[pid].reservationId == s.payments[pid].reservationId
    ensures Timely(after)
  {
  }

  /** Flooring to whole seconds costs less than a second of the thirty minutes. */
  lemma SessionExpiryBounds(now: int)
    ensures now + CHECKOUT_EXPIRY_MINUTES * MINUTE - 1000 < SessionExpiry(now) <= now + CHECKOUT_EXPIRY_MINUTES * MINUTE
  {
  }

  lemma TimelyStored(s: State, rid: int, session: string)
    requires Good(s) && Timely(s) && Punctual(s) && rid in s.busy && s.busy[rid].CheckoutStarted?
    ensures Timely(DoContinue(s, rid, true, session))
  {
    assert PendingOk(s, rid, s.busy[rid]);
    var after := DoContinue(s, rid, true, session);
    SessionExpiryBounds(s.now);
    forall id | id in after.reservations ensures RowTimely(after, id) {
      assert RowTimely(s, id);
      if id != rid && HasPayment(s.payments, id) {
        assert after.payments[PaymentOf(s.payments, id)].reservationId == id;
      }
    }
  }

  lemma TimelyExtended(s: State, rid: int, session: string)
    requires Good(s) && Timely(s) && rid in s.busy && s.busy[rid].CheckoutStored?
    ensures Timely(DoContinue(s, rid, true, session))
  {
  }

  lemma TimelyUndone(s: State, rid: int, session: string)
    requires Good(s) && Timely(s) && rid in s.busy && s.busy[rid].CheckoutFailed?
    ensures Timely(DoContinue(s, rid, true, session))
  {
    assert PendingOk(s, rid, s.busy[rid]) && RowTimely(s, rid);
    var after := DoContinue(s, rid, true, session);
    forall id | id in after.reservations ensures RowTimely(after, id) {
      assert RowTimely(s, id);
      if id != rid && HasPayment(s.payments, id) {
        assert after.payments[PaymentOf(s.payments, id)].reservationId == id;
      }
    }
  }

  /** A failed or crashed piece of a checkout leaves every deadline alone. */
  lemma TimelyThrown(s: State, rid: int, after: State)
    requires Good(s) && Timely(s) && rid in s.busy
    requires after == Done(s, rid) || (s.busy[rid].Checkout() && after == s.(busy := s.busy[rid := CheckoutFailed(s.busy[rid].pid)]))
    ensures Timely(after)
  {
  }

  lemma TimelyContinue(s: State, rid: int, ok: bool, session: string)
    requires Good(s) && Timely(s) && Punctual(s) && rid in s.busy
    ensures Timely(DoContinue(s, rid, ok, session))
  {
    assert PendingOk(s, rid, s.busy[rid]);
    if !ok {
      TimelyThrown(s, rid, DoContinue(s, rid, ok, session));
    } else {
      match s.busy[rid]
      case CheckoutStarted(pid) => TimelyStored(s, rid, session);
      case CheckoutStored(pid, until) => TimelyExtended(s, rid, session);
      case CheckoutFailed(pid) => TimelyUndone(s, rid, session);
      case _ => TimelyRest(s, rid, session);
    }
  }

  lemma TimelyRest(s: State, rid: int, session: string)
    requires Good(s) && Timely(s) && rid in s.busy && !s.busy[rid].Checkout()
    ensures Timely(DoContinue(s, rid, true, session))
  {
    assert PendingOk(s, rid, s.busy[rid]);
    TimelyOther(s, DoContinue(s, rid, true, session));
  }

  lemma TimelyStep(s: State, step: Step)
    requires Good(s) && Timely(s) && Punctual(s)
    ensures Timely(Apply(s, step))
  {
    match step
    case Tick(to) =>
      forall rid | rid in s.reservations ensures RowTimely(Apply(s, step), rid) { assert RowTimely(s, rid); }
    case Sweep => TimelySweep(s);
    case Reserve(userId, screeningId, seatId, asked) => TimelyReserve(s, userId, screeningId, seatId, asked);
    case Checkout(userId, rid, price) => TimelyCheckout(s, userId, rid, price);
    case Cancel(userId, rid, startTime, table) => TimelyCancel(s, userId, rid, startTime, table);
    case Deliver(event) => TimelyDeliver(s, event);
    case ReconcilePaid(pid, intent) => TimelyReconcile(s, pid, intent);
    case ReconcileUnpaid(pid) => TimelyReconcile(s, pid, "");
    case Continue(rid, ok, session) => if rid in s.busy { TimelyContinue(s, rid, ok, session); }
    case Crash(rid) => TimelyCrash(s, rid);
  }

  lemma TimelyCrash(s: State, rid: int)
    requires Good(s) && Timely(s)
    ensures Timely(Done(s, rid))
  {
  }

  lemma TimelyCancel(s: State, userId: int, rid: int, startTime: Option<int>, table: seq<Policy>)
    requires Timely(s)
    ensures Timely(StartCancel(s, userId, rid, startTime, table))
  {
  }

  lemma TimelyReconcile(s: State, pid: nat, intent: string)
    requires Good(s) && Timely(s)
    ensures Timely(DoReconcilePaid(s, pid, intent)) && Timely(DoReconcileUnpaid(s, pid))
  {
    TimelyOther(s, DoReconcilePaid(s, pid, intent));
    TimelyOther(s, DoReconcileUnpaid(s, pid));
  }

  lemma TimelyMark(s: State, pid: nat, p: Payment)
    requires Timely(s) && pid in s.payments && p.reservationId == s.payments[pid].reservationId
    ensures Timely(Mark(s, pid, p))
  {
    TimelyOther(s, Mark(s, pid, p));
  }

  lemma TimelyPaid(s: State, pid: nat, eventId: string, intent: string)
    requires Timely(s) && pid in s.payments && s.payments[pid].reservationId !in s.busy
    ensures Timely(StartPaid(s, pid, eventId, intent))
  {
  }

  lemma TimelyDeliver(s: State, event: Event)
    requires Good(s) && Timely(s)
    ensures Timely(DoDeliver(s, event))
  {
    if DoDeliver(s, event) != s {
      match event.body
      case Completed(pid, paid, intent) =>
        if paid { TimelyPaid(s, pid, event.id, intent); }
        else { TimelyMark(s, pid, s.payments[pid].(status := InProgress, stripeEventId := Some(event.id))); }
      case AsyncFailed(pid) => TimelyMark(s, pid, s.payments[pid].(status := Failed, stripeEventId := Some(event.id)));
      case SessionExpired(pid) => TimelyMark(s, pid, s.payments[pid].(status := TimedOut, stripeEventId := Some(event.id)));
      case Dispute(intent, reason) =>
        var pid := PaymentWithIntent(s.payments, intent);
        TimelyMark(s, pid, s.payments[pid].(disputeReason := Some(reason), stripeEventId := Some(event.id)));
      case OtherEvent =>
    }
  }

  /** With the sweep on schedule, nothing is HELD for longer than 10 + 1 + 30 + 1 minutes. */
  lemma {:induction false} HeldAtMost42Minutes(s: State, steps: seq<Step>, rid: int)
    requires Good(s) && Timely(s) && KeepsSchedule(s, steps)
    requires forall i | 0 <= i < |steps| :: Sane(steps[i])
    requires rid in Run(s, steps).reservations && Run(s, steps).reservations[rid].status == Held
    ensures Run(s, steps).now <= Run(s, steps).reservations[rid].createdAt + 42 * MINUTE
    decreases |steps|
  {
    if steps == [] {
      assert RowTimely(s, rid);
    } else {
      GoodStep(s, steps[0]);
      TimelyStep(s, steps[0]);
      HeldAtMost42Minutes(Apply(s, steps[0]), steps[1..], rid);
    }
  }

  /** A successful extension never moves a deadline back. */
  lemma ExtensionNeverShortens(s: State, rid: int, session: string)
    requires Good(s) && Timely(s) && rid in s.busy && s.busy[rid].CheckoutStored? && s.reservations[rid].status == Held
    ensures var after := DoContinue(s, rid, true, session);
            after.reservations[rid].heldUntil.Some? &&
            after.reservations[rid].heldUntil.value >= s.reservations[rid].heldUntil.value &&
            after.reservations[rid].status == Held && HasSettledPayment(after, rid)
  {
  }

  /** ... and the payment it leaves behind refuses every later checkout. */
  lemma SettledRefusesCheckout(s: State, userId: int, rid: int, price: Option<nat>)
    requires HasSettledPayment(s, rid)
    ensures StartCheckout(s, userId, rid, price) == s
  {
  }

  lemma SettledContinue(s: State, rid: int, id: int, ok: bool, session: string)
    requires Good(s) && HasSettledPayment(s, rid) && id in s.busy
    ensures HasSettledPayment(DoContinue(s, id, ok, session), rid)
  {
    assert PendingOk(s, id, s.busy[id]);
    var pid := PaymentOf(s.payments, rid);
    var after := DoContinue(s, id, ok, session);
    assert pid in after.payments && after.payments[pid].reservationId == rid;
  }

  lemma SettledKept(s: State, rid: int, after: State)
    requires HasSettledPayment(s, rid) && (CheckingOut(after, rid) ==> CheckingOut(s, rid))
    requires forall pid | pid in s.payments :: pid in after.payments && after.payments[pid].reservationId == s.payments[pid].reservationId
    ensures HasSettledPayment(after, rid)
  {
    var pid := PaymentOf(s.payments, rid);
    assert pid in after.payments;
  }

  lemma SettledCheckout(s: State, rid: int, userId: int, id: int, price: Option<nat>)
    requires Good(s) && HasSettledPayment(s, rid)
    ensures HasSettledPayment(StartCheckout(s, userId, id, price), rid)
  {
    SettledKept(s, rid, StartCheckout(s, userId, id, price));
  }

  lemma SettledCancel(s: State, rid: int, userId: int, id: int, startTime: Option<int>, table: seq<Policy>)
    requires HasSettledPayment(s, rid)
    ensures HasSettledPayment(StartCancel(s, userId, id, startTime, table), rid)
  {
    SettledKept(s, rid, StartCancel(s, userId, id, startTime, table));
  }

  lemma SettledDeliver(s: State, rid: int, event: Event)
    requires HasSettledPayment(s, rid)
    ensures HasSettledPayment(DoDeliver(s, event), rid)
  {
    SettledKept(s, rid, DoDeliver(s, event));
  }

  lemma SettledReconcile(s: State, rid: int, pid: nat, intent: string)
    requires HasSettledPayment(s, rid)
    ensures HasSettledPayment(DoReconcilePaid(s, pid, intent), rid) && HasSettledPayment(DoReconcileUnpaid(s, pid), rid)
  {
    SettledKept(s, rid, DoReconcilePaid(s, pid, intent));
    SettledKept(s, rid, DoReconcileUnpaid(s, pid));
  }

  lemma SettledStep(s: State, rid: int, step: Step)
    requires Good(s) && HasSettledPayment(s, rid)
    ensures HasSettledPayment(Apply(s, step), rid)
  {
    match step
    case Continue(id, ok, session) => if id in s.busy { SettledContinue(s, rid, id, ok, session); }
    case Checkout(userId, id, price) => SettledCheckout(s, rid, userId, id, price);
    case Cancel(userId, id, startTime, table) => SettledCancel(s, rid, userId, id, startTime, table);
    case Deliver(event) => SettledDeliver(s, rid, event);
    case ReconcilePaid(pid, intent) => SettledReconcile(s, rid, pid, intent);
    case ReconcileUnpaid(pid) => SettledReconcile(s, rid, pid, "");
    case _ =>
  }

  /** This step is a successful extension of the reservation's hold. */
  predicate Extends(s: State, step: Step, rid: int) {
    step.Continue? && step.rid == rid && step.ok && rid in s.busy && s.busy[rid].CheckoutStored?
  }

  ghost function Extensions(s: State, steps: seq<Step>, rid: int): nat
    decreases |steps|
  {
    if steps == [] then 0
    else (if Extends(s, steps[0], rid) then 1 else 0) + Extensions(Apply(s, steps[0]), steps[1..], rid)
  }

  /** Once it has a settled payment, a reservation keeps one and its hold is never extended again. */
  lemma {:induction false} SettledForGood(s: State, steps: seq<Step>, rid: int)
    requires Good(s) && HasSettledPayment(s, rid) && forall i | 0 <= i < |steps| :: Sane(steps[i])
    ensures HasSettledPayment(Run(s, steps), rid) && Extensions(s, steps, rid) == 0
    decreases |steps|
  {
    if steps != [] {
      GoodStep(s, steps[0]);
      SettledStep(s, rid, steps[0]);
      SettledForGood(Apply(s, steps[0]), steps[1..], rid);
    }
  }

  /** Over any run, whatever crashes or is retried, a hold is extended at most once. */
  lemma {:induction false} ExtendedAtMostOnce(s: State, steps: seq<Step>, rid: int)
    requires Good(s) && forall i | 0 <= i < |steps| :: Sane(steps[i])
    ensures Extensions(s, steps, rid) <= 1
    decreases |steps|
  {
    if steps != [] {
      GoodStep(s, steps[0]);
      if Extends(s, steps[0], rid) {
        assert PendingOk(s, rid, s.busy[rid]);
        assert Apply(s, steps[0]).payments[s.busy[rid].pid].reservationId == rid;
        SettledForGood(Apply(s, steps[0]), steps[1..], rid);
      } else {
        ExtendedAtMostOnce(Apply(s, steps[0]), steps[1..], rid);
      }
    }
  }

  /** The same from the empty system. */
  lemma HeldAtMost42MinutesEver(now: int, steps: seq<Step>, rid: int)
    requires KeepsSchedule(Initial(now), steps) && forall i | 0 <= i < |steps| :: Sane(steps[i])
    requires rid in Run(Initial(now), steps).reservations && Run(Initial(now), steps).reservations[rid].status == Held
    ensures Run(Initial(now), steps).now <= Run(Initial(now), steps).reservations[rid].createdAt + 42 * MINUTE
  {
    HeldAtMost42Minutes(Initial(now), steps, rid);
  }

  // ---- And no hold ends too soon ----

  /** Nobody cancels the reservation, and Stripe does not decline its payment. */
  ghost predicate LeftAlone(s: State, step: Step, rid: int) {
    && (step.Cancel? ==> step.rid != rid)
    && (step.ReconcileUnpaid? && step.pid in s.payments ==> s.payments[step.pid].reservationId != rid)
  }

  ghost predicate AllLeftAlone(s: State, steps: seq<Step>, rid: int)
    decreases |steps|
  {
    steps == [] || (LeftAlone(s, steps[0], rid) && AllLeftAlone(Apply(s, steps[0]), steps[1..], rid))
  }

  /** No cancel of this reservation is under way. */
  predicate NotCancelling(s: State, rid: int) {
    rid in s.busy ==> s.busy[rid].Checkout() || s.busy[rid].PaidConfirmed?
  }

  /** Confirmed, or held at least until `d`, and a checkout that has still to move the deadline will not move it before `d`. */
  ghost predicate Lasts(s: State, rid: int, d: int) {
    && rid in s.reservations && NotCancelling(s, rid)
    && (s.reservations[rid].status == Confirmed ||
        (s.reservations[rid].status == Held && s.reservations[rid].heldUntil.Some? && s.reservations[rid].heldUntil.value >= d
         && (rid in s.busy && s.busy[rid].CheckoutStored? ==> s.busy[rid].until >= d)
         && (!HasSettledPayment(s, rid) ==> d <= s.now + 29 * MINUTE)))
  }

  lemma LastsSweep(s: State, rid: int, d: int)
    requires Lasts(s, rid, d) && s.now <= d
    ensures Lasts(Apply(s, Sweep), rid, d)
  {
    assert Apply(s, Sweep).reservations[rid] == s.reservations[rid];
  }

  lemma LastsCheckout(s: State, rid: int, d: int, userId: int, id: int, price: Option<nat>)
    requires Good(s) && Lasts(s, rid, d)
    ensures Lasts(StartCheckout(s, userId, id, price), rid, d)
  {
    if HasSettledPayment(s, rid) {
      SettledCheckout(s, rid, userId, id, price);
    }
  }

  lemma LastsContinue(s: State, rid: int, d: int, id: int, ok: bool, session: string)
    requires Good(s) && Lasts(s, rid, d) && id in s.busy
    ensures Lasts(DoContinue(s, id, ok, session), rid, d)
  {
    assert PendingOk(s, id, s.busy[id]);
    SessionExpiryBounds(s.now);
    if HasSettledPayment(s, rid) {
      SettledContinue(s, rid, id, ok, session);
    }
  }

  lemma LastsDeliver(s: State, rid: int, d: int, event: Event)
    requires Good(s) && Lasts(s, rid, d)
    ensures Lasts(DoDeliver(s, event), rid, d)
  {
    if HasSettledPayment(s, rid) {
      SettledDeliver(s, rid, event);
    }
  }

  lemma LastsCancel(s: State, rid: int, d: int, userId: int, id: int, startTime: Option<int>, table: seq<Policy>)
    requires Lasts(s, rid, d) && id != rid
    ensures Lasts(StartCancel(s, userId, id, startTime, table), rid, d)
  {
    if HasSettledPayment(s, rid) {
      SettledCancel(s, rid, userId, id, startTime, table);
    }
  }

  lemma LastsReconcile(s: State, rid: int, d: int, pid: nat, intent: string)
    requires Lasts(s, rid, d)
    ensures Lasts(DoReconcilePaid(s, pid, intent), rid, d)
    ensures pid in s.payments && s.payments[pid].reservationId != rid ==> Lasts(DoReconcileUnpaid(s, pid), rid, d)
  {
    if HasSettledPayment(s, rid) {
      SettledReconcile(s, rid, pid, intent);
    }
  }

  lemma LastsRest(s: State, rid: int, d: int, step: Step)
    requires Good(s) && Lasts(s, rid, d) && (step.Tick? || step.Reserve? || step.Crash?)
    ensures Lasts(Apply(s, step), rid, d)
  {
    if HasSettledPayment(s, rid) {
      SettledStep(s, rid, step);
    }
  }

  lemma LastsStep(s: State, rid: int, d: int, step: Step)
    requires Good(s) && Lasts(s, rid, d) && LeftAlone(s, step, rid) && s.now <= d
    ensures Lasts(Apply(s, step), rid, d)
  {
    match step
    case Sweep => LastsSweep(s, rid, d);
    case Checkout(userId, id, price) => LastsCheckout(s, rid, d, userId, id, price);
    case Continue(id, ok, session) => if id in s.busy { LastsContinue(s, rid, d, id, ok, session); }
    case Deliver(event) => LastsDeliver(s, rid, d, event);
    case Cancel(userId, id, startTime, table) => LastsCancel(s, rid, d, userId, id, startTime, table);
    case ReconcilePaid(pid, intent) => LastsReconcile(s, rid, d, pid, intent);
    case ReconcileUnpaid(pid) => if pid in s.payments { LastsReconcile(s, rid, d, pid, ""); }
    case _ => LastsRest(s, rid, d, step);
  }

  lemma ClockForward(s: State, step: Step)
    ensures s.now <= Apply(s, step).now
  {
  }

  lemma {:induction false} ClockRuns(s: State, steps: seq<Step>)
    ensures s.now <= Run(s, steps).now
    decreases |steps|
  {
    if steps != [] {
      ClockForward(s, steps[0]);
      ClockRuns(Apply(s, steps[0]), steps[1..]);
    }
  }

  lemma {:induction false} LastsRun(s: State, steps: seq<Step>, rid: int, d: int)
    requires Good(s) && Lasts(s, rid, d) && AllLeftAlone(s, steps, rid) && Run(s, steps).now <= d
    requires forall i | 0 <= i < |steps| :: Sane(steps[i])
    ensures Lasts(Run(s, steps), rid, d)
    decreases |steps|
  {
    if steps != [] {
      ClockRuns(s, steps);
      GoodStep(s, steps[0]);
      LastsStep(s, rid, d, steps[0]);
      LastsRun(Apply(s, steps[0]), steps[1..], rid, d);
    }
  }

  /** A seat reserved at `asked` that nobody cancels and Stripe does not decline is HELD or CONFIRMED for ten minutes,
      however the sweep runs and whatever a checkout does to the deadline. */
  lemma HeldUntilDeadline(s: State, userId: int, screeningId: int, seatId: int, asked: int, steps: seq<Step>)
    requires Good(s) && asked <= s.now && !Taken(s.reservations, screeningId, seatId)
    requires var first := Apply(s, Reserve(userId, screeningId, seatId, asked));
             AllLeftAlone(first, steps, s.nextReservation) && Run(first, steps).now <= asked + 600000
    requires forall i | 0 <= i < |steps| :: Sane(steps[i])
    ensures var end := Run(Apply(s, Reserve(userId, screeningId, seatId, asked)), steps); var rid := s.nextReservation;
            rid in end.reservations && (end.reservations[rid].status == Held || end.reservations[rid].status == Confirmed)
  {
    var first := Apply(s, Reserve(userId, screeningId, seatId, asked));
    GoodReserve(s, userId, screeningId, seatId, asked);
    assert s.nextReservation !in s.busy;
    LastsRun(first, steps, s.nextReservation, asked + 600000);
  }

  /** This step finds the reservation HELD past its deadline, by the clock, and sweeps it. */
  ghost predicate SweptLate(s: State, step: Step, rid: int) {
    && step.Sweep? && rid in s.reservations && s.reservations[rid].status == Held
    && s.reservations[rid].heldUntil.Some? && s.reservations[rid].heldUntil.value < s.now
  }

  /** A HELD row that is left alone stays as it is, is confirmed, or is swept after its deadline; nothing else happens to its status. */
  lemma HeldStep(s: State, step: Step, rid: int)
    requires Good(s) && rid in s.reservations && s.reservations[rid].status == Held && NotCancelling(s, rid) && LeftAlone(s, step, rid)
    ensures var after := Apply(s, step);
            && rid in after.reservations
            && (after.reservations[rid].status == Cancelled <==> SweptLate(s, step, rid))
  {
    if step.Continue? && step.rid in s.busy {
      assert PendingOk(s, step.rid, s.busy[step.rid]);
    }
  }
}
