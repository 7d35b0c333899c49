/** A cancel of a HELD reservation as the two database calls it is: a read, and a blind status write. */
module LateCancels {
  import opened Tables
  import opened Refunds
  import opened Booking
  import opened BookingRuns

  /** `seen` maps each cancel between its two calls to the reservation it found HELD. */
  datatype Unserialised = Unserialised(booking: State, seen: map<int, int>)

  datatype RaceStep =
    | Serialised(step: Step)
    | ReadHeld(call: int, userId: int, rid: int)
    | WriteCancelled(call: int)

  ghost function ApplyRace(u: Unserialised, step: RaceStep): Unserialised {
    match step
    case Serialised(inner) => u.(booking := Apply(u.booking, inner))
    case ReadHeld(call, userId, rid) =>
      if call !in u.seen && Owned(u.booking, userId, rid) && u.booking.reservations[rid].status == Held
      then u.(seen := u.seen[call := rid]) else u
    case WriteCancelled(call) =>
      if call in u.seen then Unserialised(CancelRow(u.booking, u.seen[call]), u.seen - {call}) else u
  }

  ghost function RunRace(u: Unserialised, steps: seq<RaceStep>): Unserialised
    decreases |steps|
  {
    if steps == [] then u else RunRace(ApplyRace(u, steps[0]), steps[1..])
  }

  /** Nobody has paid for this reservation, and no webhook is about to record that somebody has. */
  ghost predicate Harmless(s: State, rid: int) {
    && (forall pid | pid in s.payments && s.payments[pid].reservationId == rid :: s.payments[pid].status != Succeeded)
    && !(rid in s.busy && s.busy[rid].PaidConfirmed?)
  }

  /** A status write to CANCELLED, however late, keeps the invariant exactly when it is harmless. */
  lemma LateCancelIff(s: State, rid: int)
    requires Good(s) && rid in s.reservations
    ensures Good(CancelRow(s, rid)) <==> Harmless(s, rid)
  {
    var after := CancelRow(s, rid);
    if rid in s.busy && s.busy[rid].PaidConfirmed? {
      assert !PendingOk(after, rid, after.busy[rid]);
    }
    if pid :| pid in s.payments && s.payments[pid].reservationId == rid && s.payments[pid].status == Succeeded {
      assert after.payments[pid].status == Succeeded && after.reservations[rid].status == Cancelled;
    }
  }

  /** The unfinished webhook of this reservation will record a payment: its unique columns let it. */
  ghost predicate Recording(s: State, rid: int) {
    && rid in s.busy && s.busy[rid].PaidConfirmed? && s.busy[rid].pid in s.payments
    && CanUpdate(s.payments, s.busy[rid].pid, RecordedPayment(s.payments[s.busy[rid].pid], s.busy[rid].eventId, s.busy[rid].intent))
  }

  /** In terms of what was paid for: a late write takes a paid seat away, at once or with the reservation's own
      next write, exactly when the payment has succeeded or is about to be recorded. */
  lemma LateCancelSeen(s: State, rid: int)
    requires Good(s) && rid in s.reservations
    ensures var after := CancelRow(s, rid);
            PaidMeansConfirmed(after) && PaidMeansConfirmed(Apply(after, Continue(rid, true, ""))) <==>
            (forall pid | pid in s.payments && s.payments[pid].reservationId == rid :: s.payments[pid].status != Succeeded)
            && !Recording(s, rid)
  {
    var after := CancelRow(s, rid);
    var end := Apply(after, Continue(rid, true, ""));
    if pid :| pid in s.payments && s.payments[pid].reservationId == rid && s.payments[pid].status == Succeeded {
      assert after.payments[pid].status == Succeeded && after.reservations[rid].status == Cancelled;
    } else if rid in s.busy && s.busy[rid].PaidConfirmed? {
      assert PendingOk(s, rid, s.busy[rid]);
      if Recording(s, rid) {
        assert end.payments[s.busy[rid].pid].status == Succeeded && end.reservations[rid].status == Cancelled;
      } else {
        assert end.payments == s.payments;
      }
    } else {
      LateCancelIff(s, rid);
      GoodStep(after, Continue(rid, true, ""));
    }
  }

  ghost predicate Sound(u: Unserialised) {
    Good(u.booking) && forall call | call in u.seen :: u.seen[call] in u.booking.reservations
  }

  /** Every late write of the run is harmless at the moment it happens. */
  ghost predicate HarmlessWrites(u: Unserialised, steps: seq<RaceStep>)
    decreases |steps|
  {
    steps == [] ||
    (HarmlessStep(u, steps[0]) && HarmlessWrites(ApplyRace(u, steps[0]), steps[1..]))
  }

  ghost predicate HarmlessStep(u: Unserialised, step: RaceStep) {
    match step
    case Serialised(inner) => Sane(inner)
    case ReadHeld(call, userId, rid) => true
    case WriteCancelled(call) => call in u.seen ==> Harmless(u.booking, u.seen[call])
  }

  lemma RowsStay(s: State, step: Step)
    ensures s.reservations.Keys <= Apply(s, step).reservations.Keys
  {
  }

  lemma SoundStep(u: Unserialised, step: RaceStep)
    requires Sound(u) && HarmlessStep(u, step)
    ensures Sound(ApplyRace(u, step))
  {
    match step
    case Serialised(inner) => GoodStep(u.booking, inner); RowsStay(u.booking, inner);
    case ReadHeld(call, userId, rid) =>
    case WriteCancelled(call) => if call in u.seen { LateCancelIff(u.booking, u.seen[call]); }
  }

  /** With cancels that write late anywhere in the run, every SUCCEEDED payment keeps its CONFIRMED
      reservation as long as each late write is harmless when it happens. */
  lemma {:induction false} LateCancelsRun(u: Unserialised, steps: seq<RaceStep>)
    requires Sound(u) && HarmlessWrites(u, steps)
    ensures Sound(RunRace(u, steps)) && PaidMeansConfirmed(RunRace(u, steps).booking)
    decreases |steps|
  {
    if steps != [] {
      SoundStep(u, steps[0]);
      LateCancelsRun(ApplyRace(u, steps[0]), steps[1..]);
    }
  }

  // ---- Two runs in which they are not ----

  function Steps(steps: seq<Step>): seq<RaceStep> {
    if steps == [] then [] else [Serialised(steps[0])] + Steps(steps[1..])
  }

  lemma {:induction false} RaceConcat(u: Unserialised, a: seq<RaceStep>, b: seq<RaceStep>)
    ensures RunRace(u, a + b) == RunRace(RunRace(u, a), b)
    decreases |a|
  {
    if a == [] {
      assert a + b == b;
    } else {
      assert (a + b)[0] == a[0] && (a + b)[1..] == a[1..] + b;
      RaceConcat(ApplyRace(u, a[0]), a[1..], b);
    }
  }

  lemma {:induction false} RaceSteps(u: Unserialised, steps: seq<Step>)
    ensures RunRace(u, Steps(steps)) == u.(booking := Run(u.booking, steps))
    decreases |steps|
  {
    if steps != [] {
      RaceSteps(u.(booking := Apply(u.booking, steps[0])), steps[1..]);
    }
  }

  lemma RaceOne(u: Unserialised, step: RaceStep)
    ensures RunRace(u, [step]) == ApplyRace(u, step)
  {
    assert [step][1..] == [] && RunRace(ApplyRace(u, step), []) == ApplyRace(u, step);
  }

  /** Reserve; a cancel reads HELD; the given steps; the cancel writes. */
  function Race(between: seq<Step>): seq<RaceStep> {
    Steps([ReserveIt]) + [ReadHeld(9, Alice, Rid)] + Steps(between) + [WriteCancelled(9)]
  }

  lemma RaceRuns(between: seq<Step>)
    ensures RunRace(Unserialised(Initial(Today), map[]), Race(between)) ==
            Unserialised(CancelRow(Run(Reserved, between), Rid), map[])
  {
    var u := Unserialised(Initial(Today), map[]);
    var reserve, read, rest := Steps([ReserveIt]), [ReadHeld(9, Alice, Rid)], Steps(between);
    RaceConcat(u, reserve + read + rest, [WriteCancelled(9)]);
    RaceConcat(u, reserve + read, rest);
    RaceConcat(u, reserve, read);
    RaceSteps(u, [ReserveIt]);
    ReservedRun();
    RaceOne(Unserialised(Reserved, map[]), read[0]);
    var seen := Unserialised(Reserved, map[9 := Rid]);
    RaceSteps(seen, between);
    RaceOne(seen.(booking := Run(Reserved, between)), WriteCancelled(9));
    assert map[9 := Rid] - {9} == map[];
  }

  /** Paid in full between the read and the write: a SUCCEEDED payment without its seat. */
  lemma PaidThenCancelled()
    ensures var end := RunRace(Unserialised(Initial(Today), map[]), Race(CheckOut + PayIt)).booking;
            && Pid in end.payments && end.payments[Pid].status == Succeeded
            && Rid in end.reservations && end.reservations[Rid].status == Cancelled
  {
    RaceRuns(CheckOut + PayIt);
    RunConcat(Reserved, CheckOut, PayIt);
    CheckedOutRun();
    PaidRun(ExtendedRow, Unpaid);
  }

  lemma ConfirmedRun()
    ensures Run(Reserved, CheckOut + [PayIt[0]]) ==
            Only(ConfirmedRow(ExtendedRow), Unpaid, [], map[Rid := PaidConfirmed(Pid, "evt_paid", "pi")])
  {
    RunConcat(Reserved, CheckOut, [PayIt[0]]);
    CheckedOutRun();
    RunOne(CheckedOut, PayIt[0]);
    assert !Recorded(CheckedOut.payments, "evt_paid");
  }

  /** Confirmed but not yet recorded: no payment has succeeded when the cancel writes, and one step later the
      webhook records a payment whose seat is gone. */
  lemma ConfirmedThenCancelled()
    ensures var end := RunRace(Unserialised(Initial(Today), map[]), Race(CheckOut + [PayIt[0]])).booking;
            && (forall pid | pid in end.payments :: end.payments[pid].status != Succeeded)
            && !PaidMeansConfirmed(Apply(end, PayIt[1]))
  {
    RaceRuns(CheckOut + [PayIt[0]]);
    ConfirmedRun();
    var end := Only(ConfirmedRow(ExtendedRow).(status := Cancelled), Unpaid, [], map[Rid := PaidConfirmed(Pid, "evt_paid", "pi")]);
    var last := Apply(end, PayIt[1]);
    assert last.payments[Pid].status == Succeeded && last.reservations[Rid].status == Cancelled;
  }
}
