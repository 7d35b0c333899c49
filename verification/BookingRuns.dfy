/** One booking followed step by step from the empty system: the states that the counterexamples start from. */
module BookingRuns {
  import opened Tables
  import opened Refunds
  import opened Booking

  const Alice := 1
  const Rid := 0
  const Pid: nat := 0

  /** Half past nine on the first of June, and a screening exactly two days later. */
  const Today := 1780306200000
  const InTwoDays := Today + 48 * 60 * MINUTE

  const Row := Reservation(Alice, 5, 7, Held, Some(Today + HOLD_MINUTES * MINUTE), Today)
  const Unpaid := Payment(Rid, 1000, PaymentStatus.Pending, None, "cs", None, None, None, Today)
  const PaidEvent := Event("evt_paid", Completed(Pid, true, "pi"))
  const Paid := Unpaid.(status := Succeeded, stripeEventId := Some("evt_paid"), stripePaymentId := Some("pi"))

  /** A state with this one booking and nothing else. */
  function Only(row: Reservation, p: Payment, ledger: seq<RefundEntry>, busy: map<int, Pending>): State {
    State(map[Rid := row], 1, map[Pid := p], 1, ledger, busy, Today, Today)
  }

  const ReserveIt := Reserve(Alice, 5, 7, Today)
  const CheckOut := [Checkout(Alice, Rid, Some(10)), Continue(Rid, true, "cs"), Continue(Rid, true, "")]
  const PayIt := [Deliver(PaidEvent), Continue(Rid, true, "")]
  const BookIt := [ReserveIt] + CheckOut + PayIt
  const CancelIt := Cancel(Alice, Rid, Some(InTwoDays), Seeded())

  const Reserved := State(map[Rid := Row], 1, map[], 0, [], map[], Today, Today)
  const ExtendedRow := Row.(heldUntil := Some(Today + CHECKOUT_EXPIRY_MINUTES * MINUTE))
  const CheckedOut := Only(ExtendedRow, Unpaid, [], map[])
  const Booked := Only(ConfirmedRow(Row), Paid, [], map[])

  lemma RunTwo(s: State, a: Step, b: Step)
    ensures Run(s, [a, b]) == Apply(Apply(s, a), b)
  {
    assert [a, b] == [a] + [b];
    RunConcat(s, [a], [b]);
    RunOne(s, a);
    RunOne(Apply(s, a), b);
  }

  lemma RunThree(s: State, a: Step, b: Step, c: Step)
    ensures Run(s, [a, b, c]) == Apply(Apply(Apply(s, a), b), c)
  {
    assert [a, b, c] == [a, b] + [c];
    RunConcat(s, [a, b], [c]);
    RunTwo(s, a, b);
    RunOne(Apply(Apply(s, a), b), c);
  }

  lemma ReservedRun()
    ensures Run(Initial(Today), [ReserveIt]) == Reserved
  {
    RunOne(Initial(Today), ReserveIt);
    assert !Taken(map[], 5, 7);
  }

  lemma CheckedOutRun()
    ensures Run(Reserved, CheckOut) == CheckedOut
  {
    RunThree(Reserved, CheckOut[0], CheckOut[1], CheckOut[2]);
    var started := Apply(Reserved, CheckOut[0]);
    assert started == Only(Row, Unpaid.(stripeSessionId := ""), [], map[Rid := CheckoutStarted(Pid)]);
    var until := SessionExpiry(Today);
    assert until == Today + CHECKOUT_EXPIRY_MINUTES * MINUTE;
    assert Apply(started, CheckOut[1]) == Only(Row, Unpaid, [], map[Rid := CheckoutStored(Pid, until)]);
  }

  /** The paid event finds this payment under any other recorded event id, or none. */
  lemma PaidRun(row: Reservation, p: Payment)
    requires row.screeningId == 5 && row.seatId == 7 && p.reservationId == Rid && p.stripeEventId != Some("evt_paid")
    ensures Run(Only(row, p, [], map[]), PayIt) ==
            Only(ConfirmedRow(row), p.(status := Succeeded, stripeEventId := Some("evt_paid"), stripePaymentId := Some("pi")), [], map[])
  {
    var s := Only(row, p, [], map[]);
    RunTwo(s, PayIt[0], PayIt[1]);
    assert !Recorded(s.payments, "evt_paid");
    assert Apply(s, PayIt[0]) == Only(ConfirmedRow(row), p, [], map[Rid := PaidConfirmed(Pid, "evt_paid", "pi")]);
  }

  /** From nothing to a paid and confirmed booking. */
  lemma BookedRun()
    ensures Run(Initial(Today), [ReserveIt] + CheckOut) == CheckedOut
    ensures Run(Initial(Today), BookIt) == Booked
    ensures Good(CheckedOut) && Good(Booked)
  {
    RunConcat(Initial(Today), [ReserveIt], CheckOut);
    ReservedRun();
    CheckedOutRun();
    RunConcat(Initial(Today), [ReserveIt] + CheckOut, PayIt);
    PaidRun(ExtendedRow, Unpaid);
    assert ConfirmedRow(ExtendedRow) == ConfirmedRow(Row);
    SucceededAlwaysConfirmed(Initial(Today), [ReserveIt] + CheckOut);
    SucceededAlwaysConfirmed(Initial(Today), BookIt);
  }
}
