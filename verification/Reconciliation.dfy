/** Payments whose checkout timed out, settled by asking Stripe: what the iterations of the loop add up to. */
module Reconciliation {
  import opened Tables
  import opened Booking
  import opened BookingRuns
  import opened Redelivery

  /** Stripe's answer when a checkout session is looked up. */
  datatype Lookup = SessionPaid(intent: string) | SessionUnpaid | LookupFails

  const RECONCILE_GRACE_MINUTES := 10

  predicate IsStuck(p: Payment, olderThan: int) {
    p.status == TimedOut && p.createdAt < olderThan
  }

  /** `stuck` lists exactly the stuck payments, each once. */
  ghost predicate Stuck(stuck: seq<nat>, payments: Payments, olderThan: int) {
    && (forall i, j | 0 <= i < j < |stuck| :: stuck[i] != stuck[j])
    && (forall pid :: pid in stuck <==> pid in payments && IsStuck(payments[pid], olderThan))
  }

  function ReconcileStep(pid: nat, answer: Lookup): Step {
    match answer
    case SessionPaid(intent) => ReconcilePaid(pid, intent)
    case SessionUnpaid => ReconcileUnpaid(pid)
    case LookupFails => Tick(0)
  }

  function ReconcileSteps(stuck: seq<nat>, lookup: map<nat, Lookup>): seq<Step>
    requires forall i | 0 <= i < |stuck| :: stuck[i] in lookup
  {
    if stuck == [] then []
    else ReconcileSteps(stuck[..|stuck| - 1], lookup) + [ReconcileStep(stuck[|stuck| - 1], lookup[stuck[|stuck| - 1]])]
  }

  /** Stripe gives no answer, or a unique column refuses the transaction. */
  ghost predicate Rejects(s: State, pid: nat, answer: Lookup)
    requires pid in s.payments && s.payments[pid].reservationId in s.reservations
  {
    var rid := s.payments[pid].reservationId;
    answer.LookupFails? ||
    (answer.SessionPaid? && !(PaymentFits(s.payments, pid, SettledPayment(s.payments[pid], answer))
                              && IndexAllows(s.reservations, rid, ConfirmedRow(s.reservations[rid]))))
  }

  /** The payment is there and its transaction is not refused. */
  ghost predicate Accepts(s: State, pid: nat, answer: Lookup) {
    pid in s.payments && s.payments[pid].reservationId in s.reservations && !Rejects(s, pid, answer)
  }

  /** A payment row as Stripe's answer settles it. */
  function SettledPayment(p: Payment, answer: Lookup): Payment {
    match answer
    case SessionPaid(intent) => p.(status := Succeeded, stripePaymentId := Some(intent))
    case SessionUnpaid => p.(status := Declined)
    case LookupFails => p
  }

  function SettledRow(row: Reservation, answer: Lookup): Reservation {
    match answer
    case SessionPaid(intent) => ConfirmedRow(row)
    case SessionUnpaid => row.(status := Cancelled)
    case LookupFails => row
  }

  /** Exactly the payments of `done` and their reservations are settled, each pair as Stripe answered. */
  ghost predicate Reconciled(done: set<nat>, lookup: map<nat, Lookup>, rows0: Reservations, payments0: Payments,
                             rows: Reservations, payments: Payments) {
    && payments.Keys == payments0.Keys && rows.Keys == rows0.Keys
    && (forall pid | pid in payments0 && pid !in done :: payments[pid] == payments0[pid])
    && (forall pid | pid in done ::
          pid in payments0 && pid in lookup && !lookup[pid].LookupFails? && payments0[pid].reservationId in rows0)
    && (forall pid | pid in done :: payments[pid] == SettledPayment(payments0[pid], lookup[pid]))
    && (forall pid | pid in done ::
          rows[payments0[pid].reservationId] == SettledRow(rows0[payments0[pid].reservationId], lookup[pid]))
    && (forall rid | rid in rows0 && (forall pid | pid in done :: payments0[pid].reservationId != rid) :: rows[rid] == rows0[rid])
  }

  // ---- The loop, iteration by iteration ----

  /** Distinct payments with an answer each, and no unfinished call on their reservations. */
  ghost predicate Reconcilable(s0: State, stuck: seq<nat>, lookup: map<nat, Lookup>) {
    && (forall i | 0 <= i < |stuck| :: stuck[i] in lookup && Idle(s0, stuck[i]))
    && (forall i, j | 0 <= i < j < |stuck| :: stuck[i] != stuck[j])
  }

  predicate Idle(s: State, pid: nat) {
    pid in s.payments && s.payments[pid].reservationId in s.reservations && s.payments[pid].reservationId !in s.busy
  }

  /** What one iteration writes. */
  function Settle(s: State, pid: nat, answer: Lookup): State {
    match answer
    case SessionPaid(intent) => DoReconcilePaid(s, pid, intent)
    case SessionUnpaid => DoReconcileUnpaid(s, pid)
    case LookupFails => s
  }

  /** The state after `n` iterations. */
  ghost function After(s0: State, stuck: seq<nat>, n: nat, lookup: map<nat, Lookup>): State
    requires n <= |stuck| && forall i | 0 <= i < |stuck| :: stuck[i] in lookup
  {
    if n == 0 then s0 else Settle(After(s0, stuck, n - 1, lookup), stuck[n - 1], lookup[stuck[n - 1]])
  }

  lemma RunReconcileSnoc(s: State, stuck: seq<nat>, n: nat, lookup: map<nat, Lookup>)
    requires n < |stuck| && forall i | 0 <= i < |stuck| :: stuck[i] in lookup
    ensures Run(s, ReconcileSteps(stuck[..n + 1], lookup)) ==
            Apply(Run(s, ReconcileSteps(stuck[..n], lookup)), ReconcileStep(stuck[n], lookup[stuck[n]]))
  {
    assert stuck[..n + 1][..n] == stuck[..n];
    var step := ReconcileStep(stuck[n], lookup[stuck[n]]);
    RunConcat(s, ReconcileSteps(stuck[..n], lookup), [step]);
    RunOne(Run(s, ReconcileSteps(stuck[..n], lookup)), step);
  }

  /** The first `n` transactions go through. */
  ghost predicate Settles(s0: State, stuck: seq<nat>, n: nat, lookup: map<nat, Lookup>, dbDown: set<nat>)
    requires n <= |stuck| && forall i | 0 <= i < |stuck| :: stuck[i] in lookup
  {
    n == 0 || (Settles(s0, stuck, n - 1, lookup, dbDown)
               && stuck[n - 1] !in dbDown && Accepts(After(s0, stuck, n - 1, lookup), stuck[n - 1], lookup[stuck[n - 1]]))
  }

  /** Fewer transactions go through when more do. */
  lemma {:induction false} SettlesFewer(s0: State, stuck: seq<nat>, k: nat, n: nat, lookup: map<nat, Lookup>, dbDown: set<nat>)
    requires k <= n <= |stuck| && (forall i | 0 <= i < |stuck| :: stuck[i] in lookup) && Settles(s0, stuck, n, lookup, dbDown)
    ensures Settles(s0, stuck, k, lookup, dbDown)
  {
    if k < n {
      SettlesFewer(s0, stuck, k, n - 1, lookup, dbDown);
    }
  }

  lemma SettleIsStep(s: State, pid: nat, answer: Lookup)
    requires !answer.LookupFails?
    ensures Settle(s, pid, answer) == Apply(s, ReconcileStep(pid, answer))
  {
  }

  lemma {:induction false} AfterIsRun(s0: State, stuck: seq<nat>, n: nat, lookup: map<nat, Lookup>)
    requires n <= |stuck| && forall i | 0 <= i < |stuck| :: stuck[i] in lookup
    requires forall i | 0 <= i < n :: !lookup[stuck[i]].LookupFails?
    ensures After(s0, stuck, n, lookup) == Run(s0, ReconcileSteps(stuck[..n], lookup))
  {
    if n > 0 {
      AfterIsRun(s0, stuck, n - 1, lookup);
      SettleIsStep(After(s0, stuck, n - 1, lookup), stuck[n - 1], lookup[stuck[n - 1]]);
      RunReconcileSnoc(s0, stuck, n - 1, lookup);
    }
  }

  function Handled(stuck: seq<nat>, n: nat): set<nat>
    requires n <= |stuck|
  {
    if n == 0 then {} else Handled(stuck, n - 1) + {stuck[n - 1]}
  }

  lemma {:induction false} HandledSpec(stuck: seq<nat>, n: nat)
    requires n <= |stuck|
    ensures forall pid: nat :: pid in Handled(stuck, n) <==> exists i | 0 <= i < n :: stuck[i] == pid
  {
    if n > 0 {
      HandledSpec(stuck, n - 1);
    }
  }

  lemma NotHandled(stuck: seq<nat>, n: nat)
    requires n < |stuck| && forall i, j | 0 <= i < j < |stuck| :: stuck[i] != stuck[j]
    ensures stuck[n] !in Handled(stuck, n)
  {
    HandledSpec(stuck, n);
  }

  lemma SettleGood(s: State, pid: nat, answer: Lookup)
    requires Good(s)
    ensures Good(Settle(s, pid, answer))
  {
    GoodReconcilePaid(s, pid, if answer.SessionPaid? then answer.intent else "");
    GoodReconcileUnpaid(s, pid);
  }

  lemma {:induction false} SettledGood(s0: State, stuck: seq<nat>, n: nat, lookup: map<nat, Lookup>)
    requires n <= |stuck| && Good(s0) && forall i | 0 <= i < |stuck| :: stuck[i] in lookup
    ensures Good(After(s0, stuck, n, lookup))
  {
    if n > 0 {
      SettledGood(s0, stuck, n - 1, lookup);
      SettleGood(After(s0, stuck, n - 1, lookup), stuck[n - 1], lookup[stuck[n - 1]]);
    }
  }

  /** Same unfinished calls, same rows, each with its reservation and its user. */
  ghost predicate SameOwners(before: State, after: State) {
    && before.busy == after.busy
    && before.payments.Keys == after.payments.Keys && before.reservations.Keys == after.reservations.Keys
    && (forall pid | pid in before.payments :: after.payments[pid].reservationId == before.payments[pid].reservationId)
    && (forall rid | rid in before.reservations :: after.reservations[rid].userId == before.reservations[rid].userId)
  }

  lemma OwnersStay(s: State, pid: nat, answer: Lookup)
    ensures SameOwners(s, Settle(s, pid, answer))
  {
  }

  lemma {:induction false} SettledOwners(s0: State, stuck: seq<nat>, n: nat, lookup: map<nat, Lookup>)
    requires n <= |stuck| && forall i | 0 <= i < |stuck| :: stuck[i] in lookup
    ensures SameOwners(s0, After(s0, stuck, n, lookup))
  {
    if n > 0 {
      SettledOwners(s0, stuck, n - 1, lookup);
      OwnersStay(After(s0, stuck, n - 1, lookup), stuck[n - 1], lookup[stuck[n - 1]]);
    }
  }

  /** The next payment of the list is still idle, and its reservation still its user's. */
  lemma NextIdle(s0: State, stuck: seq<nat>, n: nat, lookup: map<nat, Lookup>)
    requires n < |stuck| && Reconcilable(s0, stuck, lookup)
    ensures var s := After(s0, stuck, n, lookup); var pid := stuck[n];
            && Idle(s0, pid) && Idle(s, pid) && s.payments[pid].reservationId == s0.payments[pid].reservationId
            && s.reservations[s.payments[pid].reservationId].userId == s0.reservations[s0.payments[pid].reservationId].userId
  {
    SettledOwners(s0, stuck, n, lookup);
  }

  /** One iteration writes exactly its pair. */
  ghost predicate WritesPair(s: State, after: State, pid: nat, answer: Lookup) {
    && !answer.LookupFails? && pid in s.payments && s.payments[pid].reservationId in s.reservations
    && after.payments == s.payments[pid := SettledPayment(s.payments[pid], answer)]
    && var rid := s.payments[pid].reservationId;
       after.reservations == s.reservations[rid := SettledRow(s.reservations[rid], answer)]
  }

  lemma PairWritten(s: State, pid: nat, answer: Lookup)
    requires Idle(s, pid) && !Rejects(s, pid, answer)
    ensures WritesPair(s, Settle(s, pid, answer), pid, answer)
  {
  }

  ghost function Trace(s0: State, stuck: seq<nat>, n: nat, lookup: map<nat, Lookup>): seq<State>
    requires n <= |stuck| && forall i | 0 <= i < |stuck| :: stuck[i] in lookup
  {
    seq(n + 1, i requires 0 <= i <= n => After(s0, stuck, i, lookup))
  }

  ghost predicate WritesPairs(trace: seq<State>, stuck: seq<nat>, n: nat, lookup: map<nat, Lookup>)
    requires n <= |stuck| && n < |trace| && forall i | 0 <= i < |stuck| :: stuck[i] in lookup
  {
    n == 0 || (WritesPairs(trace, stuck, n - 1, lookup) && WritesPair(trace[n - 1], trace[n], stuck[n - 1], lookup[stuck[n - 1]]))
  }

  lemma WriteAt(s0: State, stuck: seq<nat>, n: nat, lookup: map<nat, Lookup>)
    requires n < |stuck| && Reconcilable(s0, stuck, lookup) && Accepts(After(s0, stuck, n, lookup), stuck[n], lookup[stuck[n]])
    ensures WritesPair(After(s0, stuck, n, lookup), After(s0, stuck, n + 1, lookup), stuck[n], lookup[stuck[n]])
  {
    NextIdle(s0, stuck, n, lookup);
    PairWritten(After(s0, stuck, n, lookup), stuck[n], lookup[stuck[n]]);
  }

  lemma {:induction false} SettledWrites(s0: State, stuck: seq<nat>, n: nat, k: nat, lookup: map<nat, Lookup>, dbDown: set<nat>)
    requires k <= n <= |stuck| && Reconcilable(s0, stuck, lookup) && Settles(s0, stuck, k, lookup, dbDown)
    ensures WritesPairs(Trace(s0, stuck, n, lookup), stuck, k, lookup)
  {
    if k > 0 {
      SettledWrites(s0, stuck, n, k - 1, lookup, dbDown);
      WriteAt(s0, stuck, k - 1, lookup);
    }
  }

  lemma {:induction false} WrittenPairs(trace: seq<State>, stuck: seq<nat>, n: nat, lookup: map<nat, Lookup>)
    requires n <= |stuck| && n < |trace| && forall i | 0 <= i < |stuck| :: stuck[i] in lookup
    requires UniquePayments(trace[0].payments) && forall i, j | 0 <= i < j < |stuck| :: stuck[i] != stuck[j]
    requires WritesPairs(trace, stuck, n, lookup)
    ensures Reconciled(Handled(stuck, n), lookup, trace[0].reservations, trace[0].payments, trace[n].reservations, trace[n].payments)
  {
    if n > 0 {
      WrittenPairs(trace, stuck, n - 1, lookup);
      NotHandled(stuck, n - 1);
      ReconciledNext(Handled(stuck, n - 1), stuck[n - 1], lookup, trace[0], trace[n - 1], trace[n]);
    }
  }

  /** Iterations that go through settle exactly their pairs. */
  lemma SettledPairs(s0: State, stuck: seq<nat>, n: nat, lookup: map<nat, Lookup>, dbDown: set<nat>)
    requires n <= |stuck| && Reconcilable(s0, stuck, lookup) && UniquePayments(s0.payments) && Settles(s0, stuck, n, lookup, dbDown)
    ensures var s := After(s0, stuck, n, lookup);
            Reconciled(Handled(stuck, n), lookup, s0.reservations, s0.payments, s.reservations, s.payments)
  {
    SettledWrites(s0, stuck, n, n, lookup, dbDown);
    WrittenPairs(Trace(s0, stuck, n, lookup), stuck, n, lookup);
  }

  /** The next payment of the list and its reservation are as they were. */
  lemma NextUntouched(s0: State, stuck: seq<nat>, n: nat, lookup: map<nat, Lookup>, dbDown: set<nat>)
    requires n < |stuck| && Reconcilable(s0, stuck, lookup) && Settles(s0, stuck, n, lookup, dbDown) && UniquePayments(s0.payments)
    ensures var s := After(s0, stuck, n, lookup); var pid := stuck[n]; var rid := s0.payments[pid].reservationId;
            && pid in s.payments && s.payments[pid] == s0.payments[pid]
            && rid in s.reservations && s.reservations[rid] == s0.reservations[rid]
  {
    SettledPairs(s0, stuck, n, lookup, dbDown);
    NotHandled(stuck, n);
    assert forall pid | pid in Handled(stuck, n) :: s0.payments[pid].reservationId != s0.payments[stuck[n]].reservationId;
  }

  /** The user an iteration puts a failure on record for, if the session is unpaid. */
  function FailureOf(s: State, pid: nat, lookup: map<nat, Lookup>): seq<int> {
    if pid in lookup && lookup[pid].SessionUnpaid? && pid in s.payments && s.payments[pid].reservationId in s.reservations
    then [s.reservations[s.payments[pid].reservationId].userId] else []
  }

  function Failures(s: State, stuck: seq<nat>, n: nat, lookup: map<nat, Lookup>): seq<int>
    requires n <= |stuck|
  {
    if n == 0 then [] else Failures(s, stuck, n - 1, lookup) + FailureOf(s, stuck[n - 1], lookup)
  }

  /** The users on record are, in the order of the loop, those of the reservations Stripe called unpaid; `at` says where. */
  ghost predicate ListsUnpaid(failed: seq<int>, at: seq<nat>, stuck: seq<nat>, n: nat, lookup: map<nat, Lookup>, rows: Reservations,
                              payments: Payments)
    requires n <= |stuck| && forall i | 0 <= i < |stuck| :: stuck[i] in lookup && stuck[i] in payments && payments[stuck[i]].reservationId in rows
  {
    && |at| == |failed|
    && (forall k | 0 <= k < |at| :: at[k] < n && lookup[stuck[at[k]]] == SessionUnpaid
          && failed[k] == rows[payments[stuck[at[k]]].reservationId].userId)
    && (forall k, l | 0 <= k < l < |at| :: at[k] < at[l])
    && (forall i: nat | i < n && lookup[stuck[i]] == SessionUnpaid :: i in at)
  }

  function UnpaidAt(stuck: seq<nat>, n: nat, lookup: map<nat, Lookup>): seq<nat>
    requires n <= |stuck| && forall i | 0 <= i < |stuck| :: stuck[i] in lookup
  {
    if n == 0 then []
    else if lookup[stuck[n - 1]] == SessionUnpaid then UnpaidAt(stuck, n - 1, lookup) + [n - 1]
    else UnpaidAt(stuck, n - 1, lookup)
  }

  lemma {:induction false} UnpaidPlaces(stuck: seq<nat>, n: nat, lookup: map<nat, Lookup>)
    requires n <= |stuck| && forall i | 0 <= i < |stuck| :: stuck[i] in lookup
    ensures var at := UnpaidAt(stuck, n, lookup);
            && (forall k | 0 <= k < |at| :: at[k] < n && lookup[stuck[at[k]]] == SessionUnpaid)
            && (forall k, l | 0 <= k < l < |at| :: at[k] < at[l])
            && (forall i: nat | i < n && lookup[stuck[i]] == SessionUnpaid :: i in at)
  {
    if n > 0 {
      UnpaidPlaces(stuck, n - 1, lookup);
    }
  }

  lemma {:induction false} FailuresAt(s0: State, stuck: seq<nat>, n: nat, lookup: map<nat, Lookup>)
    requires n <= |stuck| && forall i | 0 <= i < |stuck| :: stuck[i] in lookup && Idle(s0, stuck[i])
    ensures |Failures(s0, stuck, n, lookup)| == |UnpaidAt(stuck, n, lookup)|
    ensures forall k | 0 <= k < |UnpaidAt(stuck, n, lookup)| ::
              UnpaidAt(stuck, n, lookup)[k] < n && Idle(s0, stuck[UnpaidAt(stuck, n, lookup)[k]])
              && Failures(s0, stuck, n, lookup)[k] == s0.reservations[s0.payments[stuck[UnpaidAt(stuck, n, lookup)[k]]].reservationId].userId
  {
    if n > 0 {
      FailuresAt(s0, stuck, n - 1, lookup);
    }
  }

  lemma FailuresListed(s0: State, stuck: seq<nat>, n: nat, lookup: map<nat, Lookup>)
    requires n <= |stuck| && Reconcilable(s0, stuck, lookup)
    ensures ListsUnpaid(Failures(s0, stuck, n, lookup), UnpaidAt(stuck, n, lookup), stuck, n, lookup, s0.reservations, s0.payments)
  {
    UnpaidPlaces(stuck, n, lookup);
    FailuresAt(s0, stuck, n, lookup);
  }

  /** The first `n` pairs carry Stripe's answers and nothing else of them has changed; all other rows are untouched. */
  ghost predicate AsAnswered(stuck: seq<nat>, n: nat, lookup: map<nat, Lookup>, rows0: Reservations, payments0: Payments,
                             rows: Reservations, payments: Payments)
    requires n <= |stuck| && forall i | 0 <= i < |stuck| :: stuck[i] in lookup && stuck[i] in payments0 && payments0[stuck[i]].reservationId in rows0
  {
    && payments.Keys == payments0.Keys && rows.Keys == rows0.Keys
    && (forall i | 0 <= i < n ::
          var rid := payments0[stuck[i]].reservationId;
          match lookup[stuck[i]]
          case SessionPaid(intent) =>
            payments[stuck[i]] == payments0[stuck[i]].(status := Succeeded, stripePaymentId := Some(intent))
            && rows[rid] == rows0[rid].(status := Confirmed, heldUntil := None)
          case SessionUnpaid =>
            payments[stuck[i]] == payments0[stuck[i]].(status := Declined) && rows[rid] == rows0[rid].(status := Cancelled)
          case LookupFails => false)
    && (forall pid | pid in payments0 && (forall i | 0 <= i < n :: stuck[i] != pid) :: payments[pid] == payments0[pid])
    && (forall rid | rid in rows0 && (forall i | 0 <= i < n :: payments0[stuck[i]].reservationId != rid) :: rows[rid] == rows0[rid])
  }

  lemma ReconciledAsAnswered(stuck: seq<nat>, n: nat, lookup: map<nat, Lookup>, rows0: Reservations, payments0: Payments,
                             rows: Reservations, payments: Payments)
    requires n <= |stuck| && forall i | 0 <= i < |stuck| :: stuck[i] in lookup && stuck[i] in payments0 && payments0[stuck[i]].reservationId in rows0
    requires Reconciled(Handled(stuck, n), lookup, rows0, payments0, rows, payments)
    ensures AsAnswered(stuck, n, lookup, rows0, payments0, rows, payments)
  {
    HandledSpec(stuck, n);
    forall i | 0 <= i < n ensures stuck[i] in Handled(stuck, n) {
    }
  }

  /** The pair is written, but putting the failure on record throws. */
  predicate Uncounted(pid: nat, lookup: map<nat, Lookup>, redisDown: set<nat>)
    requires pid in lookup
  {
    lookup[pid].SessionUnpaid? && pid in redisDown
  }

  /** The loop gets no further than this iteration. */
  ghost predicate StopsAt(s0: State, stuck: seq<nat>, i: nat, lookup: map<nat, Lookup>, dbDown: set<nat>, redisDown: set<nat>)
    requires i < |stuck| && forall i | 0 <= i < |stuck| :: stuck[i] in lookup
  {
    !Settles(s0, stuck, i + 1, lookup, dbDown) || Uncounted(stuck[i], lookup, redisDown)
  }

  /** One more payment settled, together with its reservation and nothing else. */
  lemma ReconciledNext(done: set<nat>, pid: nat, lookup: map<nat, Lookup>, s0: State, s: State, after: State)
    requires UniquePayments(s0.payments) && pid !in done && pid in lookup
    requires Reconciled(done, lookup, s0.reservations, s0.payments, s.reservations, s.payments)
    requires WritesPair(s, after, pid, lookup[pid])
    ensures Reconciled(done + {pid}, lookup, s0.reservations, s0.payments, after.reservations, after.payments)
  {
  }

  /** When the loop finishes, nothing is stuck any more: every payment that was is SUCCEEDED with its seat
      CONFIRMED or DECLINED with its seat CANCELLED, as Stripe answered, and no other payment has moved. */
  lemma ReconciliationLeavesNothingStuck(stuck: seq<nat>, lookup: map<nat, Lookup>, olderThan: int, rows0: Reservations,
                                         payments0: Payments, rows: Reservations, payments: Payments)
    requires Stuck(stuck, payments0, olderThan) && Reconciled(Handled(stuck, |stuck|), lookup, rows0, payments0, rows, payments)
    ensures forall pid | pid in payments :: !IsStuck(payments[pid], olderThan)
    ensures forall pid | pid in payments0 && IsStuck(payments0[pid], olderThan) ::
              var rid := payments0[pid].reservationId;
              pid in payments && rid in rows && pid in lookup &&
              if lookup[pid].SessionPaid? then payments[pid].status == Succeeded && rows[rid].status == Confirmed
              else payments[pid].status == Declined && rows[rid].status == Cancelled
    ensures forall pid | pid in payments0 && !IsStuck(payments0[pid], olderThan) :: pid in payments && payments[pid] == payments0[pid]
  {
    HandledSpec(stuck, |stuck|);
  }

  /** The loop has written `handled` pairs and counted `counted` iterations, and could go no further. */
  ghost predicate Halted(s0: State, stuck: seq<nat>, handled: nat, counted: nat, lookup: map<nat, Lookup>, dbDown: set<nat>,
                         redisDown: set<nat>)
    requires forall i | 0 <= i < |stuck| :: stuck[i] in lookup
  {
    && counted <= handled <= |stuck| && Settles(s0, stuck, handled, lookup, dbDown)
    && (forall i | 0 <= i < counted :: !Uncounted(stuck[i], lookup, redisDown))
    && (counted == handled || (counted + 1 == handled && Uncounted(stuck[counted], lookup, redisDown)))
    && (counted == handled < |stuck| ==> !Settles(s0, stuck, handled + 1, lookup, dbDown))
  }

  /** It has stopped at the first iteration that ends it. */
  lemma StoppedRight(s0: State, stuck: seq<nat>, handled: nat, counted: nat, lookup: map<nat, Lookup>, dbDown: set<nat>, redisDown: set<nat>)
    requires (forall i | 0 <= i < |stuck| :: stuck[i] in lookup) && Halted(s0, stuck, handled, counted, lookup, dbDown, redisDown)
    ensures forall i | 0 <= i < counted :: !StopsAt(s0, stuck, i, lookup, dbDown, redisDown)
    ensures counted < |stuck| ==> StopsAt(s0, stuck, counted, lookup, dbDown, redisDown)
    ensures handled == if counted < |stuck| && Settles(s0, stuck, counted + 1, lookup, dbDown) then counted + 1 else counted
  {
    forall i | 0 <= i < counted ensures !StopsAt(s0, stuck, i, lookup, dbDown, redisDown) {
      SettlesFewer(s0, stuck, i + 1, handled, lookup, dbDown);
    }
  }

  lemma {:induction false} Answered(s0: State, stuck: seq<nat>, n: nat, lookup: map<nat, Lookup>, dbDown: set<nat>)
    requires n <= |stuck| && (forall i | 0 <= i < |stuck| :: stuck[i] in lookup) && Settles(s0, stuck, n, lookup, dbDown)
    ensures forall i | 0 <= i < n :: !lookup[stuck[i]].LookupFails?
  {
    if n > 0 {
      Answered(s0, stuck, n - 1, lookup, dbDown);
    }
  }

  lemma SettledRun(s0: State, stuck: seq<nat>, n: nat, lookup: map<nat, Lookup>, dbDown: set<nat>)
    requires n <= |stuck| && (forall i | 0 <= i < |stuck| :: stuck[i] in lookup) && Settles(s0, stuck, n, lookup, dbDown)
    ensures After(s0, stuck, n, lookup) == Run(s0, ReconcileSteps(stuck[..n], lookup))
  {
    Answered(s0, stuck, n, lookup, dbDown);
    AfterIsRun(s0, stuck, n, lookup);
  }

  lemma SettledSummary(s0: State, stuck: seq<nat>, n: nat, lookup: map<nat, Lookup>, dbDown: set<nat>)
    requires n <= |stuck| && Reconcilable(s0, stuck, lookup) && Good(s0) && Settles(s0, stuck, n, lookup, dbDown)
    ensures var s := After(s0, stuck, n, lookup);
            && Good(s) && s == Run(s0, ReconcileSteps(stuck[..n], lookup))
            && Reconciled(Handled(stuck, n), lookup, s0.reservations, s0.payments, s.reservations, s.payments)
  {
    SettledRun(s0, stuck, n, lookup, dbDown);
    SettledGood(s0, stuck, n, lookup);
    SettledPairs(s0, stuck, n, lookup, dbDown);
  }

  // ---- A payment that blocks the ones after it ----

  /** A paid session is rejected exactly when its intent belongs to another payment, or its seat to somebody else. */
  lemma RejectsPaidIff(s: State, pid: nat, intent: string)
    requires Good(s) && pid in s.payments
    ensures var row := s.reservations[s.payments[pid].reservationId];
            Rejects(s, pid, SessionPaid(intent)) <==>
            (exists q | q in s.payments :: q != pid && s.payments[q].stripePaymentId == Some(intent))
            || (!row.Active() && Taken(s.reservations, row.screeningId, row.seatId))
  {
    var rid := s.payments[pid].reservationId;
    var row := s.reservations[rid];
    if row.Active() {
      assert IndexAllows(s.reservations, rid, ConfirmedRow(row));
    }
    if Taken(s.reservations, row.screeningId, row.seatId) && !row.Active() {
      var j :| j in s.reservations && s.reservations[j].Active() && s.reservations[j].screeningId == row.screeningId
        && s.reservations[j].seatId == row.seatId;
      assert j != rid && ConfirmedRow(row).SameSeat(s.reservations[j]);
    }
  }

  /** Paid too late: as long as nothing before it in the list cancels the reservation that holds the seat now,
      the loop stops at this payment, and never comes to those after it. */
  lemma BlocksWhileTaken(s0: State, stuck: seq<nat>, n: nat, lookup: map<nat, Lookup>, dbDown: set<nat>, holder: int)
    requires n < |stuck| && Reconcilable(s0, stuck, lookup) && Good(s0) && Settles(s0, stuck, n, lookup, dbDown)
    requires lookup[stuck[n]].SessionPaid?
    requires var row := s0.reservations[s0.payments[stuck[n]].reservationId];
             !row.Active() && holder in s0.reservations && s0.reservations[holder].Active() && s0.reservations[holder].SameSeat(row)
    requires forall i | 0 <= i < n :: s0.payments[stuck[i]].reservationId != holder || !lookup[stuck[i]].SessionUnpaid?
    ensures !Settles(s0, stuck, n + 1, lookup, dbDown)
  {
    var s := After(s0, stuck, n, lookup);
    NextUntouched(s0, stuck, n, lookup, dbDown);
    SettledGood(s0, stuck, n, lookup);
    SettledPairs(s0, stuck, n, lookup, dbDown);
    HolderStays(s0, s, stuck, n, lookup, holder);
    assert Taken(s.reservations, s0.reservations[holder].screeningId, s0.reservations[holder].seatId);
    RejectsPaidIff(s, stuck[n], lookup[stuck[n]].intent);
  }

  lemma HolderStays(s0: State, s: State, stuck: seq<nat>, n: nat, lookup: map<nat, Lookup>, holder: int)
    requires n < |stuck| && (forall i | 0 <= i < |stuck| :: stuck[i] in lookup && stuck[i] in s0.payments)
    requires Reconciled(Handled(stuck, n), lookup, s0.reservations, s0.payments, s.reservations, s.payments)
    requires holder in s0.reservations && s0.reservations[holder].Active()
    requires forall i | 0 <= i < n :: s0.payments[stuck[i]].reservationId != holder || !lookup[stuck[i]].SessionUnpaid?
    ensures holder in s.reservations && s.reservations[holder].Active() && s.reservations[holder].SameSeat(s0.reservations[holder])
  {
    HandledSpec(stuck, n);
    if pid :| pid in Handled(stuck, n) && s0.payments[pid].reservationId == holder {
      assert s.reservations[holder] == SettledRow(s0.reservations[holder], lookup[pid]);
    }
  }

  // ---- Such a run, from the empty system ----

  const Bob := 2
  const Later := Today + 31 * MINUTE
  const BobExpired := Event("evt_bob", SessionExpired(1))

  const AliceOut := Released(ExtendedRow)
  const AliceTimedOut := Unpaid.(status := TimedOut, stripeEventId := Some("evt_old"))
  const BobRow := Reservation(Bob, 5, 7, Held, Some(Later + CHECKOUT_EXPIRY_MINUTES * MINUTE), Later)
  const BobUnpaid := Payment(1, 1000, PaymentStatus.Pending, None, "cs2", None, None, None, Later)
  const BobTimedOut := BobUnpaid.(status := TimedOut, stripeEventId := Some("evt_bob"))

  /** Alice's session and hold expire, and Bob takes the seat to checkout. */
  const AliceLeaves := [Deliver(ExpiredEvent), Tick(Later), Sweep]
  const BobCheckOut := [Checkout(Bob, 1, Some(10)), Continue(1, true, "cs2"), Continue(1, true, "")]
  const BobComes := [Reserve(Bob, 5, 7, Later)] + BobCheckOut + [Deliver(BobExpired), Tick(Later + 15 * MINUTE)]

  const AliceGone := State(map[0 := AliceOut], 1, map[0 := AliceTimedOut], 1, [], map[], Later, Later)

  /** Two payments timed out long ago; only one of their reservations still holds the seat. */
  const Contested :=
    State(map[0 := AliceOut, 1 := BobRow], 2, map[0 := AliceTimedOut, 1 := BobTimedOut], 2, [], map[], Later + 15 * MINUTE, Later)

  lemma AliceLeavesRun()
    ensures Run(CheckedOut, AliceLeaves) == AliceGone
  {
    RunThree(CheckedOut, AliceLeaves[0], AliceLeaves[1], AliceLeaves[2]);
    OlderMarked(ExpiredEvent);
    RunOne(CheckedOut, AliceLeaves[0]);
    assert Expired(ExtendedRow, Later);
  }

  const BobHeld := Reservation(Bob, 5, 7, Held, Some(Later + HOLD_MINUTES * MINUTE), Later)
  const BobReserved := State(map[0 := AliceOut, 1 := BobHeld], 2, map[0 := AliceTimedOut], 1, [], map[], Later, Later)
  const BobCheckedOut := State(map[0 := AliceOut, 1 := BobRow], 2, map[0 := AliceTimedOut, 1 := BobUnpaid], 2, [], map[], Later, Later)

  lemma BobReservedRun()
    ensures Run(AliceGone, [Reserve(Bob, 5, 7, Later)]) == BobReserved
  {
    RunOne(AliceGone, Reserve(Bob, 5, 7, Later));
    assert !Taken(AliceGone.reservations, 5, 7);
  }

  lemma BobCheckedOutRun()
    ensures Run(BobReserved, BobCheckOut) == BobCheckedOut
  {
    RunThree(BobReserved, BobCheckOut[0], BobCheckOut[1], BobCheckOut[2]);
    var until := SessionExpiry(Later);
    assert until == Later + CHECKOUT_EXPIRY_MINUTES * MINUTE;
    var started := BobReserved.(payments := map[0 := AliceTimedOut, 1 := BobUnpaid.(stripeSessionId := "")], nextPayment := 2,
                                busy := map[1 := CheckoutStarted(1)]);
    assert !HasPayment(BobReserved.payments, 1);
    assert Apply(BobReserved, BobCheckOut[0]) == started;
    var stored := started.(payments := map[0 := AliceTimedOut, 1 := BobUnpaid], busy := map[1 := CheckoutStored(1, until)]);
    assert Apply(started, BobCheckOut[1]) == stored;
    assert map[1 := CheckoutStored(1, until)] - {1} == map[];
  }

  lemma BobTimedOutRun()
    ensures Run(BobCheckedOut, [Deliver(BobExpired), Tick(Later + 15 * MINUTE)]) == Contested
  {
    RunTwo(BobCheckedOut, Deliver(BobExpired), Tick(Later + 15 * MINUTE));
    assert !Recorded(BobCheckedOut.payments, "evt_bob");
    assert PaymentFits(BobCheckedOut.payments, 1, BobTimedOut);
  }

  lemma ContestedRun()
    ensures Run(Initial(Today), [ReserveIt] + CheckOut + AliceLeaves + BobComes) == Contested
  {
    BookedRun();
    RunConcat(Initial(Today), [ReserveIt] + CheckOut, AliceLeaves);
    AliceLeavesRun();
    RunConcat(Initial(Today), [ReserveIt] + CheckOut + AliceLeaves, BobComes);
    BobComesRun();
  }

  lemma ContestedGood()
    ensures Good(Contested)
  {
    ContestedRun();
    SucceededAlwaysConfirmed(Initial(Today), [ReserveIt] + CheckOut + AliceLeaves + BobComes);
  }

  lemma BobComesRun()
    ensures Run(AliceGone, BobComes) == Contested
  {
    RunConcat(AliceGone, [Reserve(Bob, 5, 7, Later)] + BobCheckOut, [Deliver(BobExpired), Tick(Later + 15 * MINUTE)]);
    RunConcat(AliceGone, [Reserve(Bob, 5, 7, Later)], BobCheckOut);
    BobReservedRun();
    BobCheckedOutRun();
    BobTimedOutRun();
  }

  /** Stripe's answers: Alice has paid after all, Bob has not. */
  const Answers: map<nat, Lookup> := map[0 := SessionPaid("pi"), 1 := SessionUnpaid]

  /** Both are due. Listed first, Alice's payment stops the loop, and Bob's is never looked up. */
  lemma AliceFirst()
    ensures Stuck([0, 1], Contested.payments, Contested.now - RECONCILE_GRACE_MINUTES * MINUTE)
    ensures Reconcilable(Contested, [0, 1], Answers) && StopsAt(Contested, [0, 1], 0, Answers, {}, {})
  {
    ContestedGood();
    RejectsPaidIff(Contested, 0, "pi");
    assert Contested.reservations[1].Active();
  }

  const Freed := Contested.(reservations := map[0 := AliceOut, 1 := BobRow.(status := Cancelled)],
                            payments := map[0 := AliceTimedOut, 1 := BobTimedOut.(status := Declined)])

  lemma BobDeclined()
    ensures Settle(Contested, 1, SessionUnpaid) == Freed && Good(Freed)
  {
    ContestedGood();
    SettleGood(Contested, 1, SessionUnpaid);
  }

  lemma AliceAccepted()
    ensures Accepts(Freed, 0, SessionPaid("pi"))
  {
    BobDeclined();
    RejectsPaidIff(Freed, 0, "pi");
  }

  /** Listed second, it finds the seat free again, and the loop runs to its end. */
  lemma BobFirst()
    ensures Stuck([1, 0], Contested.payments, Contested.now - RECONCILE_GRACE_MINUTES * MINUTE)
    ensures Reconcilable(Contested, [1, 0], Answers)
    ensures !StopsAt(Contested, [1, 0], 0, Answers, {}, {}) && !StopsAt(Contested, [1, 0], 1, Answers, {}, {})
    ensures Failures(Contested, [1, 0], 2, Answers) == [Bob]
  {
    assert FailureOf(Contested, 1, Answers) == [Bob] && FailureOf(Contested, 0, Answers) == [];
    assert Failures(Contested, [1, 0], 1, Answers) == [Bob];
    BobDeclined();
    AliceAccepted();
    assert After(Contested, [1, 0], 0, Answers) == Contested && [1, 0][0] == 1;
    assert After(Contested, [1, 0], 1, Answers) == Freed;
    assert Settles(Contested, [1, 0], 0, Answers, {});
    assert Settles(Contested, [1, 0], 1, Answers, {});
  }
}
