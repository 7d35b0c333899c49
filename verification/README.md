# Cinema booking: a verified model

A Dafny model of the booking backend: seat holds, payments and refunds, hold expiry, payment reconciliation,
the sliding-window limiter and the payment lockout, hall scheduling, the seat-map cache, seat grids, one-time
codes and refresh sessions. `dafny verify dfyconfig.toml` checks all of it.

Each component has the same three parts. A *step function* says what one atomic piece of the code does to the
tables or keys it owns: one database transaction, one Redis script or command, one call to Stripe. A *class* has the
source's methods, with the same branches, loops and order of writes, and every method is proved to end in the state
the step functions give. *Lemmas* then speak about every run of steps.

| module | about |
|---|---|
| `Tables`, `HoldTransactions`, `ReservationStore`, `ReservationEvents` | reservation rows, `holdSeat` transactions interleaved step by step, the service calls around them and their events |
| `Booking`, `BookingRuns`, `BookingService`, `Reconciliation`, `RefundOnce`, `HoldDeadlines`, `Redelivery`, `LateCancels` | reservations, payments and Stripe's refund ledger together, with a crash possible between any two writes |
| `Refunds`, `Decimals` | the refund policy table, the rounded amount, decimal ids in idempotency keys |
| `SortedSets`, `RateLimiter`, `PaymentAbuse`, `FailureRaces` | Redis sorted sets against a log that forgets nothing |
| `Scheduling`, `SeatMaps`, `Halls` | screenings of a hall, the cached seat map, the seat grid |
| `Otp`, `Sessions` | one-time codes, refresh tokens |

## How to read the booking machine

`Booking.State` holds the two tables, Stripe's ledger of refunds, and for each reservation the unfinished call on it,
if any: what it has written and what it will do next. `Continue` performs the next write or Stripe call, which may
also throw (`ok` false); `Crash` ends the process there. Calls on one reservation are serialised, everything else
interleaves. `LateCancels` lifts this for the cancel of a HELD reservation, which reads the row in one database call
and writes CANCELLED in another without looking again: such a write keeps what every reachable state satisfies iff no
payment of the reservation has succeeded and no webhook on it stands between its confirm and its record
(`LateCancelIff`). Runs whose late writes all meet this stay safe (`LateCancelsRun`); `PaidThenCancelled` and
`ConfirmedThenCancelled` are runs from the empty system that break each half. `BookingRuns` holds the one booking
that these and the other counterexamples start from.
`BookingService.PaymentsService` has the same calls as code; the argument `lifetime` says after how many steps
the process dies and `replies` which of its operations throw, and `Survived` is what is left behind.

## Assumptions

- A key written at `t` with a time to live of `d` is present exactly before `t + d`. Redis keeps it one millisecond longer.
- A database write that throws has no effect. A commit whose answer is lost would let a hold be extended twice.
- Two webhooks, or a webhook and a checkout, on one reservation do not overlap; nor do two refunds of it.
- Stripe replays its first answer to a repeated idempotency key with the same parameters, and answers a repeated
  key with other parameters with an error.
- Clocks do not run backwards, random ids are unique, and refund percents in the table lie between 0 and 100.
- Hours until a screening, percents and refund amounts before rounding are real numbers.
- Stripe forgets idempotency keys after some time; the model's ledger never does. A retry that comes later than that
  moves money again, so the refund results hold for retries within Stripe's retention of a key.
- Stripe refuses a refund of nothing, while the model's ledger carries one out: a positive percent of a non-zero amount
  that rounds to zero, below half a percent of the cheapest seat, would leave the booking as it is.
- An audit record is a log line (`backend/src/common/services/audit.service.ts:16-18`) and does not throw.

## Where the code and its documentation differ

The model follows the code.

- The repository's `README.md:64` says REPEATABLE READ; the transaction runs at READ COMMITTED
  (`backend/src/reservations/reservations.repository.ts:33-35`), and so does the model: the query after the lock reads
  every committed row.
- Its `README.md:121` says active screenings skip the cache; no code does that.
- `backend/prisma/schema.prisma:161` declares `stripePaymentId` unique, which the model assumes; no migration creates that index.
- The comment at `backend/src/redis/payment-abuse.service.ts:16-19` allows a lockout to come one failure late;
  `LockoutNeverDelayed` shows it never does.

## Claims that fail, with their exact condition

Each comes with an input on which it fails.

- `confirm` is a blind update. Without the index it is harmless iff its row is active or its seat is free
  (`ConfirmNeedsIndexIff`); `LateConfirmDoubleBooks` is a run in which it is not.
- A late cancel is harmless iff the reservation is neither paid for nor about to be recorded as paid for
  (`LateCancelIff`); see above for the two runs.
- Redeliveries are invisible when each payment hears of one event id. In general a delivery of any type acts iff it
  reaches an idle payment, its id is not stored now and, for a paid one, the index admits the seat (`DeliveryActsIff`).
  So an expired or failed event delivered again after the paid one turns SUCCEEDED into TIMED_OUT or FAILED
  (`OlderFailureRun`), and after a dispute a paid event revives a refunded booking (`RevivedRun`).
- A failed payment is written before its failure is put on record. If the process dies in between, a later delivery
  of the event puts it on record iff no payment stores its id any more, no call on the reservation is unfinished and
  that delivery lives on (`RedeliveredFailureIff`); an id is stored until another event or a payment's record is written
  over it (`StoredStepIff`). So the failure is lost as long as nothing is (`LostWhileStored`, `FailureLost`), for good
  when each payment hears of one event id (`LostForGood`), and after a paid event it comes back, against a payment
  that has succeeded (`FailureComesBack`).
- The reconciliation loop runs to its end iff no stuck payment in its order is refused, hit by a fault or uncounted
  (`ReconcileTimedOutPayments`). A paid session is refused iff its intent belongs to another payment or its seat to
  somebody else (`RejectsPaidIff`), and then blocks every payment after it on every run of the loop while the seat
  stays taken (`BlocksWhileTaken`). In the run `ContestedRun` one order of two payments settles neither (`AliceFirst`),
  the other both (`BobFirst`).
- A refund attempt that nothing interrupts settles iff Stripe has not seen its key with another amount or intent
  (`AttemptSettlesIff`). `StuckRefund`: a cancel in the 100% band crashes after Stripe's answer; in the 50% band every
  retry then changes nothing, with the customer paid back, the payment SUCCEEDED and the seat CONFIRMED.
- A new film duration keeps a hall free of clashes iff every screening of the film still ends before the next one of
  its hall begins (`DurationChangeIff`, `DurationChangeClash`); two racing creates clash iff they meet each other
  (`RacingCreatesIff`, `RacingCreatesClash`).
- A policy lookup is independent of row order iff all covering rows carry one percent (`OrderIrrelevantIff`, `OrderMatters`).
- The seeded percent never grows as a screening gets closer, except across the far end of the last band, 100 000 hours away
  (`SeededMonotoneIff`, `SeededPercentGrows`).
- A late confirm leaves a cached seat map behind the tables iff the map shows its seat (`ConfirmKeepsCoherentIff`, `LateConfirmHidden`).
- A revocation reads and deletes in two commands. It leaves no live token iff every token live at the delete had been
  handed out before the read (`RevokeLeavesNoneIff`); `RefreshOutlivesRevoke` is a run in which a refresh in between
  survives it, and a second revocation as well. With every call a single step (`AtomicListed`, `AtomicRevoke`), or as
  long as nobody is handed a token during a revocation of theirs (`ListedRun`, `RevokeAfterAnyRun`), nothing is missed.

## Model

| member | source | states |
|---|---|---|
| HoldTransactions.LockAndCheckSuffice | backend/src/reservations/reservations.repository.ts:30-111 | In every interleaving of hold transactions with sweeps, cancels, extensions and confirms of HELD rows, no two active rows, committed or pending, share (screening, seat) by lock and check alone; the run with the index is the same run, so the P2002 branch is dead |
| HoldTransactions.IndexSuffices | backend/prisma/migrations/20260702000000_reservation_active_seat_screening_index/migration.sql:8-10 | With the index, uniqueness holds over every run, confirms of CANCELLED rows included |
| HoldTransactions.ConfirmNeedsIndexIff | backend/src/reservations/reservations.repository.ts:122-127 | Without the index a confirm keeps uniqueness iff its row is active or no active row has its seat |
| HoldTransactions.LateConfirmDoubleBooks | backend/src/reservations/reservations.repository.ts:122-127 | A concrete run, hold, sweep, second hold, late confirm, after which one seat would carry two active rows but for the index |
| HoldTransactions.OneWinner | backend/src/reservations/reservations.repository.ts:56-81 | In any state whose winners and losers are accounted for by rows, if every attempt on a seat that was free has finished, exactly one has won and the others were told the seat is taken |
| HoldTransactions.ExactlyOneWinner | backend/src/reservations/reservations.repository.ts:43-81 | However transactions interleave with each other, with confirms of HELD rows and with anything that happens to other seats, once all attempts on a free seat have finished exactly one has won and every other one was told the seat is taken; only releases of that seat and faults of its own attempts are excluded |
| HoldTransactions.IndexAnswersTaken | backend/src/reservations/reservations.repository.ts:89-96 | An insert that the index refuses is answered 409 like a taken seat, and leaves nothing behind |
| HoldTransactions.SoloWins | backend/src/reservations/reservations.repository.ts:40-81 | Run alone on a free seat of its hall, the five steps commit exactly one new HELD row and free the lock |
| HoldTransactions.SoloLoses | backend/src/reservations/reservations.repository.ts:50-71 | Run alone on a seat of another hall or a taken seat, they answer 400 or 409 and change nothing else |
| Tables.WriteKeepsUniqueIff | backend/prisma/migrations/20260702000000_reservation_active_seat_screening_index/migration.sql:8-10 | An update of one row keeps active rows unique iff the index would admit it |
| ReservationStore.ReservationsRepository.HoldSeat | backend/src/reservations/reservations.repository.ts:40-111 | Result in order of the checks: 503 for a timed-out and 500 for any other failing query, 400 for a seat of another hall, 409 for a taken one; exact new row or no change, and the same table as the five transaction steps run alone |
| ReservationStore.ReservationsRepository.ExtendHold | backend/src/reservations/reservations.repository.ts:114-119 | Only heldUntil of that row changes; a missing row is refused |
| ReservationStore.ReservationsRepository.Confirm | backend/src/reservations/reservations.repository.ts:122-127 | Accepted iff the row exists and is active already or its seat is free; then CONFIRMED without deadline, otherwise nothing |
| ReservationStore.ReservationsRepository.CancelRow | backend/src/reservations/reservations.repository.ts:149-154 | Only the status changes: the deadline stays |
| ReservationStore.ReservationsRepository.ReleaseExpiredHolds | backend/src/reservations/reservations.repository.ts:136-143 | A row that is HELD with a deadline strictly before now loses both status and deadline, every other row and every other column stays; exactly the changed rows are returned, each once; the sweep step of the transaction machine writes the same |
| ReservationEvents.ReservationsService.Reserve | backend/src/reservations/reservations.service.ts:45-84 | 403, 404 and 400 in that order, each without a trace; otherwise held for ten minutes iff the seat is in the hall and free, with one CREATED event that names the seat iff it was |
| ReservationEvents.ReservationsService.FinalizeCancel | backend/src/reservations/reservations.service.ts:132-142 | Only the status changes; one CANCELLED event; the cache is told of any seat freed |
| ReservationEvents.ReservationsService.ConfirmPayment | backend/src/reservations/reservations.service.ts:166-173 | Fails without a trace iff the row is missing or the index refuses it; the cache hears of the seat it takes iff the row was active already, so not of a late confirm |
| ReservationEvents.SweepAnnounced | backend/src/reservations/reservations.service.ts:91-106 | Every seat a sweep frees is named by one of its CANCELLED events |
| ReservationEvents.GroupByScreening | backend/src/reservations/reservations.service.ts:97-102 | The Map holds exactly the affected screenings in order of first appearance, each with the seats of its rows in order |
| ReservationEvents.GroupedInOrder | backend/src/reservations/reservations.service.ts:97-106 | Three released rows of two screenings, in the order the Map meets them |
| ReservationEvents.ReservationsService.ExpireHolds | backend/src/reservations/reservations.service.ts:91-115 | Exactly the rows HELD with a deadline strictly before now become CANCELLED without deadline, nothing else changes; one CANCELLED event per affected screening, then one HOLD_EXPIRED per row with its user, screening and seat; the cache is told of every seat freed |
| ReservationEvents.SweepConserves | backend/src/reservations/reservations.service.ts:97-114 | The pairs that the emitted CANCELLED events announce are, as a multiset, those of the released rows |
| ReservationEvents.PairsUnique | backend/src/reservations/reservations.service.ts:97-114 | Each freed (screening, seat) is announced exactly once by the emitted events |
| ReservationEvents.ScreeningsDistinct | backend/src/reservations/reservations.service.ts:104-106 | No screening gets two CANCELLED events of one sweep, and a screening gets one iff a row of it was released |
| Booking.SucceededAlwaysConfirmed | backend/src/payments/payments.service.ts:197-207 | Whatever interleaves and wherever calls crash, every reachable state keeps its keys, its unique columns and: a SUCCEEDED payment has a CONFIRMED reservation |
| Booking.PaidAlwaysSeated | backend/src/payments/payments.service.ts:317-331 | From the empty system, over any run, a SUCCEEDED payment belongs to a CONFIRMED reservation |
| Booking.GoodContinue | backend/src/payments/payments.service.ts:317-331 | Every later write of an unfinished call, or its failure, keeps the invariant: this is where the order of the writes matters |
| LateCancels.LateCancelIff | backend/src/reservations/reservations.service.ts:117-142 | A status write to CANCELLED that comes late keeps the whole invariant iff no payment of the reservation has succeeded and no webhook stands between its confirm and its record |
| LateCancels.LateCancelSeen | backend/src/reservations/reservations.service.ts:117-142 | In terms of payments alone: the write takes a paid seat away, at once or with the reservation's next write, iff a payment has succeeded or the waiting webhook will be able to record one |
| LateCancels.LateCancelsRun | backend/src/reservations/reservations.service.ts:117-142 | With cancels split into read and write anywhere in a run, SUCCEEDED still means CONFIRMED as long as every late write is harmless when it happens |
| LateCancels.PaidThenCancelled | backend/src/reservations/reservations.service.ts:117-142 | A run from the empty system: read HELD, checkout, payment, late write; the payment is SUCCEEDED and its seat CANCELLED |
| LateCancels.ConfirmedThenCancelled | backend/src/reservations/reservations.service.ts:117-142 | A run from the empty system in which no payment has succeeded at the late write, and the webhook's next write breaks the invariant |
| BookingService.SurvivedGood | backend/src/payments/payments.service.ts:64-141 | A process that dies after any number of steps of any call leaves the invariant intact |
| BookingService.PaymentsService.CreatePayment | backend/src/payments/payments.service.ts:68-105 | One PENDING row for price times 100 iff the caller owns the reservation, it is HELD, no payment names it and there is a price; otherwise refused without a trace |
| BookingService.PaymentsService.CreateCheckoutSession | backend/src/payments/payments.service.ts:64-141 | For every crash point and every failing operation, the state the steps leave; when it finishes, the session is stored and the deadline is the session expiry |
| BookingService.PaymentsService.HandleCheckoutPaid | backend/src/payments/payments.service.ts:191-215 | Confirm before record: a throw leaves all payments as they were; a finished delivery leaves SUCCEEDED with event and intent and the reservation CONFIRMED |
| BookingService.PaymentsService.HandleWebhookEvent | backend/src/payments/payments.service.ts:160-185 | Every event type, recorded or not, ends as the delivery step says, and the invariant holds at any crash point and for any failing write; a first write that throws leaves everything as it was; a failure is put on record iff an unrecorded failed event reaches its payment and the call lives on; a recorded event does nothing at all |
| BookingService.PaymentsService.MarkPayment | backend/src/payments/payments.service.ts:217-275 | The single-write handlers: exactly the columns each event writes, of its payment and no other; and their outcome: thrown exactly when the write throws, when the payment of a failed or expired event is missing, or when recordFailure throws; recordFailure for the reservation's user exactly after a failed event that was written |
| BookingService.PaymentsService.Cancel | backend/src/reservations/reservations.service.ts:117-142 | Changes nothing unless the caller owns the reservation and it is not cancelled yet; finishes only with the reservation CANCELLED, and from CONFIRMED only with its payment REFUNDED; any crash point keeps the invariant |
| BookingService.PaymentsService.RefundReservation | backend/src/payments/payments.service.ts:277-338 | Every branch of the refund, for every crash point and failing operation, ends as the steps say; a finished one leaves REFUNDED and CANCELLED |
| BookingService.PaymentsService.FinishRefund | backend/src/payments/payments.service.ts:317-331 | REFUNDED is written before CANCELLED |
| BookingService.PaymentsService.FindStuckTimedOut | backend/src/payments/payments.repository.ts:41-45 | Exactly the payments with status TIMED_OUT created strictly before the cutoff, each once |
| BookingService.PaymentsService.ReconcileOne | backend/src/payments/payments.repository.ts:56-92 | Both rows of the pair are written as Stripe answered, or neither |
| BookingService.PaymentsService.ReconcileTimedOutPayments | backend/src/payments/payments.service.ts:340-373 | While calls on other reservations may be unfinished: over exactly the payments TIMED_OUT for more than ten minutes, the loop stops at the first iteration that is refused, faulted or cannot put its failure on record, so it finishes iff there is none; each pair before it is SUCCEEDED with its intent and CONFIRMED or DECLINED and CANCELLED, as Stripe answered, every other row and column is unchanged, and recordFailure has been called, in this order, for exactly the users of the unpaid sessions |
| Reconciliation.ReconciliationLeavesNothingStuck | backend/src/payments/payments.service.ts:344-372 | When the loop finishes, every payment that was stuck is SUCCEEDED with CONFIRMED or DECLINED with CANCELLED, as Stripe answered, none is stuck any more, and no other payment has moved |
| Reconciliation.SettledPairs | backend/src/payments/payments.repository.ts:56-92 | Iterations that go through settle exactly their pairs, each as Stripe answered, and change no other row |
| Reconciliation.FailuresListed | backend/src/payments/payments.service.ts:360-371 | The users put on record are, in loop order, those of the reservations of exactly the payments that Stripe called unpaid |
| Reconciliation.RejectsPaidIff | backend/src/payments/payments.repository.ts:73-92 | The transaction of a paid session is refused iff the intent belongs to another payment, or the row is cancelled and its seat taken |
| Reconciliation.BlocksWhileTaken | backend/src/payments/payments.service.ts:344-372 | A payment paid too late stops the loop at its place unless an earlier iteration cancels the reservation that holds the seat |
| Reconciliation.ContestedRun | backend/src/payments/payments.service.ts:340-373 | A run from the empty system to two timed-out payments for one seat |
| Reconciliation.AliceFirst | backend/src/payments/payments.service.ts:344-359 | There, the late payer first: the loop stops at once and settles neither |
| Reconciliation.BobFirst | backend/src/payments/payments.service.ts:344-372 | The other order: both are settled, and the failure on record is that of the one who has not paid |
| RefundOnce.OneRefundPerKey | backend/src/payments/payments.service.ts:307-313 | A ledger whose entries each belong to a paid payment, under keys that do not repeat, refunds each payment at most once and never above its amount |
| RefundOnce.RefundedAtMostOnce | backend/src/payments/payments.service.ts:305-315 | Over any run with any crashes and retries, Stripe holds at most one refund under a payment's key, and never above its amount |
| RefundOnce.RefundedOnceEver | backend/src/payments/payments.service.ts:305-315 | The same over every run from the empty system |
| RefundOnce.AttemptSettlesIff | backend/src/payments/payments.service.ts:277-338 | An attempt that nothing interrupts ends REFUNDED and CANCELLED iff it need not ask Stripe or Stripe has not refunded this key with another amount or intent; otherwise it changes nothing |
| RefundOnce.AttemptMoves | backend/src/payments/payments.service.ts:298-313 | A first attempt that nothing interrupts adds one refund to Stripe's ledger and nothing else: under the payment's key, from its intent, the policy's percent of its amount rounded half up |
| RefundOnce.RefundKeyText | backend/src/payments/payments.service.ts:312 | The key is the prefix and the payment's id in decimal |
| RefundOnce.StuckRefund | backend/src/payments/payments.service.ts:298-315 | A run from the empty system after which, throughout the 50% band, every complete attempt changes nothing although Stripe has refunded in full |
| RefundOnce.LastWriteSettles | backend/src/payments/payments.service.ts:317-331 | Any refund that reaches its last write ends REFUNDED and CANCELLED |
| RefundOnce.RetryAfterRefunded | backend/src/payments/payments.service.ts:285-290 | From REFUNDED with CONFIRMED one further cancel finishes, with the ledger and the payments untouched |
| RefundOnce.RefundKeyInjective | backend/src/payments/payments.service.ts:312 | Two payments never share an idempotency key |
| HoldDeadlines.HeldAtMost42Minutes | backend/src/reservations/reservations.service.ts:26-84 | With a sweep at least every minute, no reservation is HELD later than 42 minutes after its creation, over every run |
| HoldDeadlines.ExtensionNeverShortens | backend/src/payments/payments.service.ts:108-134 | Although the session expiry is floored to seconds, a successful extension never moves a deadline back |
| HoldDeadlines.HeldAtMost42MinutesEver | backend/src/reservations/reservations.service.ts:26-84 | The same over every run from the empty system |
| HoldDeadlines.HeldUntilDeadline | backend/src/reservations/reservations.service.ts:63-74 | A seat reserved now that nobody cancels and Stripe does not decline is HELD or CONFIRMED for ten minutes, over every run with any sweeps, checkouts, webhooks and crashes |
| HoldDeadlines.LastsRun | backend/src/reservations/reservations.repository.ts:114-143 | The same from any state, for any instant up to which a row is held: no checkout moves its deadline before it |
| HoldDeadlines.HeldStep | backend/src/reservations/reservations.repository.ts:136-143 | A HELD row that is left alone becomes CANCELLED exactly by a sweep that finds its deadline strictly before the clock |
| HoldDeadlines.ExtendedAtMostOnce | backend/src/payments/payments.service.ts:75-78 | Over any run, whatever crashes or is retried, a hold is extended at most once |
| HoldDeadlines.SettledForGood | backend/src/payments/payments.service.ts:75-78 | Once a reservation has a payment row that no checkout is working on it keeps one over every run, and is never extended again |
| HoldDeadlines.TimelyUndone | backend/src/payments/payments.service.ts:137-140 | Undoing a failed checkout keeps every deadline within its bound |
| Redelivery.RedeliveriesInvisible | backend/src/payments/payments.service.ts:160-165 | With one event id per payment, a run and the run without its redeliveries end in the same state |
| Redelivery.RedeliveriesInvisibleEver | backend/src/payments/payments.service.ts:160-165 | The same over every single-id run from the empty system |
| Redelivery.DeliveryActsIff | backend/src/payments/payments.service.ts:160-275 | A delivery of any type acts iff it reaches an idle payment, its id is not recorded and, for a paid one, the index admits the confirm; exactly what it then writes, whatever the payment's status was; in every other case nothing, so it can be retried |
| Redelivery.OlderFailureReprocessed | backend/src/payments/payments.service.ts:223-250 | A failed or expired event whose id is no longer stored undoes SUCCEEDED while the seat stays CONFIRMED |
| Redelivery.OlderFailureRun | backend/src/payments/payments.service.ts:223-250 | Such a run from the empty system, for each of the two event types |
| Redelivery.RedeliveredFailureIff | backend/src/payments/payments.service.ts:223-240 | Whatever has happened since a failed event was written, its redelivery puts the user's failure on record iff its id is stored no more, the reservation is idle and the call lives on |
| Redelivery.StoredStepIff | backend/src/payments/payments.service.ts:160-165 | A stored event id goes exactly when another event, or the record of a payment, is written over it |
| Redelivery.LostWhileStored | backend/src/payments/payments.service.ts:223-240 | While nothing is written over it, every redelivery does nothing and puts nothing on record |
| Redelivery.LostForGood | backend/src/payments/payments.service.ts:223-240 | With one event id per payment a failure whose first delivery died is never put on record |
| Redelivery.FailureLost | backend/src/payments/payments.service.ts:223-240 | A run from the empty system that loses a failure |
| Redelivery.FailureComesBack | backend/src/payments/payments.service.ts:223-240 | A run from the empty system after which the redelivery puts it on record although the payment has succeeded |
| Redelivery.RevivedRun | backend/src/payments/payments.service.ts:263-268 | A run from the empty system: booked, refunded, disputed, and the paid event again makes it SUCCEEDED and CONFIRMED |
| Redelivery.CrashedDeliveryResumes | backend/src/payments/payments.service.ts:198-207 | After a crash between confirm and record, the redelivery stands exactly where the first one stopped |
| Redelivery.OlderEventReprocessed | backend/src/payments/payments.service.ts:263-268 | With two event ids a redelivered paid event turns a refunded booking back into SUCCEEDED and CONFIRMED |
| Refunds.OrderIrrelevantIff | backend/src/payments/payments.repository.ts:47-54 | At a given hour the percent is the same for every row order iff all covering rows agree on it |
| Refunds.OrderMatters | backend/src/payments/payments.repository.ts:47-54 | Two overlapping bands whose order decides between half and all |
| Refunds.DisjointBandsOrderFree | backend/src/payments/payments.repository.ts:47-54 | With pairwise disjoint bands the lookup does not depend on row order at all |
| Refunds.RefundWithinAmount | backend/src/payments/payments.service.ts:302-303 | For percents in [0, 100] the rounded refund lies in [0, amount] and within half a cent of the exact value |
| Refunds.WholePercentExact | backend/src/payments/payments.service.ts:86 | As the amount is price times 100, a whole percent is refunded exactly: price times percent |
| Refunds.SeededMonotoneIff | backend/prisma/seed.ts:11-25 | Waiting never raises the seeded percent, except across the far end of the last band |
| Refunds.SeededPercentGrows | backend/prisma/seed.ts:11-25 | At 100 000 hours nothing is refunded, an hour later everything |
| Refunds.SeededByClock | backend/src/payments/payments.service.ts:298-302 | The seeded percent in milliseconds before the start: all from two days on, half from one day on, then nothing |
| Refunds.SeededTile | backend/prisma/seed.ts:11-25 | Exactly one seeded band covers each hour up to the far end |
| Refunds.SeededRefundNeverGrows | backend/prisma/seed.ts:11-25 | For the seeded bands a later cancellation never refunds more |
| RateLimiter.RateLimiterService.Limit | backend/src/redis/rate-limiter.service.ts:16-43 | The script, command by command, takes one key to the next and gives its reply |
| RateLimiter.LimiterMatchesLog | backend/src/redis/rate-limiter.service.ts:16-43 | Over every run, decision and remaining count equal those of a limiter that keeps the whole admission log: pruning and PEXPIRE cannot be observed |
| RateLimiter.WindowBound | backend/src/redis/rate-limiter.service.ts:23-33 | No half-open window of that length, ending at any instant, holds more than maxRequests admissions |
| RateLimiter.ResetValue | backend/src/redis/rate-limiter.service.ts:35-41 | A rejection reports exactly the wait until the oldest counted admission leaves the window, always positive, so the clamp is dead |
| RateLimiter.RetriesUntilReset | backend/src/redis/rate-limiter.service.ts:35-41 | Of the retries after a rejection each one before the reported instant is rejected, and the first one at or after it is admitted |
| RateLimiter.RetryAfterSuffices | backend/src/common/guards/rate-limit.guard.ts:44-50 | Waiting the header's whole seconds (section 10.2.3 of RFC 9110), less than a second more than needed, always gets the next retry admitted |
| SortedSets.KeyLifetime | backend/src/redis/rate-limiter.service.ts:31 | A key given a time to live is there until the millisecond before its end, and gone at its end |
| SortedSets.Oldest | backend/src/redis/rate-limiter.service.ts:35 | The first member by score has the least score of the set |
| PaymentAbuse.PaymentAbuseService.RecordFailure | backend/src/redis/payment-abuse.service.ts:29-41 | The five commands in a row leave the keys as recording the whole log of failures does, with this failure appended |
| PaymentAbuse.PaymentAbuseService.LockedOut | backend/src/redis/payment-abuse.service.ts:43-46 | True iff some failure of the last half hour was at least the third in the 24 hours that ended with it |
| PaymentAbuse.LockoutIff | backend/src/redis/payment-abuse.service.ts:29-46 | Over any sequential run a user is locked out at t iff some failure f with f <= t < f + 30 min is at least the third in the 24 hours that end with it |
| FailureRaces.AloneIsRecord | backend/src/redis/payment-abuse.service.ts:29-41 | Undisturbed, the separate commands of one call leave exactly what the sequential service records |
| FailureRaces.LockoutNeverDelayed | backend/src/redis/payment-abuse.service.ts:16-41 | However the separate commands of concurrent calls within a day interleave, the call with the n-th ZADD counts at least n, so the third failure sets the lockout |
| FailureRaces.LockoutNeverDelayedEver | backend/src/redis/payment-abuse.service.ts:29-41 | From a user without failures, the call with the third or a later ZADD sets the lockout when it comes to it |
| Scheduling.MeetsIffSharesInstant | backend/src/screenings/screenings.repository.ts:84-89 | The overlap test holds iff the two half-open intervals share an instant |
| Scheduling.OccupiedIffShares | backend/src/screenings/screenings.repository.ts:66-90 | The overlap check finds something iff the hall shows another non-cancelled screening at some instant of the interval |
| Scheduling.LastMillisecond | backend/src/screenings/screenings.service.ts:281-283 | A 90-minute screening has its hall until its last millisecond and no longer |
| Scheduling.WriteKeepsDisjointIff | backend/src/screenings/screenings.service.ts:262-279 | Writing a screening keeps its hall free of clashes iff no other non-cancelled screening of that hall meets it |
| Scheduling.ScreeningsService.CreateScreening | backend/src/screenings/screenings.service.ts:53-77 | Refused for an unknown film or hall; for overlap iff at some instant of the new screening its hall shows another non-cancelled one; otherwise exactly one new row, and no hall ever shows two films at once |
| Scheduling.ScreeningsService.UpdateScreening | backend/src/screenings/screenings.service.ts:79-121 | Each of film, hall, start and price becomes the requested one where given and stays where not, the status and every other row stay; refused for overlap iff at some instant of the requested film from the requested start on the requested hall shows another non-cancelled screening |
| Scheduling.ScreeningsService.CancelScreening | backend/src/screenings/screenings.service.ts:123-137 | Only the status changes; a second cancel is refused |
| Scheduling.ScreeningsService.DeleteScreening | backend/src/screenings/screenings.service.ts:139-152 | Removed iff it exists and has no reservations |
| Scheduling.RacingCreatesIff | backend/src/screenings/screenings.service.ts:64-72 | Two creates that both passed their check before either inserted clash iff they meet each other |
| Scheduling.RacingCreatesClash | backend/src/screenings/screenings.service.ts:64-72 | Two creates on an empty hall that both pass and clash |
| Scheduling.DurationChangeIff | backend/src/movies/movies.service.ts:26-31 | A new duration is safe iff every screening of the film still ends before the next one of its hall begins |
| Scheduling.DurationChangeClash | backend/src/movies/movies.service.ts:26-31 | Two screenings back to back that a longer film makes clash |
| SeatMaps.CacheStaysCoherent | backend/src/reservations/listeners/reservation-cache.listener.ts:23-27 | Over every run whose confirms meet HELD rows, each cached seat map equals the recomputed one once HELD and BOOKED are merged |
| SeatMaps.CachedCountsExact | backend/src/screenings/screenings.service.ts:233-252 | Hence capacity, available and reserved are exact even from the cache, and available + held + booked = capacity |
| SeatMaps.ConfirmKeepsCoherentIff | backend/src/reservations/listeners/reservation-cache.listener.ts:23-27 | A confirm of any row leaves the cache coherent iff the row is active, the index refuses it, or no cached map shows its seat |
| SeatMaps.LateConfirmHidden | backend/src/reservations/listeners/reservation-cache.listener.ts:23-27 | A run from empty tables: held, cancelled, read into the cache, confirmed late; the cached map calls the booked seat free |
| SeatMaps.ReservationSteps | backend/src/reservations/reservations.repository.ts:73-154 | What the reservation steps of the seat-map runs write, column by column |
| SeatMaps.ScreeningSteps | backend/src/screenings/screenings.service.ts:67-146 | What the screening steps write, and that a screening with reservations is not deleted |
| SeatMaps.ComputedShows | backend/src/screenings/screenings.service.ts:209-219 | A computed map shows each seat of the hall at its place, HELD or BOOKED iff there is such a row |
| SeatMaps.CountIsCard | backend/src/screenings/screenings.service.ts:236-241 | The counter loop counts the entries of that status |
| SeatMaps.RowOrderIrrelevant | backend/src/screenings/screenings.service.ts:209-219 | Whatever order the rows come in, a seat's status is that of its one active reservation |
| SeatMaps.ScreeningsService.FindActiveReservations | backend/src/screenings/screenings.repository.ts:125-137 | Exactly the seats and statuses of the active rows of that screening |
| SeatMaps.ScreeningsService.GetSeatMap | backend/src/screenings/screenings.service.ts:193-222 | 404 iff unknown or cancelled; a hit is the cached map and agrees with the tables; a miss shows each seat of the hall HELD or BOOKED iff the screening has such a row for it, and is cached for five minutes |
| SeatMaps.ScreeningsService.GetScreeningSummary | backend/src/screenings/screenings.service.ts:233-252 | On a miss held and booked are the numbers of the hall's seats with a HELD and with a CONFIRMED row, on a hit the numbers of HELD and BOOKED entries cached; capacity, available and reserved are those of the tables either way |
| Halls.RowLabelBijective | backend/src/screenings/halls.repository.ts:15-23 | Row labels are a bijection between the naturals and the non-empty strings over A to Z |
| Halls.IndexOfLabel | backend/src/screenings/halls.repository.ts:15-23 | Decoding a label gives its index back |
| Halls.LabelOfIndex | backend/src/screenings/halls.repository.ts:15-23 | Every non-empty string over A to Z is the label of its decoded index |
| Halls.HallsRepository.LabelOfRow | backend/src/screenings/halls.repository.ts:15-23 | The do-while loop terminates and computes that label |
| Halls.FirstLabels | backend/src/screenings/halls.repository.ts:11-23 | A, Z, AA, AB, BA, ZZ, AAA at their indices, and decimal seat numbers |
| Halls.GridSize | backend/src/screenings/halls.repository.ts:42-48 | The nested loops emit rows times seatsPerRow seats |
| Halls.GridAt | backend/src/screenings/halls.repository.ts:43-48 | Row r and seat s stand at their place in the list, under the label of r and the number s + 1 |
| Halls.GridDistinct | backend/prisma/schema.prisma:128 | No two seats of a hall share row and number |
| Halls.HallsRepository.CreateHallWithSeats | backend/src/screenings/halls.repository.ts:31-56 | One new hall with capacity rows times seatsPerRow, its whole grid appended, and the unique constraint met for every input |
| Otp.OtpService.IssueCode | backend/src/auth/otp.service.ts:14-31 | Refused iff the cooldown key is there, without a trace; otherwise the new code, no counter and a new cooldown, each with its time |
| Otp.OtpService.VerifyCode | backend/src/auth/otp.service.ts:33-55 | By the stored keys: EXPIRED iff no code is stored or its time is up; otherwise TOO MANY iff the count with this attempt exceeds otpMaxAttempts, ACCEPTED iff it does not and the guess is the stored code, WRONG iff it does not and the guess is not; and exactly what becomes of the three keys |
| Otp.AcceptedIff | backend/src/auth/otp.service.ts:33-55 | Over every run a guess is accepted iff it is the code of the latest mail, within its ttl, within the budget of guesses, and that code has not been used |
| Otp.WrongIff | backend/src/auth/otp.service.ts:50 | ... and answered wrong iff all that holds of it but for being the code |
| Otp.TooManyIff | backend/src/auth/otp.service.ts:45-48 | ... and refused for too many attempts iff the latest code is fresh and unused and exactly otpMaxAttempts guesses went before |
| Otp.SentIff | backend/src/auth/otp.service.ts:14-21 | Over every run a code is mailed iff the previous mail is at least a cooldown old |
| Otp.AttemptBudget | backend/src/auth/otp.service.ts:38-48 | Over any serialised run each issued code is compared at most otpMaxAttempts times and accepted at most once, as its counter outlives it |
| Otp.GuessesPerSpan | backend/src/auth/otp.service.ts:14-48 | Over any span at most otpMaxAttempts times (span / cooldown + 1) comparisons are made against codes issued in it |
| Sessions.RotateSwaps | backend/src/auth/token.service.ts:34-44 | A rotation trades one live token for another or does nothing, so the number of live sessions never changes |
| Sessions.TokenService.IssueAuthCookies | backend/src/auth/token.service.ts:88-98 | Exactly one live token more, and listed in its user's set |
| Sessions.TokenService.RotateAuthCookies | backend/src/auth/token.service.ts:106-135 | Succeeds iff the old refresh key is stored and its time is not up; the old token is dead afterwards, the new one lives for seven days |
| Sessions.TokenService.RevokeAllSessions | backend/src/auth/token.service.ts:215-224 | For whatever other requests are served between its two commands, exactly the user's live tokens handed out in between are left, and none if that user neither logs in nor refreshes meanwhile |
| Sessions.ListedStepIff | backend/src/auth/token.service.ts:88-135 | Only a DEL can leave a stored token unlisted, and does iff a stored token of its user is not on its list |
| Sessions.ListedRun | backend/src/auth/token.service.ts:88-135 | Over every run in which nobody is handed a token between the two commands of a revocation of theirs, each stored refresh key, expired or not, is in its user's set, and no DEL misses one |
| Sessions.AtomicListed | backend/src/auth/token.service.ts:88-135 | With issue, rotate and revoke each a single step, in any order, each stored key is in its user's set |
| Sessions.LosslessRunIff | backend/src/auth/token.service.ts:215-224 | A run keeps every stored key listed all along iff none of its DELs misses one |
| Sessions.RevokeAfterAnyRun | backend/src/auth/token.service.ts:215-224 | From no sessions at all, after any run in which nobody is handed a token during a revocation of theirs, such a revocation leaves no live token |
| Sessions.AtomicRevoke | backend/src/auth/token.service.ts:215-224 | With every call a single step, a revocation after any calls at all leaves no live token |
| Sessions.ConsumedAtMostOnce | backend/src/auth/token.service.ts:34-44 | In every interleaving of issues, rotations, expiries and the single commands of revocations a refresh token is consumed at most once |
| Sessions.RevokeMisses | backend/src/auth/token.service.ts:215-224 | With any steps of other calls between SMEMBERS and DEL, a revocation misses exactly the live tokens handed out in between, and one that deleted anything leaves no list for a second one to read |
| Sessions.RevokeLeavesNoneIff | backend/src/auth/token.service.ts:215-224 | It leaves no live token iff every token live at the DEL had been handed out before the SMEMBERS |
| Sessions.QuietRevoke | backend/src/auth/token.service.ts:215-224 | It leaves none when no step in between hands that user a token |
| Sessions.RefreshOutlivesRevoke | backend/src/auth/token.service.ts:215-224 | A run in which a refresh between the two commands outlives this revocation and an undisturbed second one |

## Left out

- Controllers, guards other than the Retry-After header, data transfer objects, audit records, metrics, mail and logging.
- The circuit breaker and the concurrency guard around `holdSeat`: they refuse calls, and a refused call is a step that does not happen.
- Stripe, Postgres, Redis and JWT signing beyond the contracts named above.
- In the booking machine a reservation starts at the hold itself: the lockout and the screening checks before it only refuse.
- The calls of `recordFailure` made by the webhook and by reconciliation are outputs of those methods; `PaymentAbuse` takes them from there.
- Deleting users, halls, movies or seats, which cascades to reservations.
- The dispute flag and timestamps other than `createdAt`: they decide nothing in the modelled code. The dispute reason stands for all three dispute columns.
- Redis errors on deleting a cached seat map, which leave a stale entry for up to its five minutes; errors on get and set are modelled (`Evict`).
- Reads of the seat map that race with a write between the query and the cache write: the seat-map runs are sequential.
- Movie, hall-list and screening-detail caches, and the WebSocket gateway.
- Access-token versions, the Google link state, cookies.
- Interleavings inside one OTP call.
- Overlapping calls on one reservation other than a late cancel.
- HeldAtMost42Minutes: an upper bound; no run that reaches it is given.
- RedeliveriesInvisible: assumes one event id per payment, because with two ids it fails (`OlderEventReprocessed`).
- LockoutNeverDelayed: the interleaved calls lie within one day, as older failures may be trimmed; the sequential `LockoutIff` has no such bound.
