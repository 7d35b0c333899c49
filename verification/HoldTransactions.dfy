/** Concurrent `holdSeat` transactions, interleaved with the other writers of the reservation table. */
module HoldTransactions {
  import opened Tables

  /** HoldSeatParams. */
  datatype Request = Request(userId: int, screeningId: int, hallId: int, seatId: int, heldUntil: int)

  datatype Fault = HeavyLoad | OtherDatabaseError

  /** The four HTTP errors holdSeat can raise: 400, 409, 503 and 500. */
  datatype Refusal = SeatNotInHall | SeatTaken | ServiceUnavailable | InternalError

  /** How far one transaction has come; its row lock is held from Locked to Inserted. */
  datatype Tx =
    | Started(req: Request)
    | Locked(req: Request)
    | Checked(req: Request)
    | Inserted(req: Request, id: int)
    | Won(req: Request, id: int)
    | Lost(req: Request, why: Refusal)
  {
    predicate HoldsLock() {
      Locked? || Checked? || Inserted?
    }

    predicate Finished() {
      Won? || Lost?
    }
  }

  /** Committed rows, rows inserted by open transactions, seat locks, and the transactions. */
  datatype System = System(
    rows: Reservations,
    uncommitted: Reservations,
    locks: map<int, int>,
    txs: map<int, Tx>,
    hallOf: map<int, int>,
    nextId: int)

  datatype Step =
    | Begin(tx: int, req: Request)
    | Lock(tx: int)
    | Check(tx: int)
    | Insert(tx: int, now: int)
    | Commit(tx: int)
    | Fail(tx: int, fault: Fault)
    | Sweep(now: int)
    | Release(id: int)
    | ExtendHold(id: int, until: int)
    | Confirm(id: int)

  function NewRow(req: Request, now: int): Reservation {
    Reservation(req.userId, req.screeningId, req.seatId, Held, Some(req.heldUntil), now)
  }

  /** Every row some transaction can still turn into a booking: committed or pending. */
  function AllRows(s: System): Reservations {
    s.rows + s.uncommitted
  }

  /** A refused or failed transaction is rolled back: its row vanishes and its lock is freed. */
  function Rollback(s: System, t: int, why: Refusal): System
    requires t in s.txs
  {
    var tx := s.txs[t];
    s.(uncommitted := if tx.Inserted? then s.uncommitted - {tx.id} else s.uncommitted,
       locks := if tx.HoldsLock() then s.locks - {tx.req.seatId} else s.locks,
       txs := s.txs[t := Lost(tx.req, why)])
  }

  function FaultError(fault: Fault): Refusal {
    match fault
    case HeavyLoad => ServiceUnavailable
    case OtherDatabaseError => InternalError
  }

  function LockStep(s: System, t: int, req: Request): System
    requires t in s.txs
  {
    if !(req.seatId in s.hallOf && s.hallOf[req.seatId] == req.hallId) then Rollback(s, t, SeatNotInHall)
    else if req.seatId in s.locks then s  // FOR UPDATE waits for the other transaction
    else s.(locks := s.locks[req.seatId := t], txs := s.txs[t := Locked(req)])
  }

  /** The insert; with the index in place a committed duplicate raises P2002 and a pending one makes it wait. */
  function InsertStep(s: System, t: int, req: Request, now: int, indexed: bool): System
    requires t in s.txs
  {
    var row := NewRow(req, now);
    if indexed && !IndexAllows(s.rows, s.nextId, row) then Rollback(s, t, SeatTaken)
    else if indexed && !IndexAllows(s.uncommitted, s.nextId, row) then s
    else s.(uncommitted := s.uncommitted[s.nextId := row],
            nextId := s.nextId + 1,
            txs := s.txs[t := Inserted(req, s.nextId)])
  }

  function CommitStep(s: System, t: int, req: Request, id: int): System {
    if id !in s.uncommitted then s
    else s.(rows := s.rows[id := s.uncommitted[id]],
            uncommitted := s.uncommitted - {id},
            locks := s.locks - {req.seatId},
            txs := s.txs[t := Won(req, id)])
  }

  /** `confirm` never looks at the current status; only the index can stop it. */
  function ConfirmStep(s: System, id: int, indexed: bool): System {
    if id !in s.rows then s
    else if indexed && !IndexAllows(AllRows(s), id, ConfirmedRow(s.rows[id])) then s
    else s.(rows := s.rows[id := ConfirmedRow(s.rows[id])])
  }

  /** One atomic step of any process; a step that is not enabled changes nothing. */
  function Apply(s: System, step: Step, indexed: bool): System {
    match step
    case Begin(t, req) => if t in s.txs then s else s.(txs := s.txs[t := Started(req)])
    case Lock(t) => if t in s.txs && s.txs[t].Started? then LockStep(s, t, s.txs[t].req) else s
    case Check(t) =>
      if !(t in s.txs && s.txs[t].Locked?) then s
      else if Taken(s.rows, s.txs[t].req.screeningId, s.txs[t].req.seatId) then Rollback(s, t, SeatTaken)
      else s.(txs := s.txs[t := Checked(s.txs[t].req)])
    case Insert(t, now) =>
      if t in s.txs && s.txs[t].Checked? then InsertStep(s, t, s.txs[t].req, now, indexed) else s
    case Commit(t) =>
      if t in s.txs && s.txs[t].Inserted? then CommitStep(s, t, s.txs[t].req, s.txs[t].id) else s
    case Fail(t, fault) =>
      if t in s.txs && !s.txs[t].Finished() then Rollback(s, t, FaultError(fault)) else s
    case Sweep(now) => s.(rows := Swept(s.rows, now))
    case Release(id) =>
      if id in s.rows then s.(rows := s.rows[id := s.rows[id].(status := Cancelled)]) else s
    case ExtendHold(id, until) =>
      if id in s.rows then s.(rows := s.rows[id := s.rows[id].(heldUntil := Some(until))]) else s
    case Confirm(id) => ConfirmStep(s, id, indexed)
  }

  function Run(s: System, steps: seq<Step>, indexed: bool): System
    decreases |steps|
  {
    if steps == [] then s else Run(Apply(s, steps[0], indexed), steps[1..], indexed)
  }

  /** Every confirm of the run finds its row still HELD (or missing). */
  predicate ConfirmsMeetHeld(s: System, steps: seq<Step>)
    decreases |steps|
  {
    steps == [] ||
    (MeetsHeld(s, steps[0]) && ConfirmsMeetHeld(Apply(s, steps[0], false), steps[1..]))
  }

  /** Row ids are allotted once, and pending rows are still HELD. */
  ghost predicate Ids(s: System) {
    && (forall id | id in s.rows :: id < s.nextId && id !in s.uncommitted)
    && (forall id | id in s.uncommitted :: id < s.nextId && s.uncommitted[id].status == Held)
  }

  /** What the row lock buys: who holds it, and what the holder has learnt stays true. */
  ghost predicate Locking(s: System) {
    && (forall t | t in s.txs && s.txs[t].HoldsLock() ::
          s.txs[t].req.seatId in s.locks && s.locks[s.txs[t].req.seatId] == t)
    && (forall t | t in s.txs && s.txs[t].Checked? ::
          !Taken(AllRows(s), s.txs[t].req.screeningId, s.txs[t].req.seatId))
    && (forall t | t in s.txs && s.txs[t].Inserted? ::
          s.txs[t].id in s.uncommitted && s.uncommitted[s.txs[t].id].seatId == s.txs[t].req.seatId)
    && (forall id | id in s.uncommitted ::
          exists t | t in s.txs :: s.txs[t].Inserted? && s.txs[t].id == id)
  }

  ghost predicate Safe(s: System) {
    Ids(s) && Locking(s) && UniqueActive(AllRows(s))
  }

  /** A confirm that this step performs finds its row HELD. */
  predicate MeetsHeld(s: System, step: Step) {
    step.Confirm? ==> StillHeld(s.rows, step.id)
  }

  lemma RollbackInserters(s: System, t: int, why: Refusal)
    requires Safe(s) && t in s.txs
    ensures var after := Rollback(s, t, why);
            && (forall id | id in after.uncommitted :: exists u | u in after.txs :: after.txs[u].Inserted? && after.txs[u].id == id)
            && (forall u | u in after.txs && after.txs[u].Inserted? ::
                  u != t && after.txs[u] == s.txs[u] && after.txs[u].id in after.uncommitted)
  {
    var after := Rollback(s, t, why);
    forall id | id in after.uncommitted
      ensures exists u | u in after.txs :: after.txs[u].Inserted? && after.txs[u].id == id
    {
      var u :| u in s.txs && s.txs[u].Inserted? && s.txs[u].id == id;
      assert u in after.txs && after.txs[u] == s.txs[u];
    }
  }

  lemma RollbackLocking(s: System, t: int, why: Refusal)
    requires Safe(s) && t in s.txs
    ensures Locking(Rollback(s, t, why))
  {
    RollbackInserters(s, t, why);
    var after := Rollback(s, t, why);
    assert forall id | id in AllRows(after) :: id in AllRows(s) && AllRows(after)[id] == AllRows(s)[id];
  }

  lemma RollbackSafe(s: System, t: int, why: Refusal)
    requires Safe(s) && t in s.txs
    ensures Safe(Rollback(s, t, why))
  {
    RollbackLocking(s, t, why);
    var after := Rollback(s, t, why);
    assert forall id | id in AllRows(after) :: id in AllRows(s) && AllRows(after)[id] == AllRows(s)[id];
  }

  /** The holder's fresh read still speaks for every row, so the index has nothing to object to. */
  lemma IndexIdle(s: System, t: int, now: int)
    requires Safe(s) && t in s.txs && s.txs[t].Checked?
    ensures var row := NewRow(s.txs[t].req, now);
            IndexAllows(s.rows, s.nextId, row) && IndexAllows(s.uncommitted, s.nextId, row)
            && IndexAllows(AllRows(s), s.nextId, row)
            && InsertStep(s, t, s.txs[t].req, now, false).uncommitted == s.uncommitted[s.nextId := row]
            && AllRows(InsertStep(s, t, s.txs[t].req, now, false)) == AllRows(s)[s.nextId := row]
  {
  }

  lemma InsertLocking(s: System, t: int, now: int)
    requires Safe(s) && t in s.txs && s.txs[t].Checked?
    ensures Locking(InsertStep(s, t, s.txs[t].req, now, false))
  {
    var req := s.txs[t].req;
    var after := InsertStep(s, t, req, now, false);
    IndexIdle(s, t, now);
    assert after.txs[t] == Inserted(req, s.nextId);
    assert forall u | u in s.txs && u != t :: after.txs[u] == s.txs[u];
    forall u | u in after.txs && after.txs[u].Checked?
      ensures !Taken(AllRows(after), after.txs[u].req.screeningId, after.txs[u].req.seatId)
    {
      assert s.locks[s.txs[u].req.seatId] == u && s.locks[req.seatId] == t;
    }
    forall id | id in after.uncommitted
      ensures exists u | u in after.txs :: after.txs[u].Inserted? && after.txs[u].id == id
    {
      if id != s.nextId {
        var u :| u in s.txs && s.txs[u].Inserted? && s.txs[u].id == id;
        assert after.txs[u] == s.txs[u];
      }
    }
  }

  lemma InsertSafe(s: System, t: int, now: int)
    requires Safe(s) && t in s.txs && s.txs[t].Checked?
    ensures Safe(InsertStep(s, t, s.txs[t].req, now, false))
    ensures InsertStep(s, t, s.txs[t].req, now, true) == InsertStep(s, t, s.txs[t].req, now, false)
  {
    IndexIdle(s, t, now);
    InsertLocking(s, t, now);
  }

  /** Nobody else's pending row goes with this commit. */
  lemma CommitInserters(s: System, t: int)
    requires Safe(s) && t in s.txs && s.txs[t].Inserted?
    ensures var after := CommitStep(s, t, s.txs[t].req, s.txs[t].id);
            && (forall id | id in after.uncommitted :: exists u | u in after.txs :: after.txs[u].Inserted? && after.txs[u].id == id)
            && (forall u | u in after.txs && after.txs[u].Inserted? ::
                  u != t && after.txs[u] == s.txs[u] && after.txs[u].id in after.uncommitted)
  {
    var after := CommitStep(s, t, s.txs[t].req, s.txs[t].id);
    forall id | id in after.uncommitted
      ensures exists u | u in after.txs :: after.txs[u].Inserted? && after.txs[u].id == id
    {
      var u :| u in s.txs && s.txs[u].Inserted? && s.txs[u].id == id;
      assert u != t && after.txs[u] == s.txs[u];
    }
    forall u | u in after.txs && after.txs[u].Inserted?
      ensures after.txs[u].id in after.uncommitted
    {
      assert u in s.txs && s.txs[u] == after.txs[u] && u != t;
      assert s.locks[s.txs[u].req.seatId] == u && s.locks[s.txs[t].req.seatId] == t;
    }
  }

  lemma CommitSafe(s: System, t: int)
    requires Safe(s) && t in s.txs && s.txs[t].Inserted?
    ensures Safe(CommitStep(s, t, s.txs[t].req, s.txs[t].id))
  {
    assert AllRows(CommitStep(s, t, s.txs[t].req, s.txs[t].id)) == AllRows(s);
    CommitInserters(s, t);
  }

  lemma CheckSafe(s: System, t: int)
    requires Safe(s) && t in s.txs && s.txs[t].Locked?
    ensures Safe(Apply(s, Check(t), false))
  {
    var req := s.txs[t].req;
    if Taken(s.rows, req.screeningId, req.seatId) {
      RollbackSafe(s, t, SeatTaken);
    } else {
      var after := Apply(s, Check(t), false);
      forall id | id in AllRows(s) && AllRows(s)[id].Active()
        ensures !(AllRows(s)[id].screeningId == req.screeningId && AllRows(s)[id].seatId == req.seatId)
      {
        if id in s.uncommitted {
          var u :| u in s.txs && s.txs[u].Inserted? && s.txs[u].id == id;
          assert s.locks[s.txs[u].req.seatId] == u;
        }
      }
      forall id | id in after.uncommitted
        ensures exists u | u in after.txs :: after.txs[u].Inserted? && after.txs[u].id == id
      {
        var u :| u in s.txs && s.txs[u].Inserted? && s.txs[u].id == id;
        assert after.txs[u] == s.txs[u];
      }
    }
  }

  /** Committed rows may be cancelled, or changed without moving between active and inactive. */
  lemma UpdateSafe(s: System, rows: Reservations)
    requires Safe(s) && rows.Keys == s.rows.Keys
    requires forall id | id in rows :: rows[id].SameSeat(s.rows[id]) && (rows[id].Active() ==> s.rows[id].Active())
    ensures Safe(s.(rows := rows))
  {
    var after := s.(rows := rows);
    forall id | id in AllRows(after)
      ensures id in AllRows(s) && AllRows(after)[id].SameSeat(AllRows(s)[id])
      ensures AllRows(after)[id].Active() ==> AllRows(s)[id].Active()
    {
    }
  }

  /** One step keeps the protocol safe with no index at all, and the index would not have changed it. */
  lemma StepSafe(s: System, step: Step)
    requires Safe(s) && MeetsHeld(s, step)
    ensures Safe(Apply(s, step, false)) && Apply(s, step, true) == Apply(s, step, false)
  {
    if step.Sweep? || step.Release? || step.ExtendHold? || step.Confirm? {
      RowStepSafe(s, step);
    } else {
      TransactionStepSafe(s, step);
    }
  }

  lemma TransactionStepSafe(s: System, step: Step)
    requires Safe(s) && !step.Sweep? && !step.Release? && !step.ExtendHold? && !step.Confirm?
    ensures Safe(Apply(s, step, false)) && Apply(s, step, true) == Apply(s, step, false)
  {
    match step
    case Begin(t, req) => BeginSafe(s, t, req);
    case Lock(t) => LockSafe(s, t);
    case Check(t) => if t in s.txs && s.txs[t].Locked? { CheckSafe(s, t); }
    case Insert(t, now) => if t in s.txs && s.txs[t].Checked? { InsertSafe(s, t, now); }
    case Commit(t) => if t in s.txs && s.txs[t].Inserted? { CommitSafe(s, t); }
    case Fail(t, fault) => if t in s.txs && !s.txs[t].Finished() { RollbackSafe(s, t, FaultError(fault)); }
  }

  lemma RowStepSafe(s: System, step: Step)
    requires Safe(s) && MeetsHeld(s, step) && (step.Sweep? || step.Release? || step.ExtendHold? || step.Confirm?)
    ensures Safe(Apply(s, step, false)) && Apply(s, step, true) == Apply(s, step, false)
  {
    match step
    case Sweep(now) => UpdateSafe(s, Swept(s.rows, now));
    case Release(id) => if id in s.rows { RowSafe(s, id, s.rows[id].(status := Cancelled)); }
    case ExtendHold(id, until) => if id in s.rows { RowSafe(s, id, s.rows[id].(heldUntil := Some(until))); }
    case Confirm(id) => if id in s.rows { ConfirmSafe(s, id); }
  }

  lemma RowSafe(s: System, id: int, row: Reservation)
    requires Safe(s) && id in s.rows && row.SameSeat(s.rows[id]) && (row.Active() ==> s.rows[id].Active())
    ensures Safe(s.(rows := s.rows[id := row]))
  {
    UpdateSafe(s, s.rows[id := row]);
  }

  lemma BeginSafe(s: System, t: int, req: Request)
    requires Safe(s)
    ensures Safe(Apply(s, Begin(t, req), false))
  {
    KeepInserters(s, Apply(s, Begin(t, req), false));
  }

  lemma LockSafe(s: System, t: int)
    requires Safe(s)
    ensures Safe(Apply(s, Lock(t), false))
  {
    if t in s.txs && s.txs[t].Started? {
      var req := s.txs[t].req;
      if !(req.seatId in s.hallOf && s.hallOf[req.seatId] == req.hallId) {
        RollbackSafe(s, t, SeatNotInHall);
      } else {
        KeepInserters(s, Apply(s, Lock(t), false));
      }
    }
  }

  /** A change that leaves every inserting transaction alone leaves every pending row owned. */
  lemma KeepInserters(s: System, after: System)
    requires Locking(s) && after.uncommitted == s.uncommitted
    requires forall t | t in s.txs && s.txs[t].Inserted? :: t in after.txs && after.txs[t] == s.txs[t]
    ensures forall id | id in after.uncommitted ::
              exists t | t in after.txs :: after.txs[t].Inserted? && after.txs[t].id == id
  {
  }

  lemma ConfirmSafe(s: System, id: int)
    requires Safe(s) && id in s.rows && s.rows[id].status == Held
    ensures Safe(ConfirmStep(s, id, false)) && ConfirmStep(s, id, true) == ConfirmStep(s, id, false)
  {
    assert AllRows(s)[id] == s.rows[id];
    UpdateSafe(s, s.rows[id := ConfirmedRow(s.rows[id])]);
  }

  /** Lock and check alone: in any interleaving whose confirms meet HELD rows, no seat is booked twice
      and the index is never consulted in vain, so the P2002 branch is dead. */
  lemma {:induction false} LockAndCheckSuffice(s: System, steps: seq<Step>)
    requires Safe(s) && ConfirmsMeetHeld(s, steps)
    ensures Safe(Run(s, steps, false))
    ensures Run(s, steps, true) == Run(s, steps, false)
    decreases |steps|
  {
    if steps != [] {
      StepSafe(s, steps[0]);
      LockAndCheckSuffice(Apply(s, steps[0], false), steps[1..]);
    }
  }

  /** What the index alone keeps: no assumption about who confirms what, or when. */
  ghost predicate Guarded(s: System) {
    Ids(s) && UniqueActive(AllRows(s))
  }

  lemma GuardedUpdate(s: System, rows: Reservations)
    requires Guarded(s) && rows.Keys == s.rows.Keys
    requires forall id | id in rows :: rows[id].SameSeat(s.rows[id]) && (rows[id].Active() ==> s.rows[id].Active())
    ensures Guarded(s.(rows := rows))
  {
  }

  lemma GuardedInsert(s: System, t: int, req: Request, now: int)
    requires Guarded(s) && t in s.txs
    ensures Guarded(InsertStep(s, t, req, now, true))
  {
    var row := NewRow(req, now);
    var after := InsertStep(s, t, req, now, true);
    if IndexAllows(s.rows, s.nextId, row) && IndexAllows(s.uncommitted, s.nextId, row) {
      assert AllRows(after) == AllRows(s)[s.nextId := row];
      GuardedWriteKeepsUnique(AllRows(s), s.nextId, row);
    } else if !IndexAllows(s.rows, s.nextId, row) {
      GuardedRollback(s, t, SeatTaken);
    }
  }

  lemma GuardedRollback(s: System, t: int, why: Refusal)
    requires Guarded(s) && t in s.txs
    ensures Guarded(Rollback(s, t, why))
  {
  }

  lemma GuardedCommit(s: System, t: int, req: Request, id: int)
    requires Guarded(s)
    ensures Guarded(CommitStep(s, t, req, id))
  {
  }

  lemma GuardedConfirm(s: System, id: int)
    requires Guarded(s)
    ensures Guarded(ConfirmStep(s, id, true))
  {
  }

  lemma GuardedStep(s: System, step: Step)
    requires Guarded(s)
    ensures Guarded(Apply(s, step, true))
  {
    match step
    case Begin(t, req) =>
    case Lock(t) => if t in s.txs { GuardedRollback(s, t, SeatNotInHall); }
    case Check(t) => if t in s.txs { GuardedRollback(s, t, SeatTaken); }
    case Insert(t, now) => if t in s.txs && s.txs[t].Checked? { GuardedInsert(s, t, s.txs[t].req, now); }
    case Commit(t) => if t in s.txs && s.txs[t].Inserted? { GuardedCommit(s, t, s.txs[t].req, s.txs[t].id); }
    case Fail(t, fault) => if t in s.txs { GuardedRollback(s, t, FaultError(fault)); }
    case Sweep(now) => GuardedUpdate(s, Swept(s.rows, now));
    case Release(id) => if id in s.rows { GuardedUpdate(s, s.rows[id := s.rows[id].(status := Cancelled)]); }
    case ExtendHold(id, until) =>
      if id in s.rows { GuardedUpdate(s, s.rows[id := s.rows[id].(heldUntil := Some(until))]); }
    case Confirm(id) => GuardedConfirm(s, id);
  }

  /** With the index in place uniqueness holds over every run, late confirms of CANCELLED rows included. */
  lemma {:induction false} IndexSuffices(s: System, steps: seq<Step>)
    requires Guarded(s)
    ensures Guarded(Run(s, steps, true))
    decreases |steps|
  {
    if steps != [] {
      GuardedStep(s, steps[0]);
      IndexSuffices(Apply(s, steps[0], true), steps[1..]);
    }
  }

  /** Without the index a confirm is harmless exactly when its row is active or its seat is free. */
  lemma ConfirmNeedsIndexIff(s: System, id: int)
    requires Guarded(s) && id in s.rows
    ensures UniqueActive(AllRows(ConfirmStep(s, id, false))) <==>
            s.rows[id].Active() || !Taken(AllRows(s), s.rows[id].screeningId, s.rows[id].seatId)
  {
    var row := s.rows[id];
    assert AllRows(s)[id] == row;
    assert AllRows(ConfirmStep(s, id, false)) == AllRows(s)[id := ConfirmedRow(row)];
    WriteKeepsUniqueIff(AllRows(s), id, ConfirmedRow(row));
    if row.Active() {
      assert IndexAllows(AllRows(s), id, ConfirmedRow(row));
    }
  }

  /** A duplicate that the index does catch is answered like a taken seat. */
  lemma IndexAnswersTaken(s: System, t: int, now: int)
    requires Ids(s) && t in s.txs && s.txs[t].Checked? && Taken(s.rows, s.txs[t].req.screeningId, s.txs[t].req.seatId)
    ensures var after := Apply(s, Insert(t, now), true);
            after.rows == s.rows && after.uncommitted == s.uncommitted && after.txs == s.txs[t := Lost(s.txs[t].req, SeatTaken)]
  {
  }

  lemma {:induction false} RunConcat(s: System, a: seq<Step>, b: seq<Step>, indexed: bool)
    ensures Run(s, a + b, indexed) == Run(Run(s, a, indexed), b, indexed)
    decreases |a|
  {
    if a == [] {
      assert a + b == b;
    } else {
      assert (a + b)[0] == a[0] && (a + b)[1..] == a[1..] + b;
      RunConcat(Apply(s, a[0], indexed), a[1..], b, indexed);
    }
  }

  predicate InHall(s: System, req: Request) {
    req.seatId in s.hallOf && s.hallOf[req.seatId] == req.hallId
  }

  /** One transaction run without interleaving. */
  function Solo(t: int, req: Request, now: int): seq<Step> {
    [Begin(t, req), Lock(t), Check(t), Insert(t, now), Commit(t)]
  }

  lemma RunFive(s: System, q: seq<Step>, indexed: bool)
    requires |q| == 5
    ensures Run(s, q, indexed) ==
            Apply(Apply(Apply(Apply(Apply(s, q[0], indexed), q[1], indexed), q[2], indexed), q[3], indexed), q[4], indexed)
  {
    assert q[1..][1..] == q[2..] && q[2..][1..] == q[3..] && q[3..][1..] == q[4..] && q[4..][1..] == [];
    var s1 := Apply(s, q[0], indexed);
    var s2 := Apply(s1, q[1], indexed);
    var s3 := Apply(s2, q[2], indexed);
    var s4 := Apply(s3, q[3], indexed);
    assert Run(s4, q[4..], indexed) == Apply(s4, q[4], indexed);
    assert Run(s2, q[2..], indexed) == Run(s3, q[3..], indexed);
  }

  /** A transaction alone on a free seat of its hall gets as far as its insert. */
  lemma SoloChecks(s: System, t: int, req: Request)
    requires t !in s.txs && req.seatId !in s.locks
    requires InHall(s, req) && !Taken(s.rows, req.screeningId, req.seatId)
    ensures Apply(Apply(Apply(s, Begin(t, req), false), Lock(t), false), Check(t), false) ==
            s.(locks := s.locks[req.seatId := t], txs := s.txs[t := Checked(req)])
  {
  }

  /** The insert and the commit, back to back: the row moves to the table and the lock is freed. */
  lemma InsertThenCommit(s: System, t: int, req: Request, now: int)
    requires Ids(s) && t in s.txs && s.txs[t] == Checked(req)
    ensures Apply(Apply(s, Insert(t, now), false), Commit(t), false) ==
            s.(rows := s.rows[s.nextId := NewRow(req, now)], txs := s.txs[t := Won(req, s.nextId)],
               nextId := s.nextId + 1, locks := s.locks - {req.seatId})
  {
  }

  lemma SoloSteps(s: System, t: int, req: Request, now: int)
    requires t !in s.txs && req.seatId !in s.locks
    requires InHall(s, req) && !Taken(s.rows, req.screeningId, req.seatId)
    ensures var checked := s.(locks := s.locks[req.seatId := t], txs := s.txs[t := Checked(req)]);
            Run(s, Solo(t, req, now), false) == Apply(Apply(checked, Insert(t, now), false), Commit(t), false)
  {
    RunFive(s, Solo(t, req, now), false);
    SoloChecks(s, t, req);
  }

  /** Alone on a free seat of its hall, holdSeat commits exactly one new HELD row and frees its lock. */
  lemma SoloWins(s: System, t: int, req: Request, now: int)
    requires Ids(s) && t !in s.txs && req.seatId !in s.locks
    requires InHall(s, req) && !Taken(s.rows, req.screeningId, req.seatId)
    ensures Run(s, Solo(t, req, now), false) ==
            s.(rows := s.rows[s.nextId := NewRow(req, now)], txs := s.txs[t := Won(req, s.nextId)], nextId := s.nextId + 1)
  {
    SoloSteps(s, t, req, now);
    InsertThenCommit(s.(locks := s.locks[req.seatId := t], txs := s.txs[t := Checked(req)]), t, req, now);
    assert s.locks[req.seatId := t] - {req.seatId} == s.locks;
    assert s.txs[t := Checked(req)][t := Won(req, s.nextId)] == s.txs[t := Won(req, s.nextId)];
  }

  /** Alone, holdSeat answers 400 for a seat of another hall and 409 for a taken one, and leaves no trace. */
  lemma SoloLoses(s: System, t: int, req: Request, now: int)
    requires t !in s.txs && req.seatId !in s.locks
    requires !InHall(s, req) || Taken(s.rows, req.screeningId, req.seatId)
    ensures Run(s, Solo(t, req, now), false) ==
            s.(txs := s.txs[t := Lost(req, if InHall(s, req) then SeatTaken else SeatNotInHall)])
  {
    RunFive(s, Solo(t, req, now), false);
    var s1 := s.(txs := s.txs[t := Started(req)]);
    assert Apply(s, Begin(t, req), false) == s1;
    var s2 := Apply(s1, Lock(t), false);
    if InHall(s, req) {
      assert s2 == s.(locks := s.locks[req.seatId := t], txs := s.txs[t := Locked(req)]);
      var s3 := Apply(s2, Check(t), false);
      assert s3.locks == s.locks && s3.txs == s.txs[t := Lost(req, SeatTaken)];
    } else {
      assert s2.txs == s.txs[t := Lost(req, SeatNotInHall)];
    }
  }

  // ---- Exactly one winner ----

  datatype Pair = Pair(screeningId: int, seatId: int)

  predicate For(req: Request, pair: Pair) {
    req.screeningId == pair.screeningId && req.seatId == pair.seatId
  }

  predicate Covers(row: Reservation, pair: Pair) {
    row.screeningId == pair.screeningId && row.seatId == pair.seatId
  }

  /** The step releases no active row of the pair and fails none of its attempts; the rest of the system may
      be swept, cancelled and disturbed at will. */
  predicate QuietStep(s: System, step: Step, pair: Pair) {
    match step
    case Fail(t, fault) => t in s.txs ==> !For(s.txs[t].req, pair)
    case Sweep(now) => forall id | id in s.rows && Covers(s.rows[id], pair) :: !Expired(s.rows[id], now)
    case Release(id) => id in s.rows && Covers(s.rows[id], pair) ==> !s.rows[id].Active()
    case _ => true
  }

  predicate Quiet(s: System, steps: seq<Step>, pair: Pair)
    decreases |steps|
  {
    steps == [] || (QuietStep(s, steps[0], pair) && Quiet(Apply(s, steps[0], false), steps[1..], pair))
  }

  /** Transaction `t` is a well-addressed attempt on the pair. */
  predicate Attempt(s: System, t: int, pair: Pair) {
    t in s.txs && For(s.txs[t].req, pair) && InHall(s, s.txs[t].req)
  }

  predicate Matches(row: Reservation, req: Request) {
    row.Active() && row.screeningId == req.screeningId && row.seatId == req.seatId
  }

  /** On this pair, every winner has its own new row, and every new row its winner. */
  ghost predicate Winners(before: Reservations, s: System, pair: Pair) {
    && (forall t | t in s.txs && s.txs[t].Won? && For(s.txs[t].req, pair) ::
          s.txs[t].id in s.rows && s.txs[t].id !in before && Matches(s.rows[s.txs[t].id], s.txs[t].req))
    && (forall t, u | t in s.txs && u in s.txs && t != u && s.txs[t].Won? && s.txs[u].Won?
          && For(s.txs[t].req, pair) && For(s.txs[u].req, pair) :: s.txs[t].id != s.txs[u].id)
    && (forall id | id in s.rows && id !in before && Covers(s.rows[id], pair) :: HasWinner(s, id, pair))
  }

  /** Every loser was told the truth, and every insert stands. */
  ghost predicate Losers(s: System, pair: Pair) {
    && (forall t | t in s.txs && s.txs[t].Inserted? ::
          s.txs[t].id in s.uncommitted && Matches(s.uncommitted[s.txs[t].id], s.txs[t].req))
    && (forall t | t in s.txs && s.txs[t].Lost? && For(s.txs[t].req, pair) ::
          if s.txs[t].why == SeatTaken then Taken(s.rows, pair.screeningId, pair.seatId) else !InHall(s, s.txs[t].req))
  }

  /** The old rows of the pair are as active as they were. */
  ghost predicate Unmoved(before: Reservations, s: System, pair: Pair) {
    && (forall id | id in before :: id < s.nextId && id !in s.uncommitted && id in s.rows && s.rows[id].SameSeat(before[id]))
    && (forall id | id in before && Covers(before[id], pair) :: s.rows[id].Active() <==> before[id].Active())
  }

  ghost predicate Accounted(before: Reservations, s: System, pair: Pair) {
    Winners(before, s, pair) && Losers(s, pair) && Unmoved(before, s, pair)
  }

  ghost predicate HasWinner(s: System, id: int, pair: Pair) {
    exists t | t in s.txs :: s.txs[t].Won? && s.txs[t].id == id && For(s.txs[t].req, pair)
  }

  /** Rows change in place, those of the pair without moving between active and inactive. */
  lemma AccountedUpdate(before: Reservations, s: System, rows: Reservations, pair: Pair)
    requires Accounted(before, s, pair) && rows.Keys == s.rows.Keys
    requires forall id | id in rows :: rows[id].SameSeat(s.rows[id])
    requires forall id | id in rows && Covers(rows[id], pair) :: rows[id].Active() <==> s.rows[id].Active()
    ensures Accounted(before, s.(rows := rows), pair)
  {
    var after := s.(rows := rows);
    if Taken(s.rows, pair.screeningId, pair.seatId) {
      var id :| id in s.rows && s.rows[id].Active() && s.rows[id].screeningId == pair.screeningId && s.rows[id].seatId == pair.seatId;
      assert rows[id].SameSeat(s.rows[id]) && Covers(rows[id], pair);
    }
    forall id | id in rows && id !in before && Covers(rows[id], pair) ensures HasWinner(after, id, pair) {
      assert HasWinner(s, id, pair);
    }
  }

  /** A transaction moves to a phase that is neither Won nor Inserted, perhaps losing its pending row. */
  lemma AccountedMove(before: Reservations, s: System, after: System, t: int, pair: Pair)
    requires Safe(s) && Accounted(before, s, pair)
    requires after.rows == s.rows && after.hallOf == s.hallOf && after.nextId == s.nextId
    requires t in after.txs && after.txs == s.txs[t := after.txs[t]]
    requires t in s.txs ==> !s.txs[t].Won?
    requires after.uncommitted == if t in s.txs && s.txs[t].Inserted? then s.uncommitted - {s.txs[t].id} else s.uncommitted
    requires !after.txs[t].Won? && !after.txs[t].Inserted?
    requires after.txs[t].Lost? && For(after.txs[t].req, pair) ==>
               if after.txs[t].why == SeatTaken then Taken(s.rows, pair.screeningId, pair.seatId) else !InHall(s, after.txs[t].req)
    ensures Accounted(before, after, pair)
  {
    WinnersStay(before, s, after, t, pair);
    forall u | u in after.txs && after.txs[u].Inserted? ensures after.txs[u].id in after.uncommitted {
      assert u != t && after.txs[u] == s.txs[u];
      if t in s.txs && s.txs[t].Inserted? {
        assert s.locks[s.txs[u].req.seatId] == u && s.locks[s.txs[t].req.seatId] == t;
      }
    }
  }

  /** The other transactions and the rows are as they were. */
  lemma WinnersStay(before: Reservations, s: System, after: System, t: int, pair: Pair)
    requires Accounted(before, s, pair) && after.rows == s.rows
    requires t in after.txs && after.txs == s.txs[t := after.txs[t]] && (t in s.txs ==> !s.txs[t].Won?)
    ensures forall id | id in after.rows && id !in before && Covers(after.rows[id], pair) :: HasWinner(after, id, pair)
  {
    forall id | id in after.rows && id !in before && Covers(after.rows[id], pair) ensures HasWinner(after, id, pair) {
      assert HasWinner(s, id, pair);
      var u :| u in s.txs && s.txs[u].Won? && s.txs[u].id == id && For(s.txs[u].req, pair);
      assert after.txs[u] == s.txs[u];
    }
  }

  lemma AccountedInsert(before: Reservations, s: System, t: int, now: int, pair: Pair)
    requires Safe(s) && Accounted(before, s, pair) && t in s.txs && s.txs[t].Checked?
    ensures Accounted(before, InsertStep(s, t, s.txs[t].req, now, false), pair)
  {
    var after := InsertStep(s, t, s.txs[t].req, now, false);
    assert after.rows == s.rows && s.nextId !in s.rows && s.nextId !in s.uncommitted;
    forall u | u in s.txs && u != t ensures after.txs[u] == s.txs[u] {}
    WinnersStay(before, s, after, t, pair);
  }

  lemma TakenTransfers(rows: Reservations, more: Reservations, screeningId: int, seatId: int)
    requires Taken(rows, screeningId, seatId)
    requires forall id | id in rows :: id in more && more[id].SameSeat(rows[id]) && (rows[id].Active() ==> more[id].Active())
    ensures Taken(more, screeningId, seatId)
  {
  }

  lemma CommitHasWinner(before: Reservations, s: System, t: int, pair: Pair)
    requires Safe(s) && Winners(before, s, pair) && t in s.txs && s.txs[t].Inserted? && Losers(s, pair)
    ensures var after := CommitStep(s, t, s.txs[t].req, s.txs[t].id);
            forall j | j in after.rows && j !in before && Covers(after.rows[j], pair) :: HasWinner(after, j, pair)
  {
    var id := s.txs[t].id;
    var after := CommitStep(s, t, s.txs[t].req, id);
    forall j | j in after.rows && j !in before && Covers(after.rows[j], pair) ensures HasWinner(after, j, pair) {
      if j == id {
        assert after.txs[t].Won? && For(after.txs[t].req, pair);
      } else {
        assert HasWinner(s, j, pair);
        var u :| u in s.txs && s.txs[u].Won? && s.txs[u].id == j && For(s.txs[u].req, pair);
        assert after.txs[u] == s.txs[u];
      }
    }
  }

  lemma CommitWinners(before: Reservations, s: System, t: int, pair: Pair)
    requires Safe(s) && Accounted(before, s, pair) && t in s.txs && s.txs[t].Inserted?
    ensures Winners(before, CommitStep(s, t, s.txs[t].req, s.txs[t].id), pair)
  {
    CommitHasWinner(before, s, t, pair);
    assert s.txs[t].id !in s.rows && s.txs[t].id !in before;
  }

  lemma CommitLosers(s: System, t: int, pair: Pair)
    requires Safe(s) && Losers(s, pair) && t in s.txs && s.txs[t].Inserted?
    ensures Losers(CommitStep(s, t, s.txs[t].req, s.txs[t].id), pair)
  {
    CommitInserters(s, t);
    if Taken(s.rows, pair.screeningId, pair.seatId) {
      TakenTransfers(s.rows, CommitStep(s, t, s.txs[t].req, s.txs[t].id).rows, pair.screeningId, pair.seatId);
    }
  }

  lemma CommitUnmoved(before: Reservations, s: System, t: int, pair: Pair)
    requires Losers(s, pair) && Unmoved(before, s, pair) && t in s.txs && s.txs[t].Inserted?
    ensures Unmoved(before, CommitStep(s, t, s.txs[t].req, s.txs[t].id), pair)
  {
  }

  lemma AccountedCommit(before: Reservations, s: System, t: int, pair: Pair)
    requires Safe(s) && Accounted(before, s, pair) && t in s.txs && s.txs[t].Inserted?
    ensures Accounted(before, CommitStep(s, t, s.txs[t].req, s.txs[t].id), pair)
  {
    CommitWinners(before, s, t, pair);
    CommitLosers(s, t, pair);
    CommitUnmoved(before, s, t, pair);
  }

  /** Before the insert, and in a rollback, a transaction only moves by itself. */
  lemma AccountedPhase(before: Reservations, s: System, step: Step, pair: Pair)
    requires Safe(s) && Accounted(before, s, pair) && QuietStep(s, step, pair)
    requires step.Begin? || step.Lock? || step.Check? || step.Fail?
    ensures Accounted(before, Apply(s, step, false), pair)
  {
    var after := Apply(s, step, false);
    if after != s {
      AccountedMove(before, s, after, step.tx, pair);
    }
  }

  lemma AccountedStep(before: Reservations, s: System, step: Step, pair: Pair)
    requires Safe(s) && Accounted(before, s, pair) && QuietStep(s, step, pair) && MeetsHeld(s, step)
    ensures Accounted(before, Apply(s, step, false), pair)
  {
    match step
    case Insert(t, now) => if t in s.txs && s.txs[t].Checked? { AccountedInsert(before, s, t, now, pair); }
    case Commit(t) => if t in s.txs && s.txs[t].Inserted? { AccountedCommit(before, s, t, pair); }
    case Sweep(now) => AccountedUpdate(before, s, Swept(s.rows, now), pair);
    case Release(id) => if id in s.rows { AccountedUpdate(before, s, s.rows[id := s.rows[id].(status := Cancelled)], pair); }
    case ExtendHold(id, until) =>
      if id in s.rows { AccountedUpdate(before, s, s.rows[id := s.rows[id].(heldUntil := Some(until))], pair); }
    case Confirm(id) =>
      if id in s.rows { AccountedUpdate(before, s, s.rows[id := ConfirmedRow(s.rows[id])], pair); }
    case _ => AccountedPhase(before, s, step, pair);
  }

  lemma {:induction false} AccountedRun(before: Reservations, s: System, steps: seq<Step>, pair: Pair)
    requires Safe(s) && Accounted(before, s, pair) && ConfirmsMeetHeld(s, steps) && Quiet(s, steps, pair)
    ensures Safe(Run(s, steps, false)) && Accounted(before, Run(s, steps, false), pair)
    decreases |steps|
  {
    if steps != [] {
      StepSafe(s, steps[0]);
      AccountedStep(before, s, steps[0], pair);
      AccountedRun(before, Apply(s, steps[0], false), steps[1..], pair);
    }
  }

  /** Where every outcome is accounted for and every attempt on a seat that was free has finished, exactly one has won. */
  lemma OneWinner(before: Reservations, end: System, pair: Pair, some: int)
    requires Safe(end) && Accounted(before, end, pair) && PastLockInHall(end) && !Taken(before, pair.screeningId, pair.seatId)
    requires Attempt(end, some, pair)
    requires forall t | Attempt(end, t, pair) :: end.txs[t].Finished()
    ensures exists w | Attempt(end, w, pair) ::
              end.txs[w].Won? && forall t | Attempt(end, t, pair) && t != w :: end.txs[t].Lost? && end.txs[t].why == SeatTaken
  {
    if end.txs[some].Lost? {
      assert Taken(end.rows, pair.screeningId, pair.seatId);
    } else {
      assert Matches(end.rows[end.txs[some].id], end.txs[some].req);
    }
    var id :| id in end.rows && end.rows[id].screeningId == pair.screeningId && end.rows[id].seatId == pair.seatId && end.rows[id].Active();
    assert id !in before;
    assert HasWinner(end, id, pair);
    var w :| w in end.txs && end.txs[w].Won? && end.txs[w].id == id && For(end.txs[w].req, pair);
    assert Attempt(end, w, pair);
    forall t | Attempt(end, t, pair) && t != w
      ensures end.txs[t].Lost? && end.txs[t].why == SeatTaken
    {
      assert forall j | j in end.rows :: AllRows(end)[j] == end.rows[j];
    }
  }

  /** However transactions interleave, and whatever happens to other seats, once every attempt on a free seat
      has finished exactly one has won, and every other one was told the seat is taken. */
  lemma ExactlyOneWinner(s: System, steps: seq<Step>, pair: Pair, some: int)
    requires Safe(s) && s.txs == map[] && !Taken(s.rows, pair.screeningId, pair.seatId)
    requires Quiet(s, steps, pair) && ConfirmsMeetHeld(s, steps)
    requires var end := Run(s, steps, false);
             Attempt(end, some, pair) && forall t | Attempt(end, t, pair) :: end.txs[t].Finished()
    ensures var end := Run(s, steps, false);
            exists w | Attempt(end, w, pair) ::
              end.txs[w].Won? && forall t | Attempt(end, t, pair) && t != w :: end.txs[t].Lost? && end.txs[t].why == SeatTaken
  {
    AccountedRun(s.rows, s, steps, pair);
    HallRun(s, steps);
    OneWinner(s.rows, Run(s, steps, false), pair, some);
  }

  /** Only a transaction that found its seat in its hall gets past the lock. */
  ghost predicate PastLockInHall(s: System) {
    forall t | t in s.txs && !s.txs[t].Started? && !s.txs[t].Lost? :: InHall(s, s.txs[t].req)
  }

  lemma HallStep(s: System, step: Step)
    ensures Apply(s, step, false).hallOf == s.hallOf
    ensures PastLockInHall(s) ==> PastLockInHall(Apply(s, step, false))
  {
  }

  lemma {:induction false} HallRun(s: System, steps: seq<Step>)
    requires PastLockInHall(s)
    ensures PastLockInHall(Run(s, steps, false))
    decreases |steps|
  {
    if steps != [] {
      HallStep(s, steps[0]);
      HallRun(Apply(s, steps[0], false), steps[1..]);
    }
  }

  /** A hold expires and is swept, and the seat is held again. */
  function HeldAgain(first: Request, second: Request): seq<Step> {
    (Solo(1, first, 0) + [Sweep(600001)]) + Solo(2, second, 600002)
  }

  /** The first hold wins its seat, and the sweep takes it away again. */
  lemma HeldThenSwept(s: System, req: Request)
    requires Ids(s) && s.rows == map[] && s.txs == map[] && s.locks == map[] && InHall(s, req) && req.heldUntil < 600001
    ensures Run(s, Solo(1, req, 0) + [Sweep(600001)], false) ==
            s.(rows := map[s.nextId := Released(NewRow(req, 0))], txs := map[1 := Won(req, s.nextId)], nextId := s.nextId + 1)
  {
    RunConcat(s, Solo(1, req, 0), [Sweep(600001)], false);
    SoloWins(s, 1, req, 0);
    var held := Run(s, Solo(1, req, 0), false);
    assert held.rows == map[s.nextId := NewRow(req, 0)] && held.txs == map[1 := Won(req, s.nextId)];
    assert Run(held, [Sweep(600001)], false) == held.(rows := Swept(held.rows, 600001));
    assert Swept(held.rows, 600001) == map[s.nextId := Released(NewRow(req, 0))];
  }

  lemma HeldAgainRows(s: System, first: Request, second: Request)
    requires s == System(map[], map[], map[], map[], map[7 := 1], 0)
    requires first == Request(10, 5, 1, 7, 600000) && second == Request(11, 5, 1, 7, 1200002)
    ensures Run(s, HeldAgain(first, second), false).rows ==
            map[0 := Released(NewRow(first, 0)), 1 := NewRow(second, 600002)]
  {
    RunConcat(s, Solo(1, first, 0) + [Sweep(600001)], Solo(2, second, 600002), false);
    HeldThenSwept(s, first);
    SoloWins(Run(s, Solo(1, first, 0) + [Sweep(600001)], false), 2, second, 600002);
  }

  /** The late confirm that the index refuses: without it one seat carries two active rows. */
  lemma LateConfirmDoubleBooks(s: System, first: Request, second: Request)
    requires s == System(map[], map[], map[], map[], map[7 := 1], 0)
    requires first == Request(10, 5, 1, 7, 600000) && second == Request(11, 5, 1, 7, 1200002)
    ensures Safe(s) && !UniqueActive(ConfirmStep(Run(s, HeldAgain(first, second), false), 0, false).rows)
  {
    HeldAgainRows(s, first, second);
    var after := ConfirmStep(Run(s, HeldAgain(first, second), false), 0, false);
    assert after.rows[0].SameSeat(after.rows[1]) && after.rows[0].Active() && after.rows[1].Active();
  }
}
