/** The reservation repository. */
module ReservationStore {
  import opened Tables
  import opened HoldTransactions

  datatype HoldResult = Created(id: int, row: Reservation) | Refused(why: Refusal)

  /** One row returned by the sweep's UPDATE ... RETURNING. */
  datatype ExpiredHold = ExpiredHold(id: int, userId: int, screeningId: int, seatId: int)

  /** `released` lists exactly the expired rows of `rows`, each once. */
  ghost predicate Lists(released: seq<ExpiredHold>, rows: Reservations, now: int) {
    && (forall i, j | 0 <= i < j < |released| :: released[i].id != released[j].id)
    && (forall i | 0 <= i < |released| ::
          var h := released[i];
          h.id in rows && Expired(rows[h.id], now)
          && rows[h.id].userId == h.userId && rows[h.id].screeningId == h.screeningId && rows[h.id].seatId == h.seatId)
    && (forall id | id in rows && Expired(rows[id], now) :: exists i | 0 <= i < |released| :: released[i].id == id)
  }

  /** The table between transactions. */
  function Idle(rows: Reservations, hallOf: map<int, int>, nextId: int): System {
    System(rows, map[], map[], map[], hallOf, nextId)
  }

  class ReservationsRepository {
    var rows: Reservations
    var hallOf: map<int, int>
    var nextId: int

    ghost predicate Valid()
      reads this
    {
      UniqueActive(rows) && forall id | id in rows :: id < nextId
    }

    constructor (hallOf: map<int, int>)
      ensures Valid() && rows == map[] && this.hallOf == hallOf
    {
      rows, nextId := map[], 0;
      this.hallOf := hallOf;
    }

    /** `faults` says which of the three queries the database fails, and how. */
    method HoldSeat(req: Request, now: int, faults: map<int, Fault>) returns (r: HoldResult)
      requires Valid()
      modifies this`rows, this`nextId
      ensures Valid()
      ensures r.Created? ==> rows == old(rows)[r.id := r.row] && r.id !in old(rows) && r.row == NewRow(req, now)
      ensures r.Refused? ==> rows == old(rows) && nextId == old(nextId)
      ensures var inHall := req.seatId in hallOf && hallOf[req.seatId] == req.hallId;
              var taken := Taken(old(rows), req.screeningId, req.seatId);
              r == if 1 in faults then Refused(if faults[1].HeavyLoad? then ServiceUnavailable else InternalError)
                   else if !inHall then Refused(SeatNotInHall)
                   else if 2 in faults then Refused(if faults[2].HeavyLoad? then ServiceUnavailable else InternalError)
                   else if taken then Refused(SeatTaken)
                   else if 3 in faults then Refused(if faults[3].HeavyLoad? then ServiceUnavailable else InternalError)
                   else Created(old(nextId), NewRow(req, now))
      ensures faults == map[] ==> rows == Run(Idle(old(rows), hallOf, old(nextId)), Solo(0, req, now), false).rows
    {
      ghost var alone := Idle(rows, hallOf, nextId);
      if InHall(alone, req) && !Taken(rows, req.screeningId, req.seatId) {
        SoloWins(alone, 0, req, now);
      } else {
        SoloLoses(alone, 0, req, now);
      }
      if 1 in faults {
        return Refused(FaultError(faults[1]));
      }
      if !(req.seatId in hallOf && hallOf[req.seatId] == req.hallId) {
        return Refused(SeatNotInHall);
      }
      if 2 in faults {
        return Refused(FaultError(faults[2]));
      }
      if Taken(rows, req.screeningId, req.seatId) {
        return Refused(SeatTaken);
      }
      if 3 in faults {
        return Refused(FaultError(faults[3]));
      }
      var row := NewRow(req, now);
      assert IndexAllows(rows, nextId, row);
      GuardedWriteKeepsUnique(rows, nextId, row);
      r := Created(nextId, row);
      rows, nextId := rows[nextId := row], nextId + 1;
    }

    method ExtendHold(id: int, until: int) returns (ok: bool)
      requires Valid()
      modifies this`rows
      ensures Valid()
      ensures ok == (id in old(rows))
      ensures rows == if ok then old(rows)[id := old(rows)[id].(heldUntil := Some(until))] else old(rows)
      ensures rows == Apply(Idle(old(rows), hallOf, nextId), Step.ExtendHold(id, until), true).rows
    {
      ok := id in rows;
      if ok {
        rows := rows[id := rows[id].(heldUntil := Some(until))];
      }
    }

    /** The blind status write: it fails only on a missing row or on the partial unique index. */
    method Confirm(id: int) returns (ok: bool)
      requires Valid()
      modifies this`rows
      ensures Valid()
      ensures ok <==> (id in old(rows) &&
                       (old(rows)[id].Active() || !Taken(old(rows), old(rows)[id].screeningId, old(rows)[id].seatId)))
      ensures rows == if ok then old(rows)[id := old(rows)[id].(status := Confirmed, heldUntil := None)] else old(rows)
      ensures rows == Apply(Idle(old(rows), hallOf, nextId), Step.Confirm(id), true).rows
    {
      ok := id in rows && IndexAllows(rows, id, ConfirmedRow(rows[id]));
      if ok {
        GuardedWriteKeepsUnique(rows, id, ConfirmedRow(rows[id]));
        rows := rows[id := ConfirmedRow(rows[id])];
      }
    }

    method CancelRow(id: int) returns (ok: bool)
      requires Valid()
      modifies this`rows
      ensures Valid()
      ensures ok == (id in old(rows))
      ensures rows == if ok then old(rows)[id := old(rows)[id].(status := Cancelled)] else old(rows)
      ensures rows == Apply(Idle(old(rows), hallOf, nextId), Release(id), true).rows
    {
      ok := id in rows;
      if ok {
        rows := rows[id := rows[id].(status := Cancelled)];
      }
    }

    /** One UPDATE ... RETURNING; the database returns the changed rows in any order. */
    method ReleaseExpiredHolds(now: int) returns (released: seq<ExpiredHold>)
      requires Valid()
      modifies this`rows
      ensures Valid()
      ensures rows == Swept(old(rows), now) && rows.Keys == old(rows).Keys
      ensures forall id | id in old(rows) ::
                rows[id] == if old(rows)[id].status == Held && old(rows)[id].heldUntil.Some? && old(rows)[id].heldUntil.value < now
                            then old(rows)[id].(status := Cancelled, heldUntil := None) else old(rows)[id]
      ensures Lists(released, old(rows), now)
      ensures rows == Apply(Idle(old(rows), hallOf, nextId), Sweep(now), true).rows
    {
      var todo: set<int> := set id: int | id in rows && Expired(rows[id], now) :: id;
      released := [];
      while todo != {}
        invariant forall id | id in todo :: id in rows && Expired(rows[id], now)
        invariant forall i | 0 <= i < |released| :: released[i].id !in todo
        invariant forall i, j | 0 <= i < j < |released| :: released[i].id != released[j].id
        invariant forall i | 0 <= i < |released| ::
            var h := released[i];
            h.id in rows && Expired(rows[h.id], now)
            && rows[h.id].userId == h.userId && rows[h.id].screeningId == h.screeningId && rows[h.id].seatId == h.seatId
        invariant forall id | id in rows && Expired(rows[id], now) ::
            id in todo || exists i | 0 <= i < |released| :: released[i].id == id
        decreases todo
      {
        var id :| id in todo;
        ghost var before := released;
        released := released + [ExpiredHold(id, rows[id].userId, rows[id].screeningId, rows[id].seatId)];
        todo := todo - {id};
        assert released[|before|].id == id;
        assert forall i | 0 <= i < |before| :: released[i] == before[i];
      }
      rows := Swept(rows, now);
    }
  }
}
