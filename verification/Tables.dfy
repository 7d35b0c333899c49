/** Rows of the reservation and screening tables, and the partial unique index over active reservations. */
module Tables {

  datatype Option<+T> = None | Some(value: T)

  /** In milliseconds. */
  const MINUTE := 60000
  const HOLD_MINUTES := 10

  datatype ReservationStatus = Held | Confirmed | Cancelled

  /** One row; times are milliseconds since the epoch. */
  datatype Reservation = Reservation(
    userId: int,
    screeningId: int,
    seatId: int,
    status: ReservationStatus,
    heldUntil: Option<int>,
    createdAt: int)
  {
    predicate Active() {
      status != Cancelled
    }

    predicate SameSeat(other: Reservation) {
      screeningId == other.screeningId && seatId == other.seatId
    }
  }

  type Reservations = map<int, Reservation>

  datatype ScreenStatus = Scheduled | ScreenCompleted | ScreenCancelled

  datatype Screening = Screening(movieId: int, hallId: int, startTime: int, status: ScreenStatus, price: nat)

  type Screenings = map<int, Screening>

  /** A confirm of this row now would find it HELD, or missing. */
  predicate StillHeld(rows: Reservations, id: int) {
    id in rows ==> rows[id].status == Held
  }

  /** No two active rows share a (screening, seat) pair. */
  ghost predicate UniqueActive(rows: Reservations) {
    forall i, j | i in rows && j in rows && i != j && rows[i].Active() && rows[j].Active() ::
      !rows[i].SameSeat(rows[j])
  }

  /** What the partial unique index lets through: writing `row` under `id` when it is active. */
  predicate IndexAllows(rows: Reservations, id: int, row: Reservation) {
    row.Active() ==> forall j | j in rows :: j != id && rows[j].Active() ==> !row.SameSeat(rows[j])
  }

  /** The post-lock existence check: some active row already covers the pair. */
  predicate Taken(rows: Reservations, screeningId: int, seatId: int) {
    exists j | j in rows :: rows[j].Active() && rows[j].screeningId == screeningId && rows[j].seatId == seatId
  }

  predicate Expired(row: Reservation, now: int) {
    row.status == Held && row.heldUntil.Some? && row.heldUntil.value < now
  }

  function Released(row: Reservation): Reservation {
    row.(status := Cancelled, heldUntil := None)
  }

  /** The single UPDATE behind a sweep. */
  function Swept(rows: Reservations, now: int): Reservations {
    map id | id in rows :: if Expired(rows[id], now) then Released(rows[id]) else rows[id]
  }

  function ConfirmedRow(row: Reservation): Reservation {
    row.(status := Confirmed, heldUntil := None)
  }

  /** Guarding every write of an active row with the index keeps active rows unique. */
  lemma GuardedWriteKeepsUnique(rows: Reservations, id: int, row: Reservation)
    requires UniqueActive(rows) && IndexAllows(rows, id, row)
    ensures UniqueActive(rows[id := row])
  {
  }

  /** Writing an active row keeps active rows unique exactly when the index would allow it. */
  lemma WriteKeepsUniqueIff(rows: Reservations, id: int, row: Reservation)
    requires UniqueActive(rows)
    ensures UniqueActive(rows[id := row]) <==> IndexAllows(rows, id, row)
  {
    var after := rows[id := row];
    if UniqueActive(after) && row.Active() {
      forall j | j in rows && j != id && rows[j].Active() ensures !row.SameSeat(rows[j]) {
        assert after[id] == row && after[j] == rows[j];
      }
    }
  }
}
