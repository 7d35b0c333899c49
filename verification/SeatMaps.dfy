/** The cached seat map of a screening against the one computed from the tables. */
module SeatMaps {
  import opened Tables

  datatype SeatStatus = Available | SeatHeld | Booked

  datatype Seat = Seat(id: int, row: string, number: string)

  datatype SeatMapEntry = SeatMapEntry(seatId: int, row: string, number: string, status: SeatStatus)

  datatype Cached = Cached(seatMap: seq<SeatMapEntry>, expiresAt: int)

  datatype ScreeningSummary = ScreeningSummary(capacity: int, held: int, booked: int, available: int, reserved: int)

  const SEAT_MAP_TTL_MS := 300000

  /** Tables and cache; seats of a hall come in the fixed order of findSeatsByHall. */
  datatype State = State(
    screenings: Screenings,
    seats: map<int, seq<Seat>>,
    reservations: Reservations,
    nextId: int,
    cache: map<int, Cached>)

  const Empty := State(map[], map[], map[], 0, map[])

  // ---- Computing a seat map ----

  function ToSeatStatus(status: Option<ReservationStatus>): SeatStatus {
    match status
    case Some(Held) => SeatHeld
    case Some(Confirmed) => Booked
    case _ => Available
  }

  /** What the reservation table says about one seat of one screening. */
  predicate Has(reservations: Reservations, screeningId: int, seatId: int, status: ReservationStatus) {
    exists id | id in reservations ::
      reservations[id].screeningId == screeningId && reservations[id].seatId == seatId && reservations[id].status == status
  }

  function StatusOf(reservations: Reservations, screeningId: int, seatId: int): SeatStatus {
    if Has(reservations, screeningId, seatId, Held) then SeatHeld
    else if Has(reservations, screeningId, seatId, Confirmed) then Booked
    else Available
  }

  function Computed(reservations: Reservations, seats: seq<Seat>, screeningId: int): seq<SeatMapEntry> {
    seq(|seats|, i requires 0 <= i < |seats| =>
      SeatMapEntry(seats[i].id, seats[i].row, seats[i].number, StatusOf(reservations, screeningId, seats[i].id)))
  }

  /** A (seat, status) pair as findActiveReservations returns it. */
  datatype ActiveSeat = ActiveSeat(seatId: int, status: ReservationStatus)

  /** `rows` lists the active reservations of the screening, in any order. */
  ghost predicate ListsActive(rows: seq<ActiveSeat>, reservations: Reservations, screeningId: int) {
    && (forall i | 0 <= i < |rows| :: rows[i].status != Cancelled && Has(reservations, screeningId, rows[i].seatId, rows[i].status))
    && (forall seatId, status: ReservationStatus | status != Cancelled && Has(reservations, screeningId, seatId, status) ::
          ActiveSeat(seatId, status) in rows)
  }

  /** The Map built by the loop: the last row of a seat wins. */
  function StatusBySeat(rows: seq<ActiveSeat>): map<int, ReservationStatus> {
    if rows == [] then map[]
    else StatusBySeat(rows[..|rows| - 1])[rows[|rows| - 1].seatId := rows[|rows| - 1].status]
  }

  function Get(m: map<int, ReservationStatus>, k: int): Option<ReservationStatus> {
    if k in m then Some(m[k]) else None
  }

  lemma {:induction false} StatusBySeatFromRows(rows: seq<ActiveSeat>, seatId: int)
    ensures seatId in StatusBySeat(rows) ==> ActiveSeat(seatId, StatusBySeat(rows)[seatId]) in rows
    ensures forall status :: ActiveSeat(seatId, status) in rows ==> seatId in StatusBySeat(rows)
  {
    if rows != [] {
      StatusBySeatFromRows(rows[..|rows| - 1], seatId);
      assert rows == rows[..|rows| - 1] + [rows[|rows| - 1]];
    }
  }

  /** A seat has at most one active reservation, so the order of the rows cannot matter. */
  lemma RowOrderIrrelevant(rows: seq<ActiveSeat>, reservations: Reservations, screeningId: int, seatId: int)
    requires UniqueActive(reservations) && ListsActive(rows, reservations, screeningId)
    ensures ToSeatStatus(Get(StatusBySeat(rows), seatId)) == StatusOf(reservations, screeningId, seatId)
  {
    StatusBySeatFromRows(rows, seatId);
    if seatId in StatusBySeat(rows) {
      var status := StatusBySeat(rows)[seatId];
      assert Has(reservations, screeningId, seatId, status);
      NotBoth(reservations, screeningId, seatId);
    } else {
      assert ActiveSeat(seatId, Held) !in rows && ActiveSeat(seatId, Confirmed) !in rows;
    }
  }

  lemma NotBoth(reservations: Reservations, screeningId: int, seatId: int)
    requires UniqueActive(reservations)
    ensures !(Has(reservations, screeningId, seatId, Held) && Has(reservations, screeningId, seatId, Confirmed))
  {
  }

  // ---- Counting a seat map ----

  function Count(seatMap: seq<SeatMapEntry>, status: SeatStatus): nat {
    if seatMap == [] then 0
    else Count(seatMap[..|seatMap| - 1], status) + if seatMap[|seatMap| - 1].status == status then 1 else 0
  }

  function Summary(seatMap: seq<SeatMapEntry>): ScreeningSummary {
    var held, booked := Count(seatMap, SeatHeld), Count(seatMap, Booked);
    ScreeningSummary(|seatMap|, held, booked, |seatMap| - held - booked, held + booked)
  }

  /** The places of a map that show this status. */
  function EntriesWith(seatMap: seq<SeatMapEntry>, status: SeatStatus): set<nat> {
    set i: nat | i < |seatMap| && seatMap[i].status == status :: i
  }

  /** The places of a hall whose seat has a row of this status for the screening. */
  function SeatsWith(reservations: Reservations, seats: seq<Seat>, sid: int, status: ReservationStatus): set<nat> {
    set i: nat | i < |seats| && Has(reservations, sid, seats[i].id, status) :: i
  }

  lemma EntriesMore(seatMap: seq<SeatMapEntry>, status: SeatStatus, n: nat)
    requires |seatMap| == n + 1
    ensures n !in EntriesWith(seatMap[..n], status)
    ensures EntriesWith(seatMap, status) ==
            EntriesWith(seatMap[..n], status) + if seatMap[n].status == status then {n} else {}
  {
  }

  lemma {:induction false} CountIsCard(seatMap: seq<SeatMapEntry>, status: SeatStatus)
    ensures Count(seatMap, status) == |EntriesWith(seatMap, status)|
  {
    if seatMap != [] {
      CountIsCard(seatMap[..|seatMap| - 1], status);
      EntriesMore(seatMap, status, |seatMap| - 1);
    }
  }

  /** A map shows each seat of the hall at its place, HELD or BOOKED exactly when the screening has such a row for it. */
  ghost predicate Shows(seatMap: seq<SeatMapEntry>, reservations: Reservations, seats: seq<Seat>, sid: int) {
    && |seatMap| == |seats|
    && forall i | 0 <= i < |seats| ::
         && seatMap[i].seatId == seats[i].id && seatMap[i].row == seats[i].row && seatMap[i].number == seats[i].number
         && (seatMap[i].status == SeatHeld <==> Has(reservations, sid, seats[i].id, Held))
         && (seatMap[i].status == Booked <==> Has(reservations, sid, seats[i].id, Confirmed))
  }

  lemma ComputedShows(reservations: Reservations, seats: seq<Seat>, sid: int)
    requires UniqueActive(reservations)
    ensures Shows(Computed(reservations, seats, sid), reservations, seats, sid)
  {
    forall i | 0 <= i < |seats|
      ensures !(Has(reservations, sid, seats[i].id, Held) && Has(reservations, sid, seats[i].id, Confirmed))
    {
      NotBoth(reservations, sid, seats[i].id);
    }
  }

  lemma EntriesAreSeats(reservations: Reservations, seats: seq<Seat>, sid: int)
    requires UniqueActive(reservations)
    ensures EntriesWith(Computed(reservations, seats, sid), SeatHeld) == SeatsWith(reservations, seats, sid, Held)
    ensures EntriesWith(Computed(reservations, seats, sid), Booked) == SeatsWith(reservations, seats, sid, Confirmed)
  {
    ComputedShows(reservations, seats, sid);
  }

  /** Equal once HELD and BOOKED are merged. */
  ghost predicate Agree(a: seq<SeatMapEntry>, b: seq<SeatMapEntry>) {
    && |a| == |b|
    && forall i | 0 <= i < |a| ::
         a[i].seatId == b[i].seatId && a[i].row == b[i].row && a[i].number == b[i].number
         && (a[i].status == Available <==> b[i].status == Available)
  }

  lemma {:induction false} SummariesAgree(a: seq<SeatMapEntry>, b: seq<SeatMapEntry>)
    requires Agree(a, b)
    ensures Summary(a).capacity == Summary(b).capacity && Summary(a).available == Summary(b).available
    ensures Summary(a).reserved == Summary(b).reserved && Summary(a).held == Count(a, SeatHeld) && Summary(a).booked == Count(a, Booked)
    ensures Summary(a).available == Count(a, Available) && Summary(a).available + Summary(a).held + Summary(a).booked == Summary(a).capacity
  {
    if a != [] {
      SummariesAgree(a[..|a| - 1], b[..|b| - 1]);
    }
  }

  // ---- Everything that changes the tables, with the cache entries it drops ----

  datatype Step =
    | Reserve(row: Reservation)
    | ExtendHold(id: int, until: int)
    | Confirm(id: int)
    | CancelRow(id: int)
    | Sweep(now: int)
    | CreateHall(hallId: int, newSeats: seq<Seat>)
    | CreateScreening(sid: int, screening: Screening)
    | UpdateScreening(sid: int, screening: Screening)
    | CancelScreening(sid: int)
    | DeleteScreening(sid: int)
    | ReadSeatMap(sid: int, now: int)
    | Evict(sid: int)

  function DropOne(s: State, sid: int): State {
    s.(cache := s.cache - {sid})
  }

  /** One CANCELLED event per screening of the sweep. */
  function ReleasedScreenings(rows: Reservations, now: int): set<int> {
    set id | id in rows && Expired(rows[id], now) :: rows[id].screeningId
  }

  function Readable(s: State, sid: int): bool {
    sid in s.screenings && s.screenings[sid].status != ScreenCancelled && s.screenings[sid].hallId in s.seats
  }

  function Recomputed(s: State, sid: int): seq<SeatMapEntry>
    requires Readable(s, sid)
  {
    Computed(s.reservations, s.seats[s.screenings[sid].hallId], sid)
  }

  function Fill(s: State, sid: int, now: int): State {
    if !Readable(s, sid) || (sid in s.cache && now < s.cache[sid].expiresAt) then s
    else s.(cache := s.cache[sid := Cached(Recomputed(s, sid), now + SEAT_MAP_TTL_MS)])
  }

  function Apply(s: State, step: Step): State {
    match step
    case Reserve(row) =>
      if row.status != Held || Taken(s.reservations, row.screeningId, row.seatId) then s
      else DropOne(s.(reservations := s.reservations[s.nextId := row], nextId := s.nextId + 1), row.screeningId)
    case ExtendHold(id, until) =>
      if id in s.reservations then s.(reservations := s.reservations[id := s.reservations[id].(heldUntil := Some(until))]) else s
    case Confirm(id) =>
      if id in s.reservations && IndexAllows(s.reservations, id, ConfirmedRow(s.reservations[id]))
      then s.(reservations := s.reservations[id := ConfirmedRow(s.reservations[id])]) else s
    case CancelRow(id) =>
      if id in s.reservations
      then DropOne(s.(reservations := s.reservations[id := s.reservations[id].(status := Cancelled)]), s.reservations[id].screeningId)
      else s
    case Sweep(now) =>
      s.(reservations := Swept(s.reservations, now), cache := s.cache - ReleasedScreenings(s.reservations, now))
    case CreateHall(hallId, newSeats) => if hallId in s.seats then s else s.(seats := s.seats[hallId := newSeats])
    case CreateScreening(sid, screening) =>
      if sid in s.screenings || screening.hallId !in s.seats then s
      else s.(screenings := s.screenings[sid := screening.(status := Scheduled)])
    case UpdateScreening(sid, screening) =>
      if sid !in s.screenings || screening.hallId !in s.seats then s
      else DropOne(s.(screenings := s.screenings[sid := screening.(status := s.screenings[sid].status)]), sid)
    case CancelScreening(sid) =>
      if sid !in s.screenings then s
      else DropOne(s.(screenings := s.screenings[sid := s.screenings[sid].(status := ScreenCancelled)]), sid)
    case DeleteScreening(sid) =>
      if sid !in s.screenings || (exists id | id in s.reservations :: s.reservations[id].screeningId == sid) then s
      else DropOne(s.(screenings := s.screenings - {sid}), sid)
    case ReadSeatMap(sid, now) => Fill(s, sid, now)
    case Evict(sid) => DropOne(s, sid)
  }

  function Run(s: State, steps: seq<Step>): State
    decreases |steps|
  {
    if steps == [] then s else Run(Apply(s, steps[0]), steps[1..])
  }

  /** What the reservation steps write: a new HELD row for a free seat, a deadline, a status, the overdue rows. */
  lemma ReservationSteps(s: State, row: Reservation, id: int, until: int, now: int)
    ensures row.status == Held && !Taken(s.reservations, row.screeningId, row.seatId) ==>
              Apply(s, Reserve(row)).reservations == s.reservations[s.nextId := row]
    ensures row.status != Held || Taken(s.reservations, row.screeningId, row.seatId) ==> Apply(s, Reserve(row)) == s
    ensures id in s.reservations ==>
              && Apply(s, ExtendHold(id, until)) == s.(reservations := s.reservations[id := s.reservations[id].(heldUntil := Some(until))])
              && Apply(s, CancelRow(id)).reservations == s.reservations[id := s.reservations[id].(status := Cancelled)]
    ensures id in s.reservations && IndexAllows(s.reservations, id, ConfirmedRow(s.reservations[id])) ==>
              Apply(s, Confirm(id)) == s.(reservations := s.reservations[id := s.reservations[id].(status := Confirmed, heldUntil := None)])
    ensures Apply(s, Sweep(now)).reservations.Keys == s.reservations.Keys
    ensures forall k | k in s.reservations ::
              var r := s.reservations[k];
              Apply(s, Sweep(now)).reservations[k] ==
              if r.status == Held && r.heldUntil.Some? && r.heldUntil.value < now then r.(status := Cancelled, heldUntil := None) else r
  {
  }

  /** What the screening steps write: a new SCHEDULED row, every column but the status, the status, and nothing of a
      screening that somebody has reserved. */
  lemma ScreeningSteps(s: State, sid: int, screening: Screening)
    requires screening.hallId in s.seats
    ensures sid !in s.screenings ==>
              Apply(s, CreateScreening(sid, screening)) == s.(screenings := s.screenings[sid := screening.(status := Scheduled)])
    ensures sid in s.screenings ==>
              && Apply(s, CreateScreening(sid, screening)) == s
              && Apply(s, UpdateScreening(sid, screening)).screenings ==
                 s.screenings[sid := screening.(status := s.screenings[sid].status)]
              && Apply(s, CancelScreening(sid)).screenings == s.screenings[sid := s.screenings[sid].(status := ScreenCancelled)]
              && Apply(s, DeleteScreening(sid)).screenings ==
                 if (exists id | id in s.reservations :: s.reservations[id].screeningId == sid) then s.screenings else s.screenings - {sid}
    ensures sid !in s.screenings ==>
              Apply(s, UpdateScreening(sid, screening)) == s && Apply(s, CancelScreening(sid)) == s && Apply(s, DeleteScreening(sid)) == s
  {
  }

  /** Every confirm of the run meets a HELD row. */
  predicate InTime(s: State, step: Step) {
    step.Confirm? ==> StillHeld(s.reservations, step.id)
  }

  predicate ConfirmsInTime(s: State, steps: seq<Step>)
    decreases |steps|
  {
    steps == [] || (InTime(s, steps[0]) && ConfirmsInTime(Apply(s, steps[0]), steps[1..]))
  }

  /** One cached map may be served: its screening is public and it agrees with the tables. */
  ghost predicate Fit(s: State, sid: int)
    requires sid in s.cache
  {
    Readable(s, sid) && Agree(s.cache[sid].seatMap, Recomputed(s, sid))
  }

  ghost predicate Coherent(s: State) {
    forall sid | sid in s.cache :: Fit(s, sid)
  }

  ghost predicate Good(s: State) {
    && UniqueActive(s.reservations) && (forall id | id in s.reservations :: id < s.nextId)
    && Coherent(s)
  }

  /** Whether a seat reads as free. */
  predicate Free(reservations: Reservations, sid: int, seatId: int) {
    StatusOf(reservations, sid, seatId) == Available
  }

  lemma FreeIffNotTaken(reservations: Reservations, sid: int, seatId: int)
    ensures Free(reservations, sid, seatId) <==> !Taken(reservations, sid, seatId)
  {
  }

  /** Cached maps of screenings whose seats keep reading free or not free stay fit. */
  lemma CoherentAfter(s: State, after: State)
    requires Coherent(s) && after.screenings == s.screenings && after.seats == s.seats
    requires forall sid | sid in after.cache :: sid in s.cache && after.cache[sid] == s.cache[sid]
    requires forall sid, seatId | sid in after.cache :: Free(after.reservations, sid, seatId) == Free(s.reservations, sid, seatId)
    ensures Coherent(after)
  {
    forall sid | sid in after.cache ensures Fit(after, sid) {
      assert Fit(s, sid);
      var seats := s.seats[s.screenings[sid].hallId];
      forall i | 0 <= i < |seats|
        ensures (after.cache[sid].seatMap[i].status == Available) == (Recomputed(after, sid)[i].status == Available)
      {
        assert Recomputed(s, sid)[i].status == StatusOf(s.reservations, sid, seats[i].id);
        assert Recomputed(after, sid)[i].status == StatusOf(after.reservations, sid, seats[i].id);
        assert Free(after.reservations, sid, seats[i].id) == Free(s.reservations, sid, seats[i].id);
      }
    }
  }

  /** Rewriting one row changes nothing for other screenings, nor for its own when it stays active. */
  lemma RewriteFree(rows: Reservations, id: int, row: Reservation, sid: int, seatId: int)
    requires id in rows ==> row.SameSeat(rows[id])
    requires sid != row.screeningId || (id in rows && row.Active() == rows[id].Active())
    ensures Free(rows[id := row], sid, seatId) == Free(rows, sid, seatId)
  {
    FreeIffNotTaken(rows, sid, seatId);
    FreeIffNotTaken(rows[id := row], sid, seatId);
    if Taken(rows, sid, seatId) {
      var j :| j in rows && rows[j].Active() && rows[j].screeningId == sid && rows[j].seatId == seatId;
      assert rows[id := row][j] == if j == id then row else rows[j];
    }
    if Taken(rows[id := row], sid, seatId) {
      var j :| j in rows[id := row] && rows[id := row][j].Active() && rows[id := row][j].screeningId == sid && rows[id := row][j].seatId == seatId;
      assert j in rows && (j != id ==> rows[j] == rows[id := row][j]);
    }
  }

  lemma GoodRewrite(s: State, id: int, row: Reservation, after: State)
    requires Good(s) && IndexAllows(s.reservations, id, row)
    requires after.screenings == s.screenings && after.seats == s.seats && after.reservations == s.reservations[id := row]
    requires id < after.nextId && s.nextId <= after.nextId
    requires id in s.reservations ==> row.SameSeat(s.reservations[id])
    requires forall sid | sid in after.cache :: sid in s.cache && after.cache[sid] == s.cache[sid]
    requires row.screeningId in after.cache ==> id in s.reservations && row.Active() == s.reservations[id].Active()
    ensures Good(after)
  {
    GuardedWriteKeepsUnique(s.reservations, id, row);
    forall sid, seatId | sid in after.cache
      ensures Free(after.reservations, sid, seatId) == Free(s.reservations, sid, seatId)
    {
      RewriteFree(s.reservations, id, row, sid, seatId);
    }
    CoherentAfter(s, after);
  }

  lemma GoodSweep(s: State, now: int)
    requires Good(s)
    ensures Good(Apply(s, Sweep(now)))
  {
    var after := Apply(s, Sweep(now));
    forall sid, seatId | sid in after.cache
      ensures Free(after.reservations, sid, seatId) == Free(s.reservations, sid, seatId)
    {
      FreeIffNotTaken(s.reservations, sid, seatId);
      FreeIffNotTaken(after.reservations, sid, seatId);
      if Taken(s.reservations, sid, seatId) {
        var j :| j in s.reservations && s.reservations[j].Active() && s.reservations[j].screeningId == sid && s.reservations[j].seatId == seatId;
        assert !Expired(s.reservations[j], now);
        assert after.reservations[j] == s.reservations[j];
      }
      if Taken(after.reservations, sid, seatId) {
        var j :| j in after.reservations && after.reservations[j].Active() && after.reservations[j].screeningId == sid && after.reservations[j].seatId == seatId;
        assert after.reservations[j] == s.reservations[j];
      }
    }
    CoherentAfter(s, after);
  }

  lemma GoodFill(s: State, sid: int, now: int)
    requires Good(s)
    ensures Good(Fill(s, sid, now))
  {
  }

  lemma GoodStep(s: State, step: Step)
    requires Good(s) && InTime(s, step)
    ensures Good(Apply(s, step))
  {
    match step
    case Reserve(row) =>
      if Apply(s, step) != s { GoodRewrite(s, s.nextId, row, Apply(s, step)); }
    case ExtendHold(id, until) =>
      if id in s.reservations { GoodRewrite(s, id, s.reservations[id].(heldUntil := Some(until)), Apply(s, step)); }
    case Confirm(id) =>
      if id in s.reservations { GoodRewrite(s, id, ConfirmedRow(s.reservations[id]), Apply(s, step)); }
    case CancelRow(id) =>
      if id in s.reservations { GoodRewrite(s, id, s.reservations[id].(status := Cancelled), Apply(s, step)); }
    case Sweep(now) => GoodSweep(s, now);
    case ReadSeatMap(sid, now) => GoodFill(s, sid, now);
    case _ => GoodCacheOnly(s, step);
  }

  lemma GoodCacheOnly(s: State, step: Step)
    requires Good(s)
    requires step.CreateHall? || step.CreateScreening? || step.UpdateScreening? || step.CancelScreening? || step.DeleteScreening? || step.Evict?
    ensures Good(Apply(s, step))
  {
  }

  /** Over every run whose confirms meet HELD rows, any cached seat map agrees with the tables. */
  lemma {:induction false} CacheStaysCoherent(s: State, steps: seq<Step>)
    requires Good(s) && ConfirmsInTime(s, steps)
    ensures Good(Run(s, steps))
    decreases |steps|
  {
    if steps != [] {
      GoodStep(s, steps[0]);
      CacheStaysCoherent(Apply(s, steps[0]), steps[1..]);
    }
  }

  /** Hence capacity, available and reserved are exact even when they come from the cache. */
  lemma CachedCountsExact(s: State, steps: seq<Step>, sid: int)
    requires Good(s) && ConfirmsInTime(s, steps) && sid in Run(s, steps).cache
    ensures var end := Run(s, steps);
            Readable(end, sid) &&
            var cached, exact := Summary(end.cache[sid].seatMap), Summary(Recomputed(end, sid));
            cached.capacity == exact.capacity && cached.available == exact.available && cached.reserved == exact.reserved
            && cached.available + cached.held + cached.booked == cached.capacity
  {
    CacheStaysCoherent(s, steps);
    var end := Run(s, steps);
    assert Fit(end, sid);
    SummariesAgree(end.cache[sid].seatMap, Recomputed(end, sid));
  }

  /** A confirm of any row leaves the cache coherent exactly when the row is active, or no cached map shows its
      seat, or the index refuses it. */
  lemma ConfirmKeepsCoherentIff(s: State, id: int)
    requires Good(s) && id in s.reservations
    ensures var row := s.reservations[id];
            Coherent(Apply(s, Confirm(id))) <==>
            row.Active() || Taken(s.reservations, row.screeningId, row.seatId) || row.screeningId !in s.cache
            || forall i | 0 <= i < |s.seats[s.screenings[row.screeningId].hallId]| ::
                 s.seats[s.screenings[row.screeningId].hallId][i].id != row.seatId
  {
    var row := s.reservations[id];
    var after := Apply(s, Confirm(id));
    if row.screeningId in s.cache {
      assert Fit(s, row.screeningId);
    }
    if row.Active() || row.screeningId !in s.cache {
      if after != s { GoodRewrite(s, id, ConfirmedRow(row), after); }
    } else if !Taken(s.reservations, row.screeningId, row.seatId) {
      ConfirmShows(s, id);
    }
  }

  /** The late confirm of a cancelled row shows up in the tables but not in the cached map. */
  lemma ConfirmShows(s: State, id: int)
    requires Good(s) && id in s.reservations && s.reservations[id].status == Cancelled && s.reservations[id].screeningId in s.cache
    requires !Taken(s.reservations, s.reservations[id].screeningId, s.reservations[id].seatId)
    requires Readable(s, s.reservations[id].screeningId)
    ensures Coherent(Apply(s, Confirm(id))) <==>
            forall i | 0 <= i < |s.seats[s.screenings[s.reservations[id].screeningId].hallId]| ::
              s.seats[s.screenings[s.reservations[id].screeningId].hallId][i].id != s.reservations[id].seatId
  {
    var row := s.reservations[id];
    var sid := row.screeningId;
    var seats := s.seats[s.screenings[sid].hallId];
    var after := Apply(s, Confirm(id));
    assert after.reservations == s.reservations[id := ConfirmedRow(row)];
    assert Fit(s, sid);
    FreeIffNotTaken(s.reservations, sid, row.seatId);
    assert Taken(after.reservations, sid, row.seatId) by { assert after.reservations[id].Active(); }
    FreeIffNotTaken(after.reservations, sid, row.seatId);
    if i :| 0 <= i < |seats| && seats[i].id == row.seatId {
      assert Recomputed(s, sid)[i].status == StatusOf(s.reservations, sid, seats[i].id);
      assert Recomputed(after, sid)[i].status == StatusOf(after.reservations, sid, seats[i].id);
      assert !Fit(after, sid);
    } else {
      forall other | other in after.cache ensures Fit(after, other) {
        assert Fit(s, other);
        var shown := s.seats[s.screenings[other].hallId];
        forall i | 0 <= i < |shown|
          ensures (Recomputed(after, other)[i].status == Available) == (Recomputed(s, other)[i].status == Available)
        {
          assert Recomputed(s, other)[i].status == StatusOf(s.reservations, other, shown[i].id);
          assert Recomputed(after, other)[i].status == StatusOf(after.reservations, other, shown[i].id);
          OtherSeatFree(s.reservations, id, other, shown[i].id);
        }
      }
    }
  }

  // ---- A late confirm, from the empty tables ----

  const OneSeat := [Seat(7, "A", "1")]
  const Friday := Screening(1, 1, 0, Scheduled, 10)
  const ByAlice := Reservation(1, 5, 7, Held, Some(600000), 0)
  const FreeMap := [SeatMapEntry(7, "A", "1", Available)]

  /** Held, cancelled, and read into the cache. */
  const ReadAfterCancel :=
    [CreateHall(1, OneSeat), CreateScreening(5, Friday), Reserve(ByAlice), CancelRow(0), ReadSeatMap(5, 1000)]

  const CachedFree :=
    State(map[5 := Friday], map[1 := OneSeat], map[0 := ByAlice.(status := Cancelled)], 1,
          map[5 := Cached(FreeMap, 1000 + SEAT_MAP_TTL_MS)])

  lemma ReadAfterCancelRun()
    ensures Run(Empty, ReadAfterCancel) == CachedFree
  {
    var q := ReadAfterCancel;
    var s1 := Empty.(seats := map[1 := OneSeat]);
    var s2 := s1.(screenings := map[5 := Friday]);
    var s3 := s2.(reservations := map[0 := ByAlice], nextId := 1);
    var s4 := s3.(reservations := map[0 := ByAlice.(status := Cancelled)]);
    assert q[1..][1..] == q[2..] && q[2..][1..] == q[3..] && q[3..][1..] == q[4..] && q[4..][1..] == [];
    assert Apply(Empty, q[0]) == s1 && Apply(s1, q[1]) == s2;
    assert !Taken(s2.reservations, 5, 7) && s2.cache - {5} == s2.cache;
    assert Apply(s2, q[2]) == s3 && Apply(s3, q[3]) == s4;
    assert Recomputed(s4, 5) == FreeMap;
    assert Apply(s4, q[4]) == CachedFree;
    assert Run(CachedFree, q[4..][1..]) == CachedFree;
    assert Run(s4, q[4..]) == CachedFree && Run(s3, q[3..]) == CachedFree && Run(s2, q[2..]) == CachedFree;
  }

  lemma {:induction false} NoConfirms(s: State, steps: seq<Step>)
    requires forall i | 0 <= i < |steps| :: !steps[i].Confirm?
    ensures ConfirmsInTime(s, steps)
    decreases |steps|
  {
    if steps != [] {
      NoConfirms(Apply(s, steps[0]), steps[1..]);
    }
  }

  /** The cached map then calls a seat free that the table calls booked. */
  lemma LateConfirmHidden()
    ensures Good(Run(Empty, ReadAfterCancel)) && !Coherent(Apply(Run(Empty, ReadAfterCancel), Confirm(0)))
  {
    ReadAfterCancelRun();
    NoConfirms(Empty, ReadAfterCancel);
    CacheStaysCoherent(Empty, ReadAfterCancel);
    ConfirmKeepsCoherentIff(CachedFree, 0);
    assert CachedFree.seats[1][0].id == 7;
  }

  lemma OtherSeatFree(rows: Reservations, id: int, sid: int, seatId: int)
    requires id in rows && !(rows[id].screeningId == sid && rows[id].seatId == seatId)
    ensures Free(rows[id := ConfirmedRow(rows[id])], sid, seatId) == Free(rows, sid, seatId)
  {
    var after := rows[id := ConfirmedRow(rows[id])];
    FreeIffNotTaken(rows, sid, seatId);
    FreeIffNotTaken(after, sid, seatId);
    if Taken(rows, sid, seatId) {
      var j :| j in rows && rows[j].Active() && rows[j].screeningId == sid && rows[j].seatId == seatId;
      assert after[j] == rows[j];
    }
    if Taken(after, sid, seatId) {
      var j :| j in after && after[j].Active() && after[j].screeningId == sid && after[j].seatId == seatId;
      assert after[j] == rows[j];
    }
  }

  class ScreeningsService {
    var screenings: Screenings
    var seats: map<int, seq<Seat>>
    var reservations: Reservations
    var nextId: int
    var cache: map<int, Cached>

    ghost function Now(): State
      reads this
    {
      State(screenings, seats, reservations, nextId, cache)
    }

    constructor ()
      ensures Now() == Empty && Good(Now())
    {
      screenings, seats, reservations, nextId, cache := map[], map[], map[], 0, map[];
    }

    /** The rows of the query, in whatever order the database produces them. */
    method FindActiveReservations(sid: int) returns (rows: seq<ActiveSeat>)
      ensures ListsActive(rows, reservations, sid)
    {
      var todo: set<int> := set id: int | id in reservations && reservations[id].Active() && reservations[id].screeningId == sid :: id;
      ghost var all := todo;
      rows := [];
      while todo != {}
        invariant todo <= all
        invariant forall i | 0 <= i < |rows| :: rows[i].status != Cancelled && Has(reservations, sid, rows[i].seatId, rows[i].status)
        invariant forall id | id in all :: id in todo || ActiveSeat(reservations[id].seatId, reservations[id].status) in rows
        decreases todo
      {
        var id :| id in todo;
        assert id in all;
        rows := rows + [ActiveSeat(reservations[id].seatId, reservations[id].status)];
        todo := todo - {id};
      }
      forall seatId, status: ReservationStatus | status != Cancelled && Has(reservations, sid, seatId, status)
        ensures ActiveSeat(seatId, status) in rows
      {
        var id :| id in reservations && reservations[id].screeningId == sid && reservations[id].seatId == seatId && reservations[id].status == status;
        assert id in all;
      }
    }

    /** Cache first, tables otherwise; None stands for the 404 of an unknown or cancelled screening. */
    method GetSeatMap(sid: int, now: int) returns (r: Option<seq<SeatMapEntry>>)
      requires Good(Now()) && forall id | id in screenings :: screenings[id].hallId in seats
      modifies `cache
      ensures Good(Now()) && Now() == Apply(old(Now()), ReadSeatMap(sid, now))
      ensures r.Some? <==> sid in screenings && screenings[sid].status != ScreenCancelled
      ensures r.Some? ==> Readable(Now(), sid) && Agree(r.value, Recomputed(Now(), sid))
      ensures r.Some? && sid in old(cache) && now < old(cache)[sid].expiresAt ==> r.value == old(cache)[sid].seatMap && cache == old(cache)
      ensures r.Some? && !(sid in old(cache) && now < old(cache)[sid].expiresAt) ==>
                r.value == Recomputed(Now(), sid) && cache == old(cache)[sid := Cached(r.value, now + 300000)]
                && Shows(r.value, reservations, seats[screenings[sid].hallId], sid)
    {
      ghost var before := Now();
      GoodFill(before, sid, now);
      if sid in screenings { ComputedShows(reservations, seats[screenings[sid].hallId], sid); }
      if sid in cache && now < cache[sid].expiresAt {
        assert Fit(before, sid);
        return Some(cache[sid].seatMap);
      }
      if sid !in screenings || screenings[sid].status == ScreenCancelled {
        return None;
      }
      var hallSeats := seats[screenings[sid].hallId];
      var rows := FindActiveReservations(sid);
      var statusBySeat: map<int, ReservationStatus> := map[];
      for i := 0 to |rows|
        invariant Now() == before && statusBySeat == StatusBySeat(rows[..i])
      {
        assert rows[..i + 1][..i] == rows[..i];
        statusBySeat := statusBySeat[rows[i].seatId := rows[i].status];
      }
      assert rows[..|rows|] == rows;
      var seatMap: seq<SeatMapEntry> := [];
      for i := 0 to |hallSeats|
        invariant Now() == before && seatMap == Recomputed(before, sid)[..i]
      {
        var seat := hallSeats[i];
        RowOrderIrrelevant(rows, reservations, sid, seat.id);
        seatMap := seatMap + [SeatMapEntry(seat.id, seat.row, seat.number, ToSeatStatus(Get(statusBySeat, seat.id)))];
      }
      assert seatMap == Recomputed(before, sid);
      cache := cache[sid := Cached(seatMap, now + SEAT_MAP_TTL_MS)];
      return Some(seatMap);
    }

    /** Counts taken from whatever GetSeatMap returns; `available`, `reserved` and `capacity` are those of the tables. */
    method GetScreeningSummary(sid: int, now: int) returns (r: Option<ScreeningSummary>)
      requires Good(Now()) && forall id | id in screenings :: screenings[id].hallId in seats
      modifies `cache
      ensures Good(Now())
      ensures r.Some? <==> sid in screenings && screenings[sid].status != ScreenCancelled
      ensures r.Some? ==> Readable(Now(), sid)
      ensures r.Some? ==> var exact := Summary(Recomputed(Now(), sid));
                          r.value.capacity == exact.capacity && r.value.available == exact.available && r.value.reserved == exact.reserved
      ensures r.Some? ==> r.value.available + r.value.held + r.value.booked == r.value.capacity
      ensures r.Some? && sid in old(cache) && now < old(cache)[sid].expiresAt ==>
                && r.value.held == |EntriesWith(old(cache)[sid].seatMap, SeatHeld)|
                && r.value.booked == |EntriesWith(old(cache)[sid].seatMap, Booked)|
      ensures r.Some? && !(sid in old(cache) && now < old(cache)[sid].expiresAt) ==>
                && r.value.held == |SeatsWith(reservations, seats[screenings[sid].hallId], sid, Held)|
                && r.value.booked == |SeatsWith(reservations, seats[screenings[sid].hallId], sid, Confirmed)|
    {
      var found := GetSeatMap(sid, now);
      if found.None? {
        return None;
      }
      var seatMap := found.value;
      var held, booked := 0, 0;
      for i := 0 to |seatMap|
        invariant held == Count(seatMap[..i], SeatHeld) && booked == Count(seatMap[..i], Booked)
      {
        assert seatMap[..i + 1][..i] == seatMap[..i];
        if seatMap[i].status == SeatHeld {
          held := held + 1;
        } else if seatMap[i].status == Booked {
          booked := booked + 1;
        }
      }
      assert seatMap[..|seatMap|] == seatMap;
      SummariesAgree(seatMap, Recomputed(Now(), sid));
      CountIsCard(seatMap, SeatHeld);
      CountIsCard(seatMap, Booked);
      EntriesAreSeats(reservations, seats[screenings[sid].hallId], sid);
      var capacity := |seatMap|;
      return Some(ScreeningSummary(capacity, held, booked, capacity - held - booked, held + booked));
    }
  }
}
