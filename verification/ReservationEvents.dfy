/** The reservation service: what its calls write, and which events tell the rest of the system. */
module ReservationEvents {
  import opened Tables
  import opened HoldTransactions
  import opened ReservationStore

  datatype Event =
    | ReservationCreated(screeningId: int, seatIds: seq<int>)
    | ReservationConfirmed(screeningId: int, seatIds: seq<int>)
    | ReservationCancelled(screeningId: int, seatIds: seq<int>)
    | HoldExpired(userId: int, screeningId: int, seatId: int)

  datatype ReserveResult = LockedOut | ScreeningNotFound | AlreadyStarted | Answered(hold: HoldResult)
  {
    predicate Created() {
      Answered? && hold.Created?
    }
  }

  /** The seat-map cache listens to these two events, and to no other. */
  predicate Drops(e: Event, screeningId: int) {
    (e.ReservationCreated? || e.ReservationCancelled?) && e.screeningId == screeningId
  }

  ghost predicate Names(events: seq<Event>, screeningId: int, seatId: int) {
    exists i | 0 <= i < |events| :: Drops(events[i], screeningId) && seatId in events[i].seatIds
  }

  /** Every seat a call takes or frees is named by an event the seat-map cache listens to. */
  ghost predicate Announces(events: seq<Event>, before: Reservations, after: Reservations) {
    forall s, x | Taken(before, s, x) != Taken(after, s, x) :: Names(events, s, x)
  }

  /** Seats of one screening among the released rows, in the order they were released. */
  function SeatsOf(released: seq<ExpiredHold>, screeningId: int): seq<int> {
    if released == [] then []
    else
      var h := released[|released| - 1];
      var seats := SeatsOf(released[..|released| - 1], screeningId);
      if h.screeningId == screeningId then seats + [h.seatId] else seats
  }

  /** Screenings touched by the sweep, in the order a Map first meets them. */
  function ScreeningsOf(released: seq<ExpiredHold>): seq<int> {
    if released == [] then []
    else
      var h := released[|released| - 1];
      var seen := ScreeningsOf(released[..|released| - 1]);
      if h.screeningId in seen then seen else seen + [h.screeningId]
  }

  function CancelEvents(released: seq<ExpiredHold>, screenings: seq<int>): seq<Event> {
    seq(|screenings|, i requires 0 <= i < |screenings| => ReservationCancelled(screenings[i], SeatsOf(released, screenings[i])))
  }

  function ExpiryEvents(released: seq<ExpiredHold>): seq<Event> {
    seq(|released|, i requires 0 <= i < |released| =>
      HoldExpired(released[i].userId, released[i].screeningId, released[i].seatId))
  }

  /** Fills the Map of seat lists; a JavaScript Map iterates its keys in insertion order. */
  method GroupByScreening(rows: seq<ExpiredHold>) returns (order: seq<int>, byScreening: map<int, seq<int>>)
    ensures order == ScreeningsOf(rows)
    ensures forall s :: s in byScreening <==> s in order
    ensures forall s | s in byScreening :: byScreening[s] == SeatsOf(rows, s)
    ensures forall s | s !in byScreening :: SeatsOf(rows, s) == []
  {
    byScreening := map[];
    order := [];
    for i := 0 to |rows|
      invariant order == ScreeningsOf(rows[..i])
      invariant forall s :: s in byScreening <==> s in order
      invariant forall s | s in byScreening :: byScreening[s] == SeatsOf(rows[..i], s)
      invariant forall s | s !in byScreening :: SeatsOf(rows[..i], s) == []
    {
      var r := rows[i];
      assert rows[..i + 1][..i] == rows[..i];
      var seatIds := if r.screeningId in byScreening then byScreening[r.screeningId] else [];
      if r.screeningId !in byScreening {
        order := order + [r.screeningId];
      }
      byScreening := byScreening[r.screeningId := seatIds + [r.seatId]];
    }
    assert rows[..|rows|] == rows;
  }

  class ReservationsService {
    const repo: ReservationsRepository
    var events: seq<Event>

    constructor (repo: ReservationsRepository)
      ensures this.repo == repo && events == []
    {
      this.repo := repo;
      events := [];
    }

    /** Checks in order, then one hold; `asked` is when the deadline is computed and `now` when the row is written. */
    method Reserve(userId: int, lockedOut: bool, screeningId: int, screening: Option<Screening>, seatId: int,
                   asked: int, now: int, faults: map<int, Fault>) returns (r: ReserveResult)
      requires repo.Valid()
      modifies repo`rows, repo`nextId, this`events
      ensures repo.Valid()
      ensures r.LockedOut? <==> lockedOut
      ensures r.ScreeningNotFound? <==> !lockedOut && (screening.None? || screening.value.status != Scheduled)
      ensures r.AlreadyStarted? <==>
                !lockedOut && screening.Some? && screening.value.status == Scheduled && screening.value.startTime <= asked
      ensures r.Answered? && faults == map[] ==>
                (r.Created() <==> seatId in repo.hallOf && repo.hallOf[seatId] == screening.value.hallId
                                  && !Taken(old(repo.rows), screeningId, seatId))
      ensures r.Created() ==> r.hold.id !in old(repo.rows) && !Taken(old(repo.rows), screeningId, seatId)
      ensures r.Created() ==> repo.rows == old(repo.rows)[r.hold.id :=
                                Reservation(userId, screeningId, seatId, Held, Some(asked + HOLD_MINUTES * MINUTE), now)]
      ensures !r.Created() ==> repo.rows == old(repo.rows)
      ensures events == old(events) + if r.Created() then [ReservationCreated(screeningId, [seatId])] else []
      ensures Announces(events[|old(events)|..], old(repo.rows), repo.rows)
    {
      if lockedOut {
        return LockedOut;
      }
      if screening.None? || screening.value.status != Scheduled {
        return ScreeningNotFound;
      }
      if screening.value.startTime <= asked {
        return AlreadyStarted;
      }
      var heldUntil := asked + HOLD_MINUTES * MINUTE;
      ghost var before := repo.rows;
      var hold := repo.HoldSeat(Request(userId, screeningId, screening.value.hallId, seatId, heldUntil), now, faults);
      r := Answered(hold);
      if hold.Created? {
        events := events + [ReservationCreated(screeningId, [hold.row.seatId])];
        OnlyItsSeat(before, hold.id, hold.row);
        assert Drops(events[|old(events)|..][0], screeningId);
      }
    }

    /** Sets CANCELLED, then tells the cache and the broadcast. */
    method FinalizeCancel(id: int) returns (ok: bool)
      requires repo.Valid()
      modifies repo`rows, this`events
      ensures repo.Valid() && ok == (id in old(repo.rows))
      ensures repo.rows == if ok then old(repo.rows)[id := old(repo.rows)[id].(status := Cancelled)] else old(repo.rows)
      ensures events == old(events) + if ok then [ReservationCancelled(old(repo.rows)[id].screeningId, [old(repo.rows)[id].seatId])] else []
      ensures Announces(events[|old(events)|..], old(repo.rows), repo.rows)
    {
      ghost var before := repo.rows;
      ok := repo.CancelRow(id);
      if ok {
        var row := repo.rows[id];
        events := events + [ReservationCancelled(row.screeningId, [row.seatId])];
        OnlyItsSeat(before, id, row);
        assert Drops(events[|old(events)|..][0], row.screeningId);
      }
    }

    /** A confirm is announced to clients, but not to the seat-map cache. */
    method ConfirmPayment(id: int) returns (ok: bool)
      requires repo.Valid()
      modifies repo`rows, this`events
      ensures repo.Valid()
      ensures ok <==> (id in old(repo.rows) &&
                       (old(repo.rows)[id].Active() || !Taken(old(repo.rows), old(repo.rows)[id].screeningId, old(repo.rows)[id].seatId)))
      ensures repo.rows == if ok then old(repo.rows)[id := old(repo.rows)[id].(status := Confirmed, heldUntil := None)] else old(repo.rows)
      ensures events == old(events) + if ok then [ReservationConfirmed(old(repo.rows)[id].screeningId, [old(repo.rows)[id].seatId])] else []
      ensures Announces(events[|old(events)|..], old(repo.rows), repo.rows) <==> !ok || old(repo.rows)[id].Active()
    {
      ghost var before := repo.rows;
      ok := repo.Confirm(id);
      if ok {
        var row := repo.rows[id];
        events := events + [ReservationConfirmed(row.screeningId, [row.seatId])];
        OnlyItsSeat(before, id, row);
        ConfirmSilentIff(before, id, events[|old(events)|..]);
      }
    }

    method ExpireHolds(now: int) returns (ghost released: seq<ExpiredHold>)
      requires repo.Valid()
      modifies repo`rows, this`events
      ensures repo.Valid() && repo.rows == Swept(old(repo.rows), now) && repo.rows.Keys == old(repo.rows).Keys
      ensures forall id | id in old(repo.rows) ::
                var row := old(repo.rows)[id];
                repo.rows[id] == if row.status == Held && row.heldUntil.Some? && row.heldUntil.value < now
                                 then row.(status := Cancelled, heldUntil := None) else row
      ensures Lists(released, old(repo.rows), now)
      ensures Notified(released, events)
      ensures events == old(events) + SweepEvents(released) && Announced(SweepEvents(released)) == Pairs(released)
      ensures Announces(events[|old(events)|..], old(repo.rows), repo.rows)
    {
      var rows := repo.ReleaseExpiredHolds(now);
      released := rows;
      SweepAnnounced(old(repo.rows), now, rows);
      SweepConserves(rows);
      if |rows| == 0 {
        assert events[|old(events)|..] == SweepEvents(rows);
        return;
      }

      EmitReleased(rows);
      assert events[|old(events)|..] == SweepEvents(rows);
    }

    /** One CANCELLED event per screening, then one HOLD_EXPIRED event per row. */
    method EmitReleased(rows: seq<ExpiredHold>)
      modifies this`events
      ensures events == old(events) + SweepEvents(rows) && Notified(rows, events)
    {
      var order, byScreening := GroupByScreening(rows);
      for i := 0 to |order|
        invariant events == old(events) + CancelEvents(rows, order)[..i]
      {
        events := events + [ReservationCancelled(order[i], byScreening[order[i]])];
      }
      ghost var mid := events;
      assert mid == old(events) + CancelEvents(rows, order);
      for i := 0 to |rows|
        invariant events == mid + ExpiryEvents(rows)[..i]
      {
        events := events + [HoldExpired(rows[i].userId, rows[i].screeningId, rows[i].seatId)];
      }
    }
  }

  /** The last events name the released rows one by one: whose hold it was, and which seat of which screening. */
  ghost predicate Notified(released: seq<ExpiredHold>, events: seq<Event>) {
    |released| <= |events| &&
    forall i | 0 <= i < |released| ::
      var e := events[|events| - |released| + i];
      e.HoldExpired? && e.userId == released[i].userId && e.screeningId == released[i].screeningId && e.seatId == released[i].seatId
  }

  /** Writing one row changes the availability of no seat but its own. */
  lemma OnlyItsSeat(rows: Reservations, id: int, row: Reservation)
    requires id in rows ==> rows[id].SameSeat(row)
    ensures forall s, x | !(s == row.screeningId && x == row.seatId) :: Taken(rows[id := row], s, x) == Taken(rows, s, x)
  {
    forall s, x | !(s == row.screeningId && x == row.seatId)
      ensures Taken(rows[id := row], s, x) == Taken(rows, s, x)
    {
      if j :| j in rows && rows[j].Active() && rows[j].screeningId == s && rows[j].seatId == x {
        assert rows[id := row][j] == rows[j];
      }
    }
  }

  lemma ConfirmSilentIff(rows: Reservations, id: int, events: seq<Event>)
    requires id in rows && |events| == 1 && events[0].ReservationConfirmed?
    requires rows[id].Active() || !Taken(rows, rows[id].screeningId, rows[id].seatId)
    ensures Announces(events, rows, rows[id := ConfirmedRow(rows[id])]) <==> rows[id].Active()
  {
    var after := rows[id := ConfirmedRow(rows[id])];
    OnlyItsSeat(rows, id, ConfirmedRow(rows[id]));
    assert after[id].Active();
    assert Taken(after, rows[id].screeningId, rows[id].seatId);
  }

  lemma {:induction false} SeatListed(released: seq<ExpiredHold>, k: nat)
    requires k < |released|
    ensures released[k].seatId in SeatsOf(released, released[k].screeningId)
  {
    if k < |released| - 1 {
      SeatListed(released[..|released| - 1], k);
    }
  }

  /** The sweep's events name every seat it frees. */
  lemma SweepAnnounced(rows: Reservations, now: int, released: seq<ExpiredHold>)
    requires Lists(released, rows, now)
    ensures Announces(SweepEvents(released), rows, Swept(rows, now))
  {
    var screenings := ScreeningsOf(released);
    var events := CancelEvents(released, screenings) + ExpiryEvents(released);
    forall s, x | Taken(rows, s, x) != Taken(Swept(rows, now), s, x) ensures Names(events, s, x) {
      FreedExpired(rows, now, s, x);
      var id :| id in rows && Expired(rows[id], now) && rows[id].screeningId == s && rows[id].seatId == x;
      var k :| 0 <= k < |released| && released[k].id == id;
      SeatListed(released, k);
      ScreeningsDistinct(released);
      assert s in screenings;
      var i :| 0 <= i < |screenings| && screenings[i] == s;
      assert events[i] == ReservationCancelled(s, SeatsOf(released, s)) && Drops(events[i], s);
    }
  }

  lemma FreedExpired(rows: Reservations, now: int, s: int, x: int)
    ensures Taken(rows, s, x) != Taken(Swept(rows, now), s, x) ==>
              exists id | id in rows :: Expired(rows[id], now) && rows[id].screeningId == s && rows[id].seatId == x
  {
    var after := Swept(rows, now);
    if j :| j in rows && rows[j].Active() && rows[j].screeningId == s && rows[j].seatId == x {
      assert j in after && (Expired(rows[j], now) || after[j] == rows[j]);
    }
  }

  /** The (screening, seat) pairs that the CANCELLED events among these announce. */
  function Announced(events: seq<Event>): multiset<(int, int)> {
    if events == [] then multiset{}
    else
      var e := events[|events| - 1];
      var earlier := Announced(events[..|events| - 1]);
      if e.ReservationCancelled? then earlier + Tagged(e.screeningId, e.seatIds) else earlier
  }

  /** Everything a sweep that released these rows emits. */
  function SweepEvents(released: seq<ExpiredHold>): seq<Event> {
    CancelEvents(released, ScreeningsOf(released)) + ExpiryEvents(released)
  }

  function Tagged(screeningId: int, seatIds: seq<int>): multiset<(int, int)> {
    if seatIds == [] then multiset{}
    else Tagged(screeningId, seatIds[..|seatIds| - 1]) + multiset{(screeningId, seatIds[|seatIds| - 1])}
  }

  /** The (screening, seat) pairs of the released rows. */
  function Pairs(released: seq<ExpiredHold>): multiset<(int, int)> {
    if released == [] then multiset{}
    else
      var h := released[|released| - 1];
      Pairs(released[..|released| - 1]) + multiset{(h.screeningId, h.seatId)}
  }

  lemma {:induction false} ScreeningsDistinct(released: seq<ExpiredHold>)
    ensures forall i, j | 0 <= i < j < |ScreeningsOf(released)| :: ScreeningsOf(released)[i] != ScreeningsOf(released)[j]
    ensures forall s :: s in ScreeningsOf(released) <==> exists k | 0 <= k < |released| :: released[k].screeningId == s
  {
    if released != [] {
      var rest := released[..|released| - 1];
      ScreeningsDistinct(rest);
      forall s | exists k | 0 <= k < |released| :: released[k].screeningId == s
        ensures s in ScreeningsOf(released)
      {
        var k :| 0 <= k < |released| && released[k].screeningId == s;
        if k < |rest| {
          assert rest[k] == released[k];
        }
      }
    }
  }

  lemma {:induction false} TaggedCount(screeningId: int, seatIds: seq<int>, s: int, x: int)
    ensures Tagged(screeningId, seatIds)[(s, x)] == if s == screeningId then multiset(seatIds)[x] else 0
  {
    if seatIds != [] {
      TaggedCount(screeningId, seatIds[..|seatIds| - 1], s, x);
      assert seatIds == seatIds[..|seatIds| - 1] + [seatIds[|seatIds| - 1]];
    }
  }

  lemma {:induction false} PairsCount(released: seq<ExpiredHold>, s: int, x: int)
    ensures Pairs(released)[(s, x)] == multiset(SeatsOf(released, s))[x]
  {
    if released != [] {
      PairsCount(released[..|released| - 1], s, x);
    }
  }

  lemma {:induction false} AnnouncedCount(released: seq<ExpiredHold>, screenings: seq<int>, s: int, x: int)
    requires forall i, j | 0 <= i < j < |screenings| :: screenings[i] != screenings[j]
    ensures Announced(CancelEvents(released, screenings))[(s, x)] == if s in screenings then multiset(SeatsOf(released, s))[x] else 0
  {
    if screenings != [] {
      var last := screenings[|screenings| - 1];
      var rest := screenings[..|screenings| - 1];
      AnnouncedCount(released, rest, s, x);
      TaggedCount(last, SeatsOf(released, last), s, x);
      assert screenings == rest + [last];
      AnnouncedLast(released, screenings);
    }
  }

  lemma AnnouncedLast(released: seq<ExpiredHold>, screenings: seq<int>)
    requires screenings != []
    ensures var last, rest := screenings[|screenings| - 1], screenings[..|screenings| - 1];
            Announced(CancelEvents(released, screenings)) ==
            Announced(CancelEvents(released, rest)) + Tagged(last, SeatsOf(released, last))
  {
    var rest := screenings[..|screenings| - 1];
    assert CancelEvents(released, screenings)[..|rest|] == CancelEvents(released, rest);
  }

  /** HOLD_EXPIRED events free no seat. */
  lemma {:induction false} ExpiryAnnouncesNothing(events: seq<Event>, released: seq<ExpiredHold>, n: nat)
    requires n <= |released|
    ensures Announced(events + ExpiryEvents(released)[..n]) == Announced(events)
  {
    if n == 0 {
      assert events + ExpiryEvents(released)[..0] == events;
    } else {
      ExpiryAnnouncesNothing(events, released, n - 1);
      assert (events + ExpiryEvents(released)[..n])[..|events| + n - 1] == events + ExpiryEvents(released)[..n - 1];
    }
  }

  /** The events of a sweep announce exactly the released rows: nothing lost, nothing twice. */
  lemma SweepConserves(released: seq<ExpiredHold>)
    ensures Announced(SweepEvents(released)) == Pairs(released)
  {
    var screenings := ScreeningsOf(released);
    var cancels := CancelEvents(released, screenings);
    ExpiryAnnouncesNothing(cancels, released, |released|);
    assert ExpiryEvents(released)[..|released|] == ExpiryEvents(released);
    ScreeningsDistinct(released);
    forall p: (int, int) ensures Announced(cancels)[p] == Pairs(released)[p] {
      AnnouncedCount(released, screenings, p.0, p.1);
      PairsCount(released, p.0, p.1);
      if p.0 !in screenings {
        NoSeats(released, p.0);
      }
    }
  }

  lemma {:induction false} NoSeats(released: seq<ExpiredHold>, s: int)
    requires forall k | 0 <= k < |released| :: released[k].screeningId != s
    ensures SeatsOf(released, s) == []
  {
    if released != [] {
      NoSeats(released[..|released| - 1], s);
    }
  }

  /** Since active rows are unique per seat, every freed (screening, seat) is announced exactly once. */
  lemma {:induction false} PairsUnique(released: seq<ExpiredHold>, rows: Reservations, now: int, k: nat)
    requires UniqueActive(rows) && Lists(released, rows, now) && k < |released|
    ensures Announced(SweepEvents(released))[(released[k].screeningId, released[k].seatId)] == 1
  {
    SweepConserves(released);
    PairsUpTo(released, rows, now, |released|, k);
    assert released[..|released|] == released;
  }

  lemma {:induction false} PairsUpTo(released: seq<ExpiredHold>, rows: Reservations, now: int, n: nat, k: nat)
    requires UniqueActive(rows) && Lists(released, rows, now) && n <= |released| && k < |released|
    ensures Pairs(released[..n])[(released[k].screeningId, released[k].seatId)] == if k < n then 1 else 0
  {
    if n > 0 {
      assert released[..n][..n - 1] == released[..n - 1];
      PairsUpTo(released, rows, now, n - 1, k);
      var h, g := released[n - 1], released[k];
      assert h.id in rows && g.id in rows && rows[h.id].Active() && rows[g.id].Active();
    }
  }

  /** Three released rows of two screenings: the Map keeps the order in which it met screenings and seats. */
  lemma GroupedInOrder()
    ensures var released := [ExpiredHold(1, 10, 6, 3), ExpiredHold(2, 11, 5, 9), ExpiredHold(3, 12, 6, 1)];
            ScreeningsOf(released) == [6, 5] && SeatsOf(released, 6) == [3, 1] && SeatsOf(released, 5) == [9]
  {
    var released := [ExpiredHold(1, 10, 6, 3), ExpiredHold(2, 11, 5, 9), ExpiredHold(3, 12, 6, 1)];
    assert released[..2][..1][..0] == [] && released[..2][..1][0] == released[0] && released[..2][1] == released[1];
    assert ScreeningsOf(released[..2][..1]) == [6] && SeatsOf(released[..2][..1], 6) == [3] && SeatsOf(released[..2][..1], 5) == [];
    assert ScreeningsOf(released[..2]) == [6, 5] && SeatsOf(released[..2], 6) == [3] && SeatsOf(released[..2], 5) == [9];
  }
}
