/** Screening edits: one hall never shows two films at once. */
module Scheduling {
  import opened Tables

  /** Minutes per film. */
  type Durations = map<int, int>

  /** Fields an update leaves out keep their value. */
  datatype Patch = Patch(movieId: Option<int>, hallId: Option<int>, startTime: Option<int>, price: Option<nat>)

  datatype Result = Done(id: int) | NotFound | Overlapping | AlreadyCancelled | HasReservations

  function ComputeEnd(start: int, minutes: int): int {
    start + minutes * 60000
  }

  /** The filter of findOverlapping, on [start, end) and [otherStart, otherEnd). */
  predicate Meets(start: int, end: int, otherStart: int, otherEnd: int) {
    otherStart < end && otherEnd > start
  }

  predicate On(t: int, start: int, end: int) {
    start <= t < end
  }

  /** It says that some instant lies in both intervals, as neither is empty. */
  lemma MeetsIffSharesInstant(start: int, end: int, otherStart: int, otherEnd: int)
    requires start < end && otherStart < otherEnd
    ensures Meets(start, end, otherStart, otherEnd) <==> exists t :: On(t, start, end) && On(t, otherStart, otherEnd)
  {
    if Meets(start, end, otherStart, otherEnd) {
      var t := if start < otherStart then otherStart else start;
      assert On(t, start, end) && On(t, otherStart, otherEnd);
    }
  }

  /** Some other non-cancelled screening of the hall meets [start, end). */
  predicate Occupied(screenings: Screenings, durations: Durations, hallId: int, start: int, end: int, except: Option<int>)
    requires forall id | id in screenings :: screenings[id].movieId in durations
  {
    exists id | id in screenings ::
      screenings[id].hallId == hallId && screenings[id].status != ScreenCancelled && except != Some(id)
      && Meets(start, end, screenings[id].startTime, ComputeEnd(screenings[id].startTime, durations[screenings[id].movieId]))
  }

  ghost predicate WellFormed(screenings: Screenings, durations: Durations) {
    && (forall id | id in screenings :: screenings[id].movieId in durations)
    && (forall m | m in durations :: durations[m] >= 1)
  }

  /** At no instant does a hall show two non-cancelled screenings. */
  ghost predicate Disjoint(screenings: Screenings, durations: Durations)
    requires WellFormed(screenings, durations)
  {
    forall i, j, t | i in screenings && j in screenings && i != j
      && screenings[i].status != ScreenCancelled && screenings[j].status != ScreenCancelled
      && screenings[i].hallId == screenings[j].hallId ::
      !(Showing(screenings[i], durations, t) && Showing(screenings[j], durations, t))
  }

  predicate Showing(s: Screening, durations: Durations, t: int)
    requires s.movieId in durations
  {
    s.startTime <= t < s.startTime + durations[s.movieId] * 60000
  }

  /** At some instant of the film's minutes from `start` on, the hall shows another non-cancelled screening. */
  ghost predicate SharesInstant(screenings: Screenings, durations: Durations, hallId: int, start: int, minutes: int, except: int)
    requires forall id | id in screenings :: screenings[id].movieId in durations
  {
    exists other, t | other in screenings && other != except
      && screenings[other].hallId == hallId && screenings[other].status != ScreenCancelled ::
      start <= t < start + minutes * 60000 && Showing(screenings[other], durations, t)
  }

  /** The overlap check finds something exactly when an instant is shared. */
  lemma OccupiedIffShares(screenings: Screenings, durations: Durations, hallId: int, start: int, minutes: int, except: int)
    requires WellFormed(screenings, durations) && minutes >= 1
    ensures Occupied(screenings, durations, hallId, start, ComputeEnd(start, minutes), Some(except)) <==>
            SharesInstant(screenings, durations, hallId, start, minutes, except)
  {
    if Occupied(screenings, durations, hallId, start, ComputeEnd(start, minutes), Some(except)) {
      var id :| id in screenings && screenings[id].hallId == hallId && screenings[id].status != ScreenCancelled && id != except
        && Meets(start, ComputeEnd(start, minutes), screenings[id].startTime,
                 ComputeEnd(screenings[id].startTime, durations[screenings[id].movieId]));
      var t := if start < screenings[id].startTime then screenings[id].startTime else start;
      assert Showing(screenings[id], durations, t);
    }
  }

  /** A 90-minute screening from midnight has its hall until its last millisecond and no longer. */
  lemma LastMillisecond()
    ensures ComputeEnd(0, 90) == 5400000
    ensures Showing(Screening(1, 1, 0, Scheduled, 10), map[1 := 90], 5399999)
    ensures !Showing(Screening(1, 1, 0, Scheduled, 10), map[1 := 90], 5400000)
  {
  }

  /** Writing a non-cancelled screening keeps the hall free of clashes exactly when the overlap check passes. */
  lemma WriteKeepsDisjointIff(screenings: Screenings, durations: Durations, id: int, s: Screening)
    requires WellFormed(screenings, durations) && Disjoint(screenings, durations)
    requires s.movieId in durations && s.status != ScreenCancelled
    ensures WellFormed(screenings[id := s], durations)
    ensures Disjoint(screenings[id := s], durations) <==>
            !Occupied(screenings, durations, s.hallId, s.startTime, ComputeEnd(s.startTime, durations[s.movieId]), Some(id))
  {
    var after := screenings[id := s];
    var end := ComputeEnd(s.startTime, durations[s.movieId]);
    forall j | j in screenings && j != id && screenings[j].hallId == s.hallId && screenings[j].status != ScreenCancelled
      ensures Meets(s.startTime, end, screenings[j].startTime, ComputeEnd(screenings[j].startTime, durations[screenings[j].movieId])) <==>
              exists t :: Showing(s, durations, t) && Showing(screenings[j], durations, t)
    {
      var o := screenings[j];
      var oEnd := ComputeEnd(o.startTime, durations[o.movieId]);
      MeetsIffSharesInstant(s.startTime, end, o.startTime, oEnd);
      if Meets(s.startTime, end, o.startTime, oEnd) {
        var t :| On(t, s.startTime, end) && On(t, o.startTime, oEnd);
        assert Showing(s, durations, t) && Showing(o, durations, t);
      }
      if t :| Showing(s, durations, t) && Showing(o, durations, t) {
        assert On(t, s.startTime, end) && On(t, o.startTime, oEnd);
      }
    }
    if Occupied(screenings, durations, s.hallId, s.startTime, end, Some(id)) {
      var j :| j in screenings && screenings[j].hallId == s.hallId && screenings[j].status != ScreenCancelled && j != id
        && Meets(s.startTime, end, screenings[j].startTime, ComputeEnd(screenings[j].startTime, durations[screenings[j].movieId]));
      var t :| Showing(s, durations, t) && Showing(screenings[j], durations, t);
      assert after[j] == screenings[j] && after[id] == s;
    }
  }

  /** Two creates that both passed their check before either inserted clash exactly when they meet each other. */
  lemma RacingCreatesIff(screenings: Screenings, durations: Durations, i: int, a: Screening, j: int, b: Screening)
    requires WellFormed(screenings, durations) && Disjoint(screenings, durations)
    requires i !in screenings && j !in screenings && i != j && a.movieId in durations && b.movieId in durations
    requires a.status == Scheduled && b.status == Scheduled && a.hallId == b.hallId
    requires !Occupied(screenings, durations, a.hallId, a.startTime, ComputeEnd(a.startTime, durations[a.movieId]), None)
    requires !Occupied(screenings, durations, b.hallId, b.startTime, ComputeEnd(b.startTime, durations[b.movieId]), None)
    ensures WellFormed(screenings[i := a][j := b], durations)
    ensures Disjoint(screenings[i := a][j := b], durations) <==>
            !Meets(b.startTime, ComputeEnd(b.startTime, durations[b.movieId]), a.startTime, ComputeEnd(a.startTime, durations[a.movieId]))
  {
    WriteKeepsDisjointIff(screenings, durations, i, a);
    WriteKeepsDisjointIff(screenings[i := a], durations, j, b);
    var one := screenings[i := a];
    var bEnd := ComputeEnd(b.startTime, durations[b.movieId]);
    if Meets(b.startTime, bEnd, a.startTime, ComputeEnd(a.startTime, durations[a.movieId])) {
      assert one[i] == a;
    }
    if Occupied(one, durations, b.hallId, b.startTime, bEnd, Some(j)) {
      var k :| k in one && one[k].hallId == b.hallId && one[k].status != ScreenCancelled && k != j
        && Meets(b.startTime, bEnd, one[k].startTime, ComputeEnd(one[k].startTime, durations[one[k].movieId]));
      assert k != i ==> k in screenings && screenings[k] == one[k];
    }
  }

  /** A concrete race: two 90-minute screenings an hour apart pass their checks on an empty hall, and clash. */
  lemma RacingCreatesClash()
    ensures var durations: Durations := map[1 := 90];
            var a, b := Screening(1, 1, 0, Scheduled, 10), Screening(1, 1, 60 * 60000, Scheduled, 10);
            && !Occupied(map[], durations, 1, a.startTime, ComputeEnd(a.startTime, 90), None)
            && !Occupied(map[], durations, 1, b.startTime, ComputeEnd(b.startTime, 90), None)
            && WellFormed(map[][0 := a][1 := b], durations) && !Disjoint(map[][0 := a][1 := b], durations)
  {
    var durations: Durations := map[1 := 90];
    var a, b := Screening(1, 1, 0, Scheduled, 10), Screening(1, 1, 60 * 60000, Scheduled, 10);
    RacingCreatesIff(map[], durations, 0, a, 1, b);
  }

  /** A concrete edit: two screenings back to back, and the film grows by half an hour. */
  lemma DurationChangeClash()
    ensures var screenings: Screenings := map[0 := Screening(1, 1, 0, Scheduled, 10), 1 := Screening(1, 1, 90 * 60000, Scheduled, 10)];
            && WellFormed(screenings, map[1 := 90]) && Disjoint(screenings, map[1 := 90])
            && WellFormed(screenings, map[1 := 120]) && !Disjoint(screenings, map[1 := 120])
  {
    var screenings: Screenings := map[0 := Screening(1, 1, 0, Scheduled, 10), 1 := Screening(1, 1, 90 * 60000, Scheduled, 10)];
    assert screenings[0].startTime < screenings[1].startTime;
    DurationChangeIff(screenings, map[1 := 90], 1, 120);
    assert map[1 := 90][1 := 120] == map[1 := 120];
  }

  /** A film's new duration, with no overlap check of its own, is safe exactly when every screening of the film
      still ends before the next one in its hall begins. */
  lemma DurationChangeIff(screenings: Screenings, durations: Durations, movieId: int, minutes: int)
    requires WellFormed(screenings, durations) && Disjoint(screenings, durations) && movieId in durations && minutes >= 1
    ensures WellFormed(screenings, durations[movieId := minutes])
    ensures Disjoint(screenings, durations[movieId := minutes]) <==>
            forall i, j | i in screenings && j in screenings && screenings[i].movieId == movieId
              && screenings[i].status != ScreenCancelled && screenings[j].status != ScreenCancelled
              && screenings[i].hallId == screenings[j].hallId && screenings[i].startTime < screenings[j].startTime ::
              ComputeEnd(screenings[i].startTime, minutes) <= screenings[j].startTime
  {
    var after := durations[movieId := minutes];
    if Disjoint(screenings, after) {
      forall i, j | i in screenings && j in screenings && screenings[i].movieId == movieId
        && screenings[i].status != ScreenCancelled && screenings[j].status != ScreenCancelled
        && screenings[i].hallId == screenings[j].hallId && screenings[i].startTime < screenings[j].startTime
        ensures ComputeEnd(screenings[i].startTime, minutes) <= screenings[j].startTime
      {
        var t := screenings[j].startTime;
        assert Showing(screenings[j], after, t);
        assert !Showing(screenings[i], after, t);
      }
    } else {
      var i, j, t :| i in screenings && j in screenings && i != j
        && screenings[i].status != ScreenCancelled && screenings[j].status != ScreenCancelled
        && screenings[i].hallId == screenings[j].hallId
        && Showing(screenings[i], after, t) && Showing(screenings[j], after, t);
      SameStart(screenings, durations, i, j);
      var first, second := if screenings[i].startTime < screenings[j].startTime then i else j,
                           if screenings[i].startTime < screenings[j].startTime then j else i;
      if screenings[first].movieId != movieId {
        var u := screenings[second].startTime;
        assert Showing(screenings[first], durations, u) && Showing(screenings[second], durations, u);
        assert false;
      }
    }
  }

  /** Disjoint screenings of a hall start at different times. */
  lemma SameStart(screenings: Screenings, durations: Durations, i: int, j: int)
    requires WellFormed(screenings, durations) && Disjoint(screenings, durations)
    requires i in screenings && j in screenings && i != j && screenings[i].hallId == screenings[j].hallId
    requires screenings[i].status != ScreenCancelled && screenings[j].status != ScreenCancelled
    ensures screenings[i].startTime != screenings[j].startTime
  {
    var t := screenings[i].startTime;
    assert Showing(screenings[i], durations, t);
  }

  class ScreeningsService {
    var screenings: Screenings
    var durations: Durations
    var halls: set<int>
    var reserved: set<int>
    var nextId: int

    ghost predicate Valid()
      reads this
    {
      && WellFormed(screenings, durations) && Disjoint(screenings, durations)
      && (forall id | id in screenings :: id < nextId && screenings[id].hallId in halls)
    }

    constructor (durations: Durations, halls: set<int>)
      requires forall m | m in durations :: durations[m] >= 1
      ensures Valid() && screenings == map[] && this.durations == durations && this.halls == halls
    {
      screenings, reserved, nextId := map[], {}, 0;
      this.durations, this.halls := durations, halls;
    }

    method CreateScreening(movieId: int, hallId: int, startTime: int, price: nat) returns (r: Result)
      requires Valid()
      modifies `screenings, `nextId
      ensures Valid()
      ensures r == if movieId !in durations || hallId !in halls then NotFound
                   else if Occupied(old(screenings), durations, hallId, startTime, ComputeEnd(startTime, durations[movieId]), None)
                     then Overlapping
                   else Done(old(nextId))
      ensures r == Overlapping <==>
                (movieId in durations && hallId in halls
                 && SharesInstant(old(screenings), durations, hallId, startTime, durations[movieId], old(nextId)))
      ensures r.Done? ==> r.id !in old(screenings)
      ensures r.Done? ==> screenings == old(screenings)[r.id := Screening(movieId, hallId, startTime, Scheduled, price)]
      ensures !r.Done? ==> screenings == old(screenings)
    {
      if movieId !in durations {
        return NotFound;
      }
      if hallId !in halls {
        return NotFound;
      }
      var end := ComputeEnd(startTime, durations[movieId]);
      OccupiedIffShares(screenings, durations, hallId, startTime, durations[movieId], nextId);
      assert Occupied(screenings, durations, hallId, startTime, end, None) == Occupied(screenings, durations, hallId, startTime, end, Some(nextId));
      if Occupied(screenings, durations, hallId, startTime, end, None) {
        return Overlapping;
      }
      var id := nextId;
      var s := Screening(movieId, hallId, startTime, Scheduled, price);
      WriteKeepsDisjointIff(screenings, durations, id, s);
      screenings, nextId := screenings[id := s], nextId + 1;
      return Done(id);
    }

    method UpdateScreening(id: int, patch: Patch) returns (r: Result)
      requires Valid()
      modifies `screenings
      ensures Valid()
      ensures r == if id !in old(screenings) then NotFound
                   else
                     var s := Patched(old(screenings)[id], patch);
                     if s.movieId !in durations || s.hallId !in halls then NotFound
                     else if Occupied(old(screenings), durations, s.hallId, s.startTime,
                                      ComputeEnd(s.startTime, durations[s.movieId]), Some(id)) then Overlapping
                     else Done(id)
      ensures r == NotFound <==> id !in old(screenings) || (patch.movieId.Some? && patch.movieId.value !in durations)
                                 || (patch.hallId.Some? && patch.hallId.value !in halls)
      ensures r.Done? ==> screenings.Keys == old(screenings).Keys && id in screenings
      ensures r.Done? ==> forall other | other in screenings && other != id :: screenings[other] == old(screenings)[other]
      ensures r.Done? ==>
                var was, row := old(screenings)[id], screenings[id];
                && row.movieId == (if patch.movieId.Some? then patch.movieId.value else was.movieId)
                && row.hallId == (if patch.hallId.Some? then patch.hallId.value else was.hallId)
                && row.startTime == (if patch.startTime.Some? then patch.startTime.value else was.startTime)
                && row.price == (if patch.price.Some? then patch.price.value else was.price)
                && row.status == was.status
      ensures r != NotFound ==>
                var was := old(screenings)[id];
                var film := if patch.movieId.Some? then patch.movieId.value else was.movieId;
                var hall := if patch.hallId.Some? then patch.hallId.value else was.hallId;
                var start := if patch.startTime.Some? then patch.startTime.value else was.startTime;
                film in durations && (r == Overlapping <==> SharesInstant(old(screenings), durations, hall, start, durations[film], id))
      ensures !r.Done? ==> screenings == old(screenings)
    {
      if id !in screenings {
        return NotFound;
      }
      var existing := screenings[id];
      var hallId := if patch.hallId.Some? then patch.hallId.value else existing.hallId;
      var start := if patch.startTime.Some? then patch.startTime.value else existing.startTime;
      var duration := durations[existing.movieId];
      if patch.movieId.Some? && patch.movieId.value != existing.movieId {
        if patch.movieId.value !in durations {
          return NotFound;
        }
        duration := durations[patch.movieId.value];
      }
      if patch.hallId.Some? && patch.hallId.value != existing.hallId {
        if patch.hallId.value !in halls {
          return NotFound;
        }
      }
      var end := ComputeEnd(start, duration);
      OccupiedIffShares(screenings, durations, hallId, start, duration, id);
      if Occupied(screenings, durations, hallId, start, end, Some(id)) {
        return Overlapping;
      }
      var s := Patched(existing, patch);
      if s.status != ScreenCancelled {
        WriteKeepsDisjointIff(screenings, durations, id, s);
      }
      screenings := screenings[id := s];
      return Done(id);
    }

    method CancelScreening(id: int) returns (r: Result)
      requires Valid()
      modifies `screenings
      ensures Valid()
      ensures r == if id !in old(screenings) then NotFound
                   else if old(screenings)[id].status == ScreenCancelled then AlreadyCancelled else Done(id)
      ensures r.Done? ==> id in old(screenings)
      ensures r.Done? ==> screenings == old(screenings)[id := old(screenings)[id].(status := ScreenCancelled)]
      ensures !r.Done? ==> screenings == old(screenings)
    {
      if id !in screenings {
        return NotFound;
      }
      if screenings[id].status == ScreenCancelled {
        return AlreadyCancelled;
      }
      screenings := screenings[id := screenings[id].(status := ScreenCancelled)];
      return Done(id);
    }

    method DeleteScreening(id: int) returns (r: Result)
      requires Valid()
      modifies `screenings
      ensures Valid()
      ensures r == if id !in old(screenings) then NotFound else if id in reserved then HasReservations else Done(id)
      ensures screenings == if r.Done? then old(screenings) - {id} else old(screenings)
    {
      if id !in screenings {
        return NotFound;
      }
      if id in reserved {
        return HasReservations;
      }
      screenings := screenings - {id};
      return Done(id);
    }
  }

  function Patched(s: Screening, patch: Patch): Screening {
    s.(movieId := if patch.movieId.Some? then patch.movieId.value else s.movieId,
       hallId := if patch.hallId.Some? then patch.hallId.value else s.hallId,
       startTime := if patch.startTime.Some? then patch.startTime.value else s.startTime,
       price := if patch.price.Some? then patch.price.value else s.price)
  }
}
