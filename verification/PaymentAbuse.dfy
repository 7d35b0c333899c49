/** The payment-abuse lockout: three failures in a rolling day block new reservations for half an hour. */
module PaymentAbuse {
  import opened Tables
  import opened SortedSets

  const WINDOW_MS := 24 * 60 * 60000
  const LOCKOUT_MS := 30 * 60000
  const FAILURE_THRESHOLD := 3

  /** The two Redis keys of one user. */
  datatype Keys = Keys(failures: Key, lockedUntil: Option<int>)

  function Record(keys: Keys, e: Entry): Keys {
    var added := PExpire(ZAdd(Live(keys.failures, e.at), e.at, e.member), e.at, WINDOW_MS);
    var pruned := ZRemRangeByScore(added, 0, e.at - WINDOW_MS);
    Keys(pruned, if ZCard(pruned) >= FAILURE_THRESHOLD then Some(e.at + LOCKOUT_MS) else keys.lockedUntil)
  }

  predicate IsLockedOut(keys: Keys, t: int) {
    keys.lockedUntil.Some? && t < keys.lockedUntil.value
  }

  class PaymentAbuseService {
    var failures: Key
    var lockedUntil: Option<int>
    ghost var log: seq<Entry>

    /** The two keys are what recording the log leaves behind. */
    ghost predicate Valid()
      reads this
    {
      Sorted(log) && Distinct(log) && Keys(failures, lockedUntil) == RecordAll(log)
    }

    constructor ()
      ensures Valid() && log == []
    {
      failures, lockedUntil, log := Absent, None, [];
    }

    method RecordFailure(now: int, member: Member)
      requires Valid() && LastAt(log) <= now && NewTo(log, member)
      modifies this
      ensures Valid() && log == old(log) + [Entry(now, member)]
    {
      LogMore(log, Entry(now, member));
      RecordAllMore(log, Entry(now, member));
      SendCommands(now, member);
      log := log + [Entry(now, member)];
    }

    /** The separate commands of recordFailure, back to back. */
    method SendCommands(now: int, member: Member)
      modifies `failures, `lockedUntil
      ensures Keys(failures, lockedUntil) == Record(Keys(old(failures), old(lockedUntil)), Entry(now, member))
    {
      failures := ZAdd(Live(failures, now), now, member);
      failures := PExpire(failures, now, WINDOW_MS);
      failures := ZRemRangeByScore(failures, 0, now - WINDOW_MS);
      var count := ZCard(failures);
      if count >= FAILURE_THRESHOLD {
        lockedUntil := Some(now + LOCKOUT_MS);
      }
    }

    /** True exactly when some failure of the last half hour was at least the third of its day. */
    method LockedOut(now: int) returns (yes: bool)
      requires Valid() && LastAt(log) <= now
      ensures yes <==> exists f | FailedAt(log, f) :: f <= now < f + 1800000 && InWindow(log, f - 86400000, f) >= 3
    {
      LockoutIff(log, now);
      yes := lockedUntil.Some? && now < lockedUntil.value;
    }
  }

  function RecordAll(log: seq<Entry>): Keys {
    if log == [] then Keys(Absent, None) else Record(RecordAll(log[..|log| - 1]), log[|log| - 1])
  }

  lemma LogMore(log: seq<Entry>, e: Entry)
    requires Sorted(log) && Distinct(log) && LastAt(log) <= e.at && NewTo(log, e.member)
    ensures Sorted(log + [e]) && Distinct(log + [e])
  {
  }

  lemma RecordAllMore(log: seq<Entry>, e: Entry)
    ensures RecordAll(log + [e]) == Record(RecordAll(log), e)
  {
    assert (log + [e])[..|log|] == log;
  }

  /** The i-th failure found two others in its window when it was recorded. */
  predicate Locks(log: seq<Entry>, i: nat)
    requires i < |log|
  {
    i + 1 - Older(log[..i + 1], log[i].at - WINDOW_MS) >= FAILURE_THRESHOLD
  }

  lemma PrefixOlder(log: seq<Entry>, n: nat, x: int)
    requires Sorted(log) && n <= |log|
    ensures Older(log[..n], x) == if Older(log, x) < n then Older(log, x) else n
  {
    OlderSpec(log, x);
    OlderSpec(log[..n], x);
    var m := Older(log[..n], x);
    if m < n {
      assert log[..n][m] == log[m] && !(log[m].at <= x);
    }
    if m > 0 {
      assert log[..n][m - 1] == log[m - 1];
    }
  }

  function LastAt(log: seq<Entry>): int {
    if log == [] then 0 else log[|log| - 1].at
  }

  /** The set is what the log still has in the window of its newest entry. */
  ghost predicate InStep(failures: Key, log: seq<Entry>) {
    var cut := Older(log, LastAt(log) - WINDOW_MS);
    cut <= |log| && Tail(failures, log, LastAt(log), WINDOW_MS, cut)
  }

  /** ZADD, PEXPIRE and ZREMRANGEBYSCORE on a live key. */
  lemma AddAndTrim(live: Key, rest: seq<Entry>, kept: nat, e: Entry, log: seq<Entry>)
    requires log == rest + [e] && Sorted(rest) && LastAt(rest) <= e.at && Tail(live, rest, e.at, WINDOW_MS, kept)
    requires Sorted(log) && Distinct(log)
    ensures var added := PExpire(ZAdd(live, e.at, e.member), e.at, WINDOW_MS);
            InStep(ZRemRangeByScore(added, 0, e.at - WINDOW_MS), log)
  {
    AddedTail(live, rest, kept, e, WINDOW_MS);
    var added := PExpire(ZAdd(live, e.at, e.member), e.at, WINDOW_MS);
    assert Tail(added, log, e.at, WINDOW_MS, kept);
    PrunedLiveIsTail(added, log, e.at, WINDOW_MS, kept);
  }

  lemma RecordInStep(before: Keys, rest: seq<Entry>, e: Entry, log: seq<Entry>)
    requires log == rest + [e] && Sorted(rest) && LastAt(rest) <= e.at && InStep(before.failures, rest)
    requires Sorted(log) && Distinct(log)
    ensures InStep(Record(before, e).failures, log)
  {
    var cut := Older(rest, LastAt(rest) - WINDOW_MS);
    var kept := LiveTail(before.failures, rest, LastAt(rest), e.at, WINDOW_MS, cut);
    AddAndTrim(Live(before.failures, e.at), rest, kept, e, log);
  }

  lemma {:induction false} FailuresInStep(log: seq<Entry>)
    requires Sorted(log) && Distinct(log)
    ensures InStep(RecordAll(log).failures, log)
  {
    if log == [] {
      assert Tail(Absent, log, 0, WINDOW_MS, 0);
    } else {
      var rest, e := log[..|log| - 1], log[|log| - 1];
      PrefixOk(log, |rest|);
      FailuresInStep(rest);
      assert log == rest + [e];
      RecordInStep(RecordAll(rest), rest, e, log);
    }
  }

  lemma InStepCard(failures: Key, log: seq<Entry>)
    requires Distinct(log) && InStep(failures, log)
    ensures ZCard(failures) == |log| - Older(log, LastAt(log) - WINDOW_MS)
  {
    TailCard(failures, log, LastAt(log), WINDOW_MS, Older(log, LastAt(log) - WINDOW_MS));
  }

  lemma LocksNewest(log: seq<Entry>)
    requires log != []
    ensures Locks(log, |log| - 1) <==> |log| - Older(log, LastAt(log) - WINDOW_MS) >= FAILURE_THRESHOLD
  {
    assert log[..|log|] == log;
  }

  /** The newest failure sets the lockout exactly when it is the third in its window. */
  lemma NewestLocks(log: seq<Entry>)
    requires Sorted(log) && Distinct(log) && log != []
    ensures RecordAll(log).lockedUntil ==
            if Locks(log, |log| - 1) then Some(log[|log| - 1].at + LOCKOUT_MS) else RecordAll(log[..|log| - 1]).lockedUntil
  {
    LocksNewest(log);
    FailuresInStep(log);
    InStepCard(RecordAll(log).failures, log);
  }

  lemma LocksPrefix(log: seq<Entry>, n: nat, i: nat)
    requires i < n <= |log|
    ensures Locks(log[..n], i) == Locks(log, i)
  {
    assert log[..n][..i + 1] == log[..i + 1];
  }

  /** Some failure of the first n set a lockout that still lasts at t. */
  ghost predicate LockedBy(log: seq<Entry>, n: nat, t: int)
    requires n <= |log|
  {
    exists i | 0 <= i < n :: Locks(log, i) && t < log[i].at + LOCKOUT_MS
  }

  lemma LockedByPrefix(log: seq<Entry>, n: nat, t: int)
    requires n <= |log|
    ensures LockedBy(log[..n], n, t) == LockedBy(log, n, t)
  {
    forall i | 0 <= i < n ensures Locks(log[..n], i) == Locks(log, i) && log[..n][i] == log[i] {
      LocksPrefix(log, n, i);
    }
    if LockedBy(log[..n], n, t) {
      var i :| 0 <= i < n && Locks(log[..n], i) && t < log[..n][i].at + LOCKOUT_MS;
      assert Locks(log, i);
    }
    if LockedBy(log, n, t) {
      var i :| 0 <= i < n && Locks(log, i) && t < log[i].at + LOCKOUT_MS;
      assert Locks(log[..n], i);
    }
  }

  lemma {:induction false} LockedByLocks(log: seq<Entry>, t: int)
    requires Sorted(log) && Distinct(log) && (log != [] ==> log[|log| - 1].at <= t)
    ensures IsLockedOut(RecordAll(log), t) <==> LockedBy(log, |log|, t)
  {
    if log != [] {
      var n := |log| - 1;
      PrefixOk(log, n);
      LockedByLocks(log[..n], t);
      LockedByPrefix(log, n, t);
      NewestLocks(log);
      LaterLocksLast(log, n, t);
    }
  }

  /** A later lockout outlasts every earlier one. */
  lemma LaterLocksLast(log: seq<Entry>, n: nat, t: int)
    requires Sorted(log) && n + 1 == |log|
    ensures LockedBy(log, n + 1, t) <==> if Locks(log, n) then t < log[n].at + LOCKOUT_MS else LockedBy(log, n, t)
  {
  }

  /** Some failure of the log happened at f. */
  predicate FailedAt(log: seq<Entry>, f: int) {
    exists i | 0 <= i < |log| :: log[i].at == f
  }

  /** A user is locked out at t exactly when some failure of the last half hour was at least the third
      in the day that ended with it. */
  lemma LockoutIff(log: seq<Entry>, t: int)
    requires Sorted(log) && Distinct(log) && (log != [] ==> log[|log| - 1].at <= t)
    ensures IsLockedOut(RecordAll(log), t) <==>
            exists f | FailedAt(log, f) :: f <= t < f + LOCKOUT_MS && InWindow(log, f - WINDOW_MS, f) >= FAILURE_THRESHOLD
  {
    LockedByLocks(log, t);
    if LockedBy(log, |log|, t) {
      var i :| 0 <= i < |log| && Locks(log, i) && t < log[i].at + LOCKOUT_MS;
      LocksThenWindow(log, i);
      assert FailedAt(log, log[i].at) && log[i].at <= log[|log| - 1].at;
    }
    if f :| FailedAt(log, f) && f <= t < f + LOCKOUT_MS && InWindow(log, f - WINDOW_MS, f) >= FAILURE_THRESHOLD {
      var i := WindowThenLocks(log, f);
      assert LockedBy(log, |log|, t);
    }
  }

  lemma LocksThenWindow(log: seq<Entry>, i: nat)
    requires Sorted(log) && i < |log| && Locks(log, i)
    ensures InWindow(log, log[i].at - WINDOW_MS, log[i].at) >= FAILURE_THRESHOLD
  {
    InWindowSpec(log, log[i].at - WINDOW_MS, log[i].at);
    OlderSpec(log, log[i].at);
    OlderSpec(log, log[i].at - WINDOW_MS);
    PrefixOlder(log, i + 1, log[i].at - WINDOW_MS);
  }

  lemma WindowThenLocks(log: seq<Entry>, f: int) returns (i: nat)
    requires Sorted(log) && FailedAt(log, f) && InWindow(log, f - WINDOW_MS, f) >= FAILURE_THRESHOLD
    ensures i < |log| && log[i].at == f && Locks(log, i)
  {
    InWindowSpec(log, f - WINDOW_MS, f);
    OlderSpec(log, f);
    OlderSpec(log, f - WINDOW_MS);
    i := Older(log, f) - 1;
    var k :| 0 <= k < |log| && log[k].at == f;
    assert k <= i && log[k].at <= log[i].at;
    PrefixOlder(log, i + 1, f - WINDOW_MS);
  }
}
