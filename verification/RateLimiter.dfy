/** The sliding-window limiter against a specification that never forgets an admission. */
module RateLimiter {
  import opened Tables
  import opened SortedSets

  datatype Reply = Reply(allowed: bool, remaining: int, resetAfterMs: int)

  datatype Request = Request(now: int, member: Member)

  class RateLimiterService {
    var key: Key
    const windowSize: int
    const maxRequests: int

    constructor (windowSize: int, maxRequests: int)
      ensures key == Absent && this.windowSize == windowSize && this.maxRequests == maxRequests
    {
      key := Absent;
      this.windowSize, this.maxRequests := windowSize, maxRequests;
    }

    /** The Lua script, command by command. */
    method Limit(req: Request) returns (r: Reply)
      modifies this`key
      ensures Steps(old(key), req, windowSize, maxRequests, key, r)
    {
      key := Live(key, req.now);
      var windowStart := req.now - windowSize;
      key := ZRemRangeByScore(key, 0, windowStart);
      var count := ZCard(key);
      if count < maxRequests {
        key := ZAdd(key, req.now, req.member);
        key := PExpire(key, req.now, windowSize);
        r := Reply(true, maxRequests - count - 1, windowSize);
      } else {
        var resetAfterMs := 0;
        if key.scores != map[] {
          var oldest := Oldest(key);
          resetAfterMs := oldest + windowSize - req.now;
          if resetAfterMs < 0 {
            resetAfterMs := 0;
          }
        }
        r := Reply(false, 0, resetAfterMs);
      }
    }
  }

  function Pruned(key: Key, now: int, windowSize: int): Key {
    ZRemRangeByScore(Live(key, now), 0, now - windowSize)
  }

  /** One call of the script takes `before` to `after` and answers `r`. */
  ghost predicate Steps(before: Key, req: Request, windowSize: int, maxRequests: int, after: Key, r: Reply) {
    var pruned := Pruned(before, req.now, windowSize);
    if ZCard(pruned) < maxRequests then
      after == PExpire(ZAdd(pruned, req.now, req.member), req.now, windowSize)
      && r == Reply(true, maxRequests - ZCard(pruned) - 1, windowSize)
    else
      after == pruned && !r.allowed && r.remaining == 0
      && if pruned.scores == map[] then r.resetAfterMs == 0
         else exists oldest: int :: IsOldest(pruned, oldest)
                && r.resetAfterMs == if oldest + windowSize - req.now < 0 then 0 else oldest + windowSize - req.now
  }

  // ---- The specification: the whole admission log ----

  predicate Admits(log: seq<Entry>, now: int, windowSize: int, maxRequests: int) {
    InWindow(log, now - windowSize, now) < maxRequests
  }

  function Logged(log: seq<Entry>, req: Request, windowSize: int, maxRequests: int): seq<Entry> {
    if Admits(log, req.now, windowSize, maxRequests) then log + [Entry(req.now, req.member)] else log
  }

  function Remaining(log: seq<Entry>, now: int, windowSize: int, maxRequests: int): int {
    if Admits(log, now, windowSize, maxRequests) then maxRequests - InWindow(log, now - windowSize, now) - 1 else 0
  }

  /** Admissions that are maxRequests or more places apart are at least a window apart. */
  ghost predicate Spaced(log: seq<Entry>, windowSize: int, maxRequests: int) {
    forall i, j | 0 <= i <= j < |log| && i + maxRequests <= j :: log[i].at + windowSize <= log[j].at
  }

  /** What the log itself satisfies at time `last`. */
  ghost predicate LogOk(log: seq<Entry>, last: int, windowSize: int, maxRequests: int) {
    Sorted(log) && Distinct(log) && Spaced(log, windowSize, maxRequests) && (log != [] ==> log[|log| - 1].at <= last)
  }

  ghost predicate Represents(key: Key, log: seq<Entry>, last: int, windowSize: int, maxRequests: int) {
    LogOk(log, last, windowSize, maxRequests) && exists cut: nat :: Tail(key, log, last, windowSize, cut)
  }

  /** Neither the pruning nor the key's expiry loses an admission that still counts. */
  lemma PrunedIsTail(key: Key, log: seq<Entry>, last: int, now: int, windowSize: int)
    requires Sorted(log) && Distinct(log) && last <= now && exists cut: nat :: Tail(key, log, last, windowSize, cut)
    ensures Older(log, now - windowSize) <= |log|
    ensures Tail(Pruned(key, now, windowSize), log, now, windowSize, Older(log, now - windowSize))
  {
    var before: nat :| Tail(key, log, last, windowSize, before);
    var kept := LiveTail(key, log, last, now, windowSize, before);
    PrunedLiveIsTail(Live(key, now), log, now, windowSize, kept);
  }

  /** What survives pruning is counted exactly. */
  lemma PrunedCount(key: Key, log: seq<Entry>, last: int, now: int, windowSize: int, maxRequests: int)
    requires Represents(key, log, last, windowSize, maxRequests) && last <= now
    ensures ZCard(Pruned(key, now, windowSize)) == InWindow(log, now - windowSize, now)
    ensures Tail(Pruned(key, now, windowSize), log, now, windowSize, Older(log, now - windowSize))
  {
    PrunedIsTail(key, log, last, now, windowSize);
    CountNow(log, now, windowSize);
    TailCard(Pruned(key, now, windowSize), log, now, windowSize, Older(log, now - windowSize));
  }

  /** A call that counts as the log does answers as the log does. */
  lemma CountDecides(key: Key, log: seq<Entry>, req: Request, windowSize: int, maxRequests: int, after: Key, r: Reply)
    requires Steps(key, req, windowSize, maxRequests, after, r)
    requires ZCard(Pruned(key, req.now, windowSize)) == InWindow(log, req.now - windowSize, req.now)
    ensures r.allowed == Admits(log, req.now, windowSize, maxRequests)
    ensures r.remaining == Remaining(log, req.now, windowSize, maxRequests)
    ensures r.allowed ==> r.resetAfterMs == windowSize
  {
  }

  /** One call answers as the log does. */
  lemma StepDecides(key: Key, log: seq<Entry>, last: int, req: Request, windowSize: int, maxRequests: int, after: Key, r: Reply)
    requires Represents(key, log, last, windowSize, maxRequests) && last <= req.now
    requires Steps(key, req, windowSize, maxRequests, after, r)
    ensures r.allowed == Admits(log, req.now, windowSize, maxRequests)
    ensures r.remaining == Remaining(log, req.now, windowSize, maxRequests)
    ensures r.allowed ==> r.resetAfterMs == windowSize
  {
    PrunedCount(key, log, last, req.now, windowSize, maxRequests);
    CountDecides(key, log, req, windowSize, maxRequests, after, r);
  }

  /** ... and its key still represents the log. */
  lemma StepRepresents(key: Key, log: seq<Entry>, last: int, req: Request, windowSize: int, maxRequests: int, after: Key, r: Reply)
    requires Represents(key, log, last, windowSize, maxRequests) && last <= req.now && 0 <= req.now
    requires NewTo(log, req.member)
    requires Steps(key, req, windowSize, maxRequests, after, r)
    ensures Represents(after, Logged(log, req, windowSize, maxRequests), req.now, windowSize, maxRequests)
  {
    PrunedCount(key, log, last, req.now, windowSize, maxRequests);
    if Admits(log, req.now, windowSize, maxRequests) {
      AdmittedTail(Pruned(key, req.now, windowSize), log, req, windowSize);
      AdmittedLogOk(log, last, req, windowSize, maxRequests);
    } else {
      assert Tail(after, log, req.now, windowSize, Older(log, req.now - windowSize));
    }
  }

  lemma AdmittedTail(pruned: Key, log: seq<Entry>, req: Request, windowSize: int)
    requires Sorted(log) && (log != [] ==> log[|log| - 1].at <= req.now)
    requires Tail(pruned, log, req.now, windowSize, Older(log, req.now - windowSize))
    ensures exists cut: nat :: Tail(PExpire(ZAdd(pruned, req.now, req.member), req.now, windowSize),
                                    log + [Entry(req.now, req.member)], req.now, windowSize, cut)
  {
    if 0 < windowSize {
      AddedTail(pruned, log, Older(log, req.now - windowSize), Entry(req.now, req.member), windowSize);
    } else {
      AddedNothing(pruned, log, Entry(req.now, req.member), windowSize);
    }
  }

  lemma AdmittedLogOk(log: seq<Entry>, last: int, req: Request, windowSize: int, maxRequests: int)
    requires LogOk(log, last, windowSize, maxRequests) && last <= req.now && 0 <= req.now
    requires NewTo(log, req.member)
    requires Admits(log, req.now, windowSize, maxRequests)
    ensures LogOk(log + [Entry(req.now, req.member)], req.now, windowSize, maxRequests)
  {
    CountNow(log, req.now, windowSize);
    OlderSpec(log, req.now - windowSize);
    forall i | 0 <= i < |log| ensures log[i].at <= req.now {
      assert log[i].at <= log[|log| - 1].at;
    }
  }

  // ---- Whole runs ----

  /** The replies and keys of a run of calls on one key. */
  ghost predicate IsRun(key: Key, reqs: seq<Request>, windowSize: int, maxRequests: int, keys: seq<Key>, replies: seq<Reply>) {
    && |keys| == |reqs| + 1 && |replies| == |reqs| && keys[0] == key
    && forall i | 0 <= i < |reqs| :: Steps(keys[i], reqs[i], windowSize, maxRequests, keys[i + 1], replies[i])
  }

  /** Timestamps never decrease and every call has its own random member. */
  ghost predicate WellTimed(reqs: seq<Request>) {
    && (forall i | 0 <= i < |reqs| :: 0 <= reqs[i].now)
    && forall i, j | 0 <= i < j < |reqs| :: reqs[i].now <= reqs[j].now && reqs[i].member != reqs[j].member
  }

  /** The specification's log after the first n requests. */
  function LogAfter(reqs: seq<Request>, n: nat, windowSize: int, maxRequests: int): seq<Entry>
    requires n <= |reqs|
  {
    if n == 0 then [] else Logged(LogAfter(reqs, n - 1, windowSize, maxRequests), reqs[n - 1], windowSize, maxRequests)
  }

  lemma {:induction false} LogMembers(reqs: seq<Request>, n: nat, windowSize: int, maxRequests: int)
    requires n <= |reqs|
    ensures forall e | e in LogAfter(reqs, n, windowSize, maxRequests) :: exists j | 0 <= j < n :: reqs[j].member == e.member
  {
    if n > 0 {
      LogMembers(reqs, n - 1, windowSize, maxRequests);
      forall e | e in LogAfter(reqs, n, windowSize, maxRequests)
        ensures exists j | 0 <= j < n :: reqs[j].member == e.member
      {
        if e in LogAfter(reqs, n - 1, windowSize, maxRequests) {
          var j :| 0 <= j < n - 1 && reqs[j].member == e.member;
        } else {
          assert reqs[n - 1].member == e.member;
        }
      }
    }
  }

  lemma NewMember(reqs: seq<Request>, n: nat, windowSize: int, maxRequests: int)
    requires WellTimed(reqs) && 0 < n <= |reqs|
    ensures NewTo(LogAfter(reqs, n - 1, windowSize, maxRequests), reqs[n - 1].member)
  {
    LogMembers(reqs, n - 1, windowSize, maxRequests);
    var log := LogAfter(reqs, n - 1, windowSize, maxRequests);
    forall i | 0 <= i < |log| ensures log[i].member != reqs[n - 1].member {
      assert log[i] in log;
    }
  }

  function LastTime(reqs: seq<Request>, n: nat): int
    requires n <= |reqs|
  {
    if n == 0 then 0 else reqs[n - 1].now
  }

  lemma {:induction false} RunRepresents(reqs: seq<Request>, windowSize: int, maxRequests: int, keys: seq<Key>, replies: seq<Reply>, n: nat)
    requires WellTimed(reqs) && IsRun(Absent, reqs, windowSize, maxRequests, keys, replies) && n <= |reqs|
    ensures Represents(keys[n], LogAfter(reqs, n, windowSize, maxRequests), LastTime(reqs, n), windowSize, maxRequests)
  {
    if n == 0 {
      assert Tail(Absent, [], 0, windowSize, 0);
    } else {
      RunRepresents(reqs, windowSize, maxRequests, keys, replies, n - 1);
      NewMember(reqs, n, windowSize, maxRequests);
      StepRepresents(keys[n - 1], LogAfter(reqs, n - 1, windowSize, maxRequests), LastTime(reqs, n - 1), reqs[n - 1],
                     windowSize, maxRequests, keys[n], replies[n - 1]);
    }
  }

  /** Over every run the script decides, and reports remaining calls, exactly as a limiter that keeps the
      whole admission log: neither pruning nor PEXPIRE can be observed. */
  lemma LimiterMatchesLog(reqs: seq<Request>, windowSize: int, maxRequests: int, keys: seq<Key>, replies: seq<Reply>)
    requires WellTimed(reqs) && IsRun(Absent, reqs, windowSize, maxRequests, keys, replies)
    ensures forall i | 0 <= i < |reqs| && replies[i].allowed :: replies[i].resetAfterMs == windowSize
    ensures forall i | 0 <= i < |reqs| ::
              replies[i].allowed == Admits(LogAfter(reqs, i, windowSize, maxRequests), reqs[i].now, windowSize, maxRequests)
              && replies[i].remaining == Remaining(LogAfter(reqs, i, windowSize, maxRequests), reqs[i].now, windowSize, maxRequests)
  {
    forall i | 0 <= i < |reqs|
      ensures replies[i].allowed == Admits(LogAfter(reqs, i, windowSize, maxRequests), reqs[i].now, windowSize, maxRequests)
      ensures replies[i].remaining == Remaining(LogAfter(reqs, i, windowSize, maxRequests), reqs[i].now, windowSize, maxRequests)
      ensures replies[i].allowed ==> replies[i].resetAfterMs == windowSize
    {
      RunRepresents(reqs, windowSize, maxRequests, keys, replies, i);
      StepDecides(keys[i], LogAfter(reqs, i, windowSize, maxRequests), LastTime(reqs, i), reqs[i], windowSize, maxRequests,
                  keys[i + 1], replies[i]);
    }
  }

  /** Hence no window of that length, ending at any instant, ever holds more than maxRequests admissions. */
  lemma WindowBound(reqs: seq<Request>, windowSize: int, maxRequests: nat, keys: seq<Key>, replies: seq<Reply>, t: int)
    requires WellTimed(reqs) && IsRun(Absent, reqs, windowSize, maxRequests, keys, replies)
    ensures InWindow(LogAfter(reqs, |reqs|, windowSize, maxRequests), t - windowSize, t) <= maxRequests
  {
    RunRepresents(reqs, windowSize, maxRequests, keys, replies, |reqs|);
    SpacedBound(LogAfter(reqs, |reqs|, windowSize, maxRequests), windowSize, maxRequests, t);
  }

  lemma SpacedBound(log: seq<Entry>, windowSize: int, maxRequests: nat, t: int)
    requires Sorted(log) && Spaced(log, windowSize, maxRequests)
    ensures InWindow(log, t - windowSize, t) <= maxRequests
  {
    OlderSpec(log, t);
    OlderSpec(log, t - windowSize);
    InWindowSpec(log, t - windowSize, t);
    var newest := Older(log, t) - 1;
    if newest >= maxRequests {
      assert log[newest - maxRequests].at + windowSize <= log[newest].at;
    }
  }

  // ---- resetAfterMs ----

  /** What a rejection reports: exactly the wait until the oldest counted admission leaves the window. */
  lemma ResetValue(key: Key, log: seq<Entry>, last: int, req: Request, windowSize: int, maxRequests: int, after: Key, r: Reply)
    requires Represents(key, log, last, windowSize, maxRequests) && last <= req.now && 1 <= maxRequests
    requires Steps(key, req, windowSize, maxRequests, after, r) && !r.allowed
    ensures Older(log, req.now - windowSize) == |log| - maxRequests
    ensures r.resetAfterMs == log[|log| - maxRequests].at + windowSize - req.now && r.resetAfterMs > 0
  {
    var oldest := RejectedReply(key, req, windowSize, maxRequests, after, r);
    OldestCounted(key, log, last, req.now, windowSize, maxRequests, oldest);
  }

  lemma OldestCounted(key: Key, log: seq<Entry>, last: int, now: int, windowSize: int, maxRequests: int, oldest: int)
    requires Represents(key, log, last, windowSize, maxRequests) && last <= now && 1 <= maxRequests
    requires ZCard(Pruned(key, now, windowSize)) >= maxRequests && IsOldest(Pruned(key, now, windowSize), oldest)
    ensures maxRequests <= |log| && Older(log, now - windowSize) == |log| - maxRequests
    ensures oldest == log[|log| - maxRequests].at > now - windowSize
  {
    var counted := RejectedTail(key, log, last, now, windowSize, maxRequests);
    OldestOfAll(Pruned(key, now, windowSize), counted, oldest);
  }

  lemma RejectedReply(key: Key, req: Request, windowSize: int, maxRequests: int, after: Key, r: Reply) returns (oldest: int)
    requires Steps(key, req, windowSize, maxRequests, after, r) && !r.allowed && 1 <= maxRequests
    ensures ZCard(Pruned(key, req.now, windowSize)) >= maxRequests && IsOldest(Pruned(key, req.now, windowSize), oldest)
    ensures r.resetAfterMs == if oldest + windowSize - req.now < 0 then 0 else oldest + windowSize - req.now
  {
    var pruned := Pruned(key, req.now, windowSize);
    oldest :| IsOldest(pruned, oldest) && r.resetAfterMs == if oldest + windowSize - req.now < 0 then 0 else oldest + windowSize - req.now;
  }

  /** A rejected call leaves exactly the newest maxRequests admissions in the set. */
  lemma RejectedTail(key: Key, log: seq<Entry>, last: int, now: int, windowSize: int, maxRequests: int) returns (counted: seq<Entry>)
    requires Represents(key, log, last, windowSize, maxRequests) && last <= now && 1 <= maxRequests
    requires ZCard(Pruned(key, now, windowSize)) >= maxRequests
    ensures maxRequests <= |log| && Older(log, now - windowSize) == |log| - maxRequests
    ensures counted != [] && Sorted(counted) && Distinct(counted) && Pruned(key, now, windowSize).scores == Scores(counted)
    ensures counted[0] == log[|log| - maxRequests] && counted[0].at > now - windowSize
  {
    PrunedIsTail(key, log, last, now, windowSize);
    TailCard(Pruned(key, now, windowSize), log, now, windowSize, Older(log, now - windowSize));
    FullWindow(log, last, now, windowSize, maxRequests);
    counted := log[Older(log, now - windowSize)..];
    OlderSpec(log, now - windowSize);
  }

  /** Spaced admissions never put more than maxRequests in the current window. */
  lemma FullWindow(log: seq<Entry>, last: int, now: int, windowSize: int, maxRequests: int)
    requires LogOk(log, last, windowSize, maxRequests) && last <= now && 1 <= maxRequests
    requires |log| - Older(log, now - windowSize) >= maxRequests
    ensures Older(log, now - windowSize) == |log| - maxRequests
  {
    OlderSpec(log, now - windowSize);
    if |log| > maxRequests {
      assert log[|log| - 1 - maxRequests].at + windowSize <= log[|log| - 1].at;
    }
  }

  lemma OldestOfAll(key: Key, log: seq<Entry>, oldest: int)
    requires Sorted(log) && Distinct(log) && log != [] && key.scores == Scores(log) && IsOldest(key, oldest)
    ensures oldest == log[0].at
  {
    ScoresAt(log, 0);
    var m :| m in key.scores && key.scores[m] == oldest;
    var i := ScoresIndex(log, m);
    ScoresAt(log, i);
  }

  /** With no other admission, the log admits at t exactly from the reported instant on. */
  lemma AdmitsFromReset(log: seq<Entry>, now: int, windowSize: int, maxRequests: int, t: int)
    requires Sorted(log) && (log != [] ==> log[|log| - 1].at <= now) && now <= t
    requires 1 <= maxRequests && Older(log, now - windowSize) == |log| - maxRequests
    ensures Admits(log, t, windowSize, maxRequests) <==> t >= log[|log| - maxRequests].at + windowSize
  {
    CountNow(log, t, windowSize);
    OlderSpec(log, t - windowSize);
    OlderSpec(log, now - windowSize);
  }

  /** A rejected call, the log it was rejected on, and retries that come after it. */
  ghost predicate RetriesAfter(key: Key, log: seq<Entry>, rejected: Request, windowSize: int, maxRequests: int, after: Key, r: Reply,
                               retries: seq<Request>, keys: seq<Key>, replies: seq<Reply>) {
    && Represents(key, log, rejected.now, windowSize, maxRequests) && 1 <= maxRequests && 0 <= rejected.now
    && Steps(key, rejected, windowSize, maxRequests, after, r) && !r.allowed
    && NewTo(log, rejected.member)
    && WellTimed(retries) && IsRun(after, retries, windowSize, maxRequests, keys, replies)
    && (forall i | 0 <= i < |retries| :: rejected.now <= retries[i].now)
    && (forall i | 0 <= i < |retries| :: NewTo(log, retries[i].member))
  }

  lemma StepRejected(key: Key, log: seq<Entry>, last: int, req: Request, windowSize: int, maxRequests: int, after: Key, r: Reply)
    requires Represents(key, log, last, windowSize, maxRequests) && last <= req.now && 0 <= req.now && NewTo(log, req.member)
    requires Steps(key, req, windowSize, maxRequests, after, r) && !Admits(log, req.now, windowSize, maxRequests)
    ensures !r.allowed && Represents(after, log, req.now, windowSize, maxRequests)
  {
    StepDecides(key, log, last, req, windowSize, maxRequests, after, r);
    StepRepresents(key, log, last, req, windowSize, maxRequests, after, r);
  }

  /** As long as the log admits nobody, every retry is rejected and the key still represents the log. */
  lemma {:induction false} RejectedRetries(key: Key, log: seq<Entry>, start: int, windowSize: int, maxRequests: int,
                                           retries: seq<Request>, keys: seq<Key>, replies: seq<Reply>, n: nat)
    requires Represents(key, log, start, windowSize, maxRequests) && n <= |retries|
    requires WellTimed(retries) && IsRun(key, retries, windowSize, maxRequests, keys, replies)
    requires forall i | 0 <= i < |retries| :: start <= retries[i].now && NewTo(log, retries[i].member)
    requires forall j | 0 <= j < n :: !Admits(log, retries[j].now, windowSize, maxRequests)
    ensures Represents(keys[n], log, if n == 0 then start else retries[n - 1].now, windowSize, maxRequests)
  {
    if n > 0 {
      RejectedRetries(key, log, start, windowSize, maxRequests, retries, keys, replies, n - 1);
      StepRejected(keys[n - 1], log, if n == 1 then start else retries[n - 2].now, retries[n - 1], windowSize, maxRequests,
                   keys[n], replies[n - 1]);
    }
  }

  /** resetAfterMs is exact: whatever retries follow a rejection, each one that comes before the reported
      instant is rejected, and the first one at or after it is admitted. */
  lemma RetriesUntilReset(key: Key, log: seq<Entry>, rejected: Request, windowSize: int, maxRequests: int, after: Key, r: Reply,
                          retries: seq<Request>, keys: seq<Key>, replies: seq<Reply>, n: nat)
    requires RetriesAfter(key, log, rejected, windowSize, maxRequests, after, r, retries, keys, replies) && n < |retries|
    requires forall j | 0 <= j < n :: retries[j].now < rejected.now + r.resetAfterMs
    ensures replies[n].allowed <==> retries[n].now >= rejected.now + r.resetAfterMs
  {
    ResetValue(key, log, rejected.now, rejected, windowSize, maxRequests, after, r);
    StepDecides(key, log, rejected.now, rejected, windowSize, maxRequests, after, r);
    StepRejected(key, log, rejected.now, rejected, windowSize, maxRequests, after, r);
    forall j | 0 <= j <= n
      ensures Admits(log, retries[j].now, windowSize, maxRequests) <==> retries[j].now >= rejected.now + r.resetAfterMs
    {
      AdmitsFromReset(log, rejected.now, windowSize, maxRequests, retries[j].now);
    }
    RejectedRetries(after, log, rejected.now, windowSize, maxRequests, retries, keys, replies, n);
    StepDecides(keys[n], log, if n == 0 then rejected.now else retries[n - 1].now, retries[n], windowSize, maxRequests,
                keys[n + 1], replies[n]);
  }

  /** The Retry-After header of the guard: whole seconds, rounded up. */
  function RetryAfterSeconds(resetAfterMs: int): int {
    -((-resetAfterMs) / 1000)
  }

  /** So waiting out the header, which rounds up by less than a second, always gets the next retry in. */
  lemma RetryAfterSuffices(key: Key, log: seq<Entry>, rejected: Request, windowSize: int, maxRequests: int, after: Key, r: Reply,
                           retries: seq<Request>, keys: seq<Key>, replies: seq<Reply>)
    requires RetriesAfter(key, log, rejected, windowSize, maxRequests, after, r, retries, keys, replies)
    requires |retries| > 0 && rejected.now + 1000 * RetryAfterSeconds(r.resetAfterMs) <= retries[0].now
    ensures replies[0].allowed
    ensures r.resetAfterMs <= 1000 * RetryAfterSeconds(r.resetAfterMs) < r.resetAfterMs + 1000
  {
    RetriesUntilReset(key, log, rejected, windowSize, maxRequests, after, r, retries, keys, replies, 0);
  }
}
