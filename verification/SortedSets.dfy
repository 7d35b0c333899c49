/** The Redis sorted sets the services use: members with scores under one key with a time to live. */
module SortedSets {
  import opened Tables

  /** A random UUID. */
  type Member = int

  /** An absent key is an empty set without expiry. A key set to live for d at time t is gone from t + d on. */
  datatype Key = Key(scores: map<Member, int>, expiry: Option<int>)

  const Absent := Key(map[], None)

  function Live(k: Key, now: int): Key {
    if k.expiry.Some? && k.expiry.value <= now then Absent else k
  }

  function ZAdd(k: Key, score: int, member: Member): Key {
    k.(scores := k.scores[member := score])
  }

  /** Removing the last member removes the key and its expiry. */
  function ZRemRangeByScore(k: Key, lo: int, hi: int): Key {
    var scores := map m | m in k.scores && !(lo <= k.scores[m] <= hi) :: k.scores[m];
    if scores == map[] then Absent else k.(scores := scores)
  }

  function ZCard(k: Key): nat {
    |k.scores|
  }

  function PExpire(k: Key, now: int, ms: int): Key {
    if k.scores == map[] || ms <= 0 then Absent else k.(expiry := Some(now + ms))
  }

  /** A key given `ms` from `now` on is there until the last millisecond before `now + ms`, and gone then. */
  lemma KeyLifetime(k: Key, now: int, ms: int)
    requires k.scores != map[] && ms > 0
    ensures Live(PExpire(k, now, ms), now + ms - 1).scores == k.scores && Live(PExpire(k, now, ms), now + ms) == Absent
  {
  }

  ghost predicate IsOldest(k: Key, score: int) {
    (exists m | m in k.scores :: k.scores[m] == score) && forall m | m in k.scores :: score <= k.scores[m]
  }

  lemma HasMember(scores: map<Member, int>)
    requires scores != map[]
    ensures exists m :: m in scores
  {
    assert (forall m :: m !in scores) ==> scores == map[];
  }

  /** ZRANGE key 0 0 WITHSCORES. */
  method Oldest(k: Key) returns (score: int)
    requires k.scores != map[]
    ensures IsOldest(k, score)
  {
    HasMember(k.scores);
    var todo: set<Member> := set m: Member | m in k.scores :: m;
    var first :| first in k.scores;
    score := k.scores[first];
    todo := todo - {first};
    while todo != {}
      invariant todo <= k.scores.Keys
      invariant exists m | m in k.scores :: k.scores[m] == score
      invariant forall m | m in k.scores :: m in todo || score <= k.scores[m]
      decreases todo
    {
      var m :| m in todo;
      if k.scores[m] < score {
        score := k.scores[m];
      }
      todo := todo - {m};
    }
  }

  // ---- A sorted set as the surviving tail of a log ----

  /** One ZADD that has happened. */
  datatype Entry = Entry(at: int, member: Member)

  ghost predicate Sorted(log: seq<Entry>) {
    forall i, j | 0 <= i <= j < |log| :: 0 <= log[i].at <= log[j].at
  }

  ghost predicate Distinct(log: seq<Entry>) {
    forall i, j | 0 <= i < j < |log| :: log[i].member != log[j].member
  }

  lemma PrefixOk(log: seq<Entry>, n: nat)
    requires Sorted(log) && Distinct(log) && n <= |log|
    ensures Sorted(log[..n]) && Distinct(log[..n])
    ensures 0 < n < |log| ==> log[..n][n - 1].at <= log[|log| - 1].at
  {
  }

  function Scores(log: seq<Entry>): map<Member, int> {
    if log == [] then map[] else Scores(log[..|log| - 1])[log[|log| - 1].member := log[|log| - 1].at]
  }

  lemma {:induction false} ScoresIndex(log: seq<Entry>, m: Member) returns (i: nat)
    requires m in Scores(log)
    ensures i < |log| && log[i].member == m
  {
    i := |log| - 1;
    if log[i].member != m {
      i := ScoresIndex(log[..i], m);
    }
  }

  lemma {:induction false} ScoresAt(log: seq<Entry>, i: nat)
    requires Distinct(log) && i < |log|
    ensures log[i].member in Scores(log) && Scores(log)[log[i].member] == log[i].at
  {
    if i < |log| - 1 {
      ScoresAt(log[..|log| - 1], i);
    }
  }

  lemma {:induction false} ScoresCard(log: seq<Entry>)
    requires Distinct(log)
    ensures |Scores(log)| == |log|
  {
    if log != [] {
      var rest := log[..|log| - 1];
      ScoresCard(rest);
      var last := log[|log| - 1];
      if last.member in Scores(rest) {
        var i := ScoresIndex(rest, last.member);
      }
      assert Scores(log).Keys == Scores(rest).Keys + {last.member};
    }
  }

  /** How many entries are at most x; in an ordered log they come first. */
  function Older(log: seq<Entry>, x: int): nat {
    if log == [] then 0 else Older(log[..|log| - 1], x) + if log[|log| - 1].at <= x then 1 else 0
  }

  lemma {:induction false} OlderSpec(log: seq<Entry>, x: int)
    requires Sorted(log)
    ensures Older(log, x) <= |log|
    ensures forall i | 0 <= i < |log| :: log[i].at <= x <==> i < Older(log, x)
  {
    if log != [] {
      var rest := log[..|log| - 1];
      OlderSpec(rest, x);
      assert forall i | 0 <= i < |rest| :: rest[i] == log[i];
    }
  }

  /** Pruning a tail by age leaves a shorter tail. */
  lemma PruneTail(log: seq<Entry>, cut: nat, expiry: Option<int>, x: int)
    requires Sorted(log) && Distinct(log) && cut <= |log| && cut <= Older(log, x) <= |log|
    ensures ZRemRangeByScore(Key(Scores(log[cut..]), expiry), 0, x).scores == Scores(log[Older(log, x)..])
  {
    var more := Older(log, x);
    OlderSpec(log, x);
    var all, kept := Scores(log[cut..]), Scores(log[more..]);
    forall m | m in all ensures all[m] <= x || (m in kept && kept[m] == all[m]) {
      var i := ScoresIndex(log[cut..], m);
      ScoresAt(log[cut..], i);
      assert log[cut..][i] == log[cut + i];
      if cut + i >= more {
        assert log[more..][cut + i - more] == log[cut + i];
        ScoresAt(log[more..], cut + i - more);
      }
    }
    forall m | m in kept ensures m in all && all[m] > x {
      var i := ScoresIndex(log[more..], m);
      assert log[more..][i] == log[more + i] == log[cut..][more + i - cut];
      ScoresAt(log[cut..], more + i - cut);
    }
    forall m | m in all ensures 0 <= all[m] {
      var i := ScoresIndex(log[cut..], m);
      ScoresAt(log[cut..], i);
      assert log[cut..][i] == log[cut + i];
    }
    assert (map m | m in all && !(0 <= all[m] <= x) :: all[m]) == kept;
  }

  lemma AppendTail(log: seq<Entry>, cut: nat, e: Entry)
    requires cut <= |log|
    ensures Scores((log + [e])[cut..]) == Scores(log[cut..])[e.member := e.at]
  {
    assert (log + [e])[cut..] == log[cut..] + [e];
    assert (log[cut..] + [e])[..|log[cut..]|] == log[cut..];
  }

  /** Entries in the half-open window (lo, hi]. */
  function InWindow(log: seq<Entry>, lo: int, hi: int): nat {
    if log == [] then 0
    else InWindow(log[..|log| - 1], lo, hi) + if lo < log[|log| - 1].at <= hi then 1 else 0
  }

  /** The key is the log minus a prefix that has left every window from `last` on. */
  ghost predicate Tail(key: Key, log: seq<Entry>, last: int, windowSize: int, cut: nat) {
    && cut <= |log| && (forall i | 0 <= i < cut :: log[i].at <= last - windowSize)
    && key.scores == Scores(log[cut..])
    && (key.scores != map[] ==> cut < |log| && key.expiry == Some(log[|log| - 1].at + windowSize))
    && (key.scores == map[] ==> key.expiry == None)
  }

  ghost predicate NewTo(log: seq<Entry>, member: Member) {
    forall i | 0 <= i < |log| :: log[i].member != member
  }

  lemma {:induction false} InWindowSpec(log: seq<Entry>, lo: int, hi: int)
    ensures InWindow(log, lo, hi) == if lo <= hi then Older(log, hi) - Older(log, lo) else 0
  {
    if log != [] {
      InWindowSpec(log[..|log| - 1], lo, hi);
    }
  }

  lemma {:induction false} OlderAll(log: seq<Entry>, x: int)
    requires Sorted(log) && (log != [] ==> log[|log| - 1].at <= x)
    ensures Older(log, x) == |log|
  {
    if log != [] {
      if |log| > 1 {
        assert log[|log| - 2].at <= log[|log| - 1].at;
      }
      OlderAll(log[..|log| - 1], x);
    }
  }

  /** Admissions in the window ending now: the log minus what is too old. */
  lemma CountNow(log: seq<Entry>, now: int, windowSize: int)
    requires Sorted(log) && (log != [] ==> log[|log| - 1].at <= now)
    ensures Older(log, now - windowSize) <= |log|
    ensures InWindow(log, now - windowSize, now) == |log| - Older(log, now - windowSize)
  {
    OlderSpec(log, now - windowSize);
    InWindowSpec(log, now - windowSize, now);
    OlderAll(log, now);
    if windowSize < 0 {
      OlderAll(log, now - windowSize);
    }
  }

  /** A key that has expired held nothing that still counts. */
  lemma LiveTail(key: Key, log: seq<Entry>, last: int, now: int, windowSize: int, cut: nat) returns (kept: nat)
    requires Sorted(log) && Tail(key, log, last, windowSize, cut) && last <= now
    ensures Tail(Live(key, now), log, now, windowSize, kept)
  {
    kept := if Live(key, now) == key then cut else |log|;
  }

  /** Pruning a live key drops exactly the admissions that have left the window. */
  lemma PrunedLiveIsTail(live: Key, log: seq<Entry>, now: int, windowSize: int, cut: nat)
    requires Sorted(log) && Distinct(log) && Tail(live, log, now, windowSize, cut)
    ensures Older(log, now - windowSize) <= |log|
    ensures Tail(ZRemRangeByScore(live, 0, now - windowSize), log, now, windowSize, Older(log, now - windowSize))
  {
    var x := now - windowSize;
    var more := Older(log, x);
    OlderSpec(log, x);
    if cut > 0 {
      assert log[cut - 1].at <= x;
    }
    PruneTail(log, cut, live.expiry, x);
    var after := ZRemRangeByScore(live, 0, x);
    assert live == Key(Scores(log[cut..]), live.expiry);
    assert after.scores == Scores(log[more..]);
    if more == |log| {
      assert log[more..] == [];
      assert after.scores == map[];
    }
    if after.scores != map[] {
      HasMember(after.scores);
      var m :| m in after.scores;
      assert m in live.scores;
    }
  }

  lemma TailCard(key: Key, log: seq<Entry>, last: int, windowSize: int, cut: nat)
    requires Distinct(log) && Tail(key, log, last, windowSize, cut)
    ensures ZCard(key) == |log| - cut
  {
    ScoresCard(log[cut..]);
  }

  /** ZADD and PEXPIRE together add the newest entry to the tail. */
  lemma AddedTail(key: Key, log: seq<Entry>, cut: nat, e: Entry, windowSize: int)
    requires Tail(key, log, e.at, windowSize, cut) && 0 < windowSize
    ensures Tail(PExpire(ZAdd(key, e.at, e.member), e.at, windowSize), log + [e], e.at, windowSize, cut)
  {
    AppendTail(log, cut, e);
    assert e.member in ZAdd(key, e.at, e.member).scores;
  }

  /** A window of no length keeps nothing, and its key is gone at once. */
  lemma AddedNothing(key: Key, log: seq<Entry>, e: Entry, windowSize: int)
    requires Sorted(log) && (log != [] ==> log[|log| - 1].at <= e.at) && windowSize <= 0
    ensures Tail(PExpire(ZAdd(key, e.at, e.member), e.at, windowSize), log + [e], e.at, windowSize, |log| + 1)
  {
  }
}
