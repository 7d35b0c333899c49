/** Concurrent recordFailure calls: five separate Redis commands each, interleaved in any order. */
module FailureRaces {
  import opened Tables
  import opened SortedSets
  import opened PaymentAbuse

  /** `nth` counts the ZADDs up to and including the call's own; the source has no such number. */
  datatype Phase =
    | Fresh
    | Added(nth: nat)
    | Expiring(nth: nat)
    | Trimmed(nth: nat)
    | Counted(nth: nat, count: nat)
    | Finished(nth: nat, count: nat, finishedAt: int)

  datatype Call = Call(now: int, member: Member, phase: Phase)

  /** The user's keys, the calls in flight, the members added so far, and Redis' own clock. */
  datatype System = System(failures: Key, lockedUntil: Option<int>, calls: map<int, Call>, added: set<Member>, clock: int)

  /** The next command of one call; Redis executes commands one at a time. */
  datatype Step = Next(call: int, at: int)

  function Advance(s: System, c: int, phase: Phase): System
    requires c in s.calls
  {
    s.(calls := s.calls[c := s.calls[c].(phase := phase)])
  }

  function Ticked(s: System, at: int): System {
    if at > s.clock then s.(clock := at) else s
  }

  function Apply(s0: System, step: Step): System {
    var s := Ticked(s0, step.at);
    if step.call !in s.calls then s
    else
      var call := s.calls[step.call];
      var failures := Live(s.failures, s.clock);
      match call.phase
      case Fresh =>
        Advance(s.(failures := ZAdd(failures, call.now, call.member), added := s.added + {call.member}), step.call,
                Added(|s.added + {call.member}|))
      case Added(nth) => Advance(s.(failures := PExpire(failures, s.clock, WINDOW_MS)), step.call, Expiring(nth))
      case Expiring(nth) => Advance(s.(failures := ZRemRangeByScore(failures, 0, call.now - WINDOW_MS)), step.call, Trimmed(nth))
      case Trimmed(nth) => Advance(s, step.call, Counted(nth, ZCard(failures)))
      case Counted(nth, count) =>
        var done := Advance(s, step.call, Finished(nth, count, s.clock));
        if count >= FAILURE_THRESHOLD then done.(lockedUntil := Some(s.clock + LOCKOUT_MS)) else done
      case Finished(nth, count, finishedAt) => s
  }

  function Run(s: System, steps: seq<Step>): System
    decreases |steps|
  {
    if steps == [] then s else Run(Apply(s, steps[0]), steps[1..])
  }

  /** All process clocks lie in one day that starts at `from`. */
  ghost predicate SameDay(s: System, from: int) {
    && (forall c | c in s.calls :: from <= s.calls[c].now < from + WINDOW_MS && 0 <= s.calls[c].now)
    && (forall c, d | c in s.calls && d in s.calls && c != d :: s.calls[c].member != s.calls[d].member)
  }

  /** Redis' clock stays within the day that starts at `start`. */
  ghost predicate WithinDay(s: System, start: int) {
    start <= s.clock < start + WINDOW_MS
  }

  /** Nothing that was added is ever lost, and no count falls behind the order of the ZADDs. */
  ghost predicate Kept(s: System, from: int, start: int) {
    && SameDay(s, from) && WithinDay(s, start)
    && (s.failures.expiry.Some? ==> s.failures.expiry.value >= start + WINDOW_MS)
    && (forall m | m in s.added :: m in s.failures.scores && s.failures.scores[m] >= from)
    && (forall c | c in s.calls && s.calls[c].phase.Fresh? :: s.calls[c].member !in s.added && s.calls[c].member !in s.failures.scores)
    && (forall c | c in s.calls && !s.calls[c].phase.Fresh? :: s.calls[c].phase.nth <= |s.added|)
    && (forall c | c in s.calls && (s.calls[c].phase.Counted? || s.calls[c].phase.Finished?) ::
          s.calls[c].phase.count >= s.calls[c].phase.nth)
  }

  lemma SubsetCard(a: set<Member>, b: set<Member>)
    requires a <= b
    ensures |a| <= |b|
  {
    assert b == a + (b - a);
  }

  lemma KeptAdd(s: System, c: int, from: int, start: int)
    requires Kept(s, from, start) && c in s.calls && s.calls[c].phase.Fresh?
    ensures Kept(Apply(s, Next(c, s.clock)), from, start)
  {
  }

  lemma KeptTrim(s: System, c: int, from: int, start: int)
    requires Kept(s, from, start) && c in s.calls && s.calls[c].phase.Expiring?
    ensures Kept(Apply(s, Next(c, s.clock)), from, start)
  {
  }

  lemma KeptCount(s: System, c: int, from: int, start: int)
    requires Kept(s, from, start) && c in s.calls && s.calls[c].phase.Trimmed?
    ensures Kept(Apply(s, Next(c, s.clock)), from, start)
  {
    assert forall m | m in s.added :: m in s.failures.scores.Keys;
    SubsetCard(s.added, s.failures.scores.Keys);
    assert |s.failures.scores| == |s.failures.scores.Keys|;
  }

  lemma KeptStep(s: System, c: int, from: int, start: int)
    requires Kept(s, from, start)
    ensures Kept(Apply(s, Next(c, s.clock)), from, start)
  {
    if c in s.calls {
      match s.calls[c].phase
      case Fresh => KeptAdd(s, c, from, start);
      case Expiring(nth) => KeptTrim(s, c, from, start);
      case Trimmed(nth) => KeptCount(s, c, from, start);
      case _ =>
    }
  }

  lemma KeptTick(s: System, at: int, from: int, start: int)
    requires Kept(s, from, start) && at < start + WINDOW_MS
    ensures Kept(Ticked(s, at), from, start)
  {
  }

  lemma TickThenStep(s: System, step: Step)
    ensures Apply(s, step) == Apply(Ticked(s, step.at), Next(step.call, Ticked(s, step.at).clock))
  {
  }

  lemma {:induction false} KeptRun(s: System, steps: seq<Step>, from: int, start: int)
    requires Kept(s, from, start) && forall i | 0 <= i < |steps| :: steps[i].at < start + WINDOW_MS
    ensures Kept(Run(s, steps), from, start)
    decreases |steps|
  {
    if steps != [] {
      var ticked := Ticked(s, steps[0].at);
      KeptTick(s, steps[0].at, from, start);
      KeptStep(ticked, steps[0].call, from, start);
      TickThenStep(s, steps[0]);
      KeptRun(Apply(s, steps[0]), steps[1..], from, start);
    }
  }

  /** However concurrent calls within a day interleave, the call that made the n-th ZADD counts at least n:
      the third failure always sets the lockout, with no delay at all. */
  lemma LockoutNeverDelayed(s: System, steps: seq<Step>, from: int, start: int, c: int)
    requires Kept(s, from, start) && forall i | 0 <= i < |steps| :: steps[i].at < start + WINDOW_MS
    requires c in Run(s, steps).calls
    ensures var phase := Run(s, steps).calls[c].phase;
            && (phase.Counted? || phase.Finished? ==> phase.count >= phase.nth)
            && (phase.Counted? && phase.nth >= FAILURE_THRESHOLD ==>
                  Apply(Run(s, steps), Next(c, Run(s, steps).clock)).lockedUntil == Some(Run(s, steps).clock + LOCKOUT_MS))
  {
    KeptRun(s, steps, from, start);
  }

  /** Calls that have not begun, on keys that do not exist. */
  ghost predicate Unstarted(s: System) {
    s.failures == Absent && s.lockedUntil == None && s.added == {} && forall c | c in s.calls :: s.calls[c].phase.Fresh?
  }

  /** The same from a user without failures. */
  lemma LockoutNeverDelayedEver(s: System, steps: seq<Step>, from: int, c: int)
    requires Unstarted(s) && SameDay(s, from) && forall i | 0 <= i < |steps| :: steps[i].at < s.clock + WINDOW_MS
    requires c in Run(s, steps).calls && Run(s, steps).calls[c].phase.Counted?
    requires Run(s, steps).calls[c].phase.nth >= FAILURE_THRESHOLD
    ensures Apply(Run(s, steps), Next(c, Run(s, steps).clock)).lockedUntil == Some(Run(s, steps).clock + LOCKOUT_MS)
  {
    LockoutNeverDelayed(s, steps, from, s.clock, c);
  }

  // ---- One call by itself ----

  /** Its commands, one after the other, at one instant: ZADD and PEXPIRE, then the others. */
  function AddAlone(s: System, c: int, at: int): System {
    Apply(Apply(s, Next(c, at)), Next(c, at))
  }

  function CountAlone(s: System, c: int, at: int): System {
    Apply(Apply(Apply(s, Next(c, at)), Next(c, at)), Next(c, at))
  }

  lemma AddAloneIs(s: System, c: int, at: int)
    requires c in s.calls && s.calls[c].phase.Fresh? && s.calls[c].now == at && s.clock <= at && s.calls[c].member !in s.added
    ensures var after := AddAlone(s, c, at);
            && after.failures == PExpire(ZAdd(Live(s.failures, at), at, s.calls[c].member), at, WINDOW_MS)
            && c in after.calls && after.calls[c] == s.calls[c].(phase := Expiring(|s.added| + 1))
            && after.clock == at && after.lockedUntil == s.lockedUntil
  {
    var s1 := Apply(s, Next(c, at));
    assert s1.failures == ZAdd(Live(s.failures, at), at, s.calls[c].member) && s1.calls[c].phase == Added(|s.added| + 1);
    assert Live(s1.failures, at) == s1.failures;
  }

  lemma CountAloneIs(s: System, c: int)
    requires c in s.calls && s.calls[c].phase.Expiring? && s.calls[c].now == s.clock && Live(s.failures, s.clock) == s.failures
    ensures var after := CountAlone(s, c, s.clock); var trimmed := ZRemRangeByScore(s.failures, 0, s.clock - WINDOW_MS);
            && after.failures == trimmed && c in after.calls && after.clock == s.clock
            && after.calls[c].phase == Finished(s.calls[c].phase.nth, ZCard(trimmed), s.clock)
            && after.lockedUntil == if ZCard(trimmed) >= FAILURE_THRESHOLD then Some(s.clock + LOCKOUT_MS) else s.lockedUntil
  {
    var s1 := Apply(s, Next(c, s.clock));
    assert Live(s1.failures, s.clock) == s1.failures;
    assert s1.calls[c].phase == Trimmed(s.calls[c].phase.nth);
    var s2 := Apply(s1, Next(c, s.clock));
    assert s2.failures == s1.failures && s2.calls[c].phase == Counted(s.calls[c].phase.nth, ZCard(s1.failures));
  }

  /** Undisturbed, the separate commands record the failure as the sequential service does, and the call is the one
      after those that have added theirs. */
  lemma AloneIsRecord(s: System, c: int, at: int)
    requires c in s.calls && s.calls[c].phase.Fresh? && s.calls[c].now == at && s.clock <= at && s.calls[c].member !in s.added
    ensures var after := CountAlone(AddAlone(s, c, at), c, at);
            && Keys(after.failures, after.lockedUntil) == Record(Keys(s.failures, s.lockedUntil), Entry(at, s.calls[c].member))
            && c in after.calls && after.calls[c].phase.Finished? && after.calls[c].phase.nth == |s.added| + 1 && after.clock == at
  {
    AddAloneIs(s, c, at);
    CountAloneIs(AddAlone(s, c, at), c);
  }
}
