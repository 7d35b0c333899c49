/** Refresh-token sessions: one Redis key per live token and one set of token ids per user. */
module Sessions {
  import opened Tables

  /** A random UUID. */
  type Jti = int

  const REFRESH_TTL_SECONDS := 7 * 24 * 60 * 60

  /** What an unfinished revocation has read. */
  datatype Reading = Reading(userId: int, jtis: set<Jti>)

  /** `expiry` holds the refresh keys that have been set and not deleted, `used` all ids ever handed out, and
      `revoking` the revocations between their SMEMBERS and their DEL. */
  datatype State = State(
    expiry: map<(int, Jti), int>,
    sessions: map<int, set<Jti>>,
    used: set<Jti>,
    now: int,
    revoking: map<int, Reading>)

  datatype Step =
    | Tick(to: int)
    | Issue(userId: int, jti: Jti)
    | Rotate(userId: int, oldJti: Jti, newJti: Jti)
    | ReadSessions(call: int, userId: int)
    | DeleteRead(call: int)

  function Empty(now: int): State {
    State(map[], map[], {}, now, map[])
  }

  predicate Live(s: State, userId: int, jti: Jti) {
    (userId, jti) in s.expiry && s.now < s.expiry[(userId, jti)]
  }

  function SessionsOf(s: State, userId: int): set<Jti> {
    if userId in s.sessions then s.sessions[userId] else {}
  }

  /** Live refresh tokens of a user. */
  function LiveOf(s: State, userId: int): set<Jti> {
    set k | k in s.expiry && k.0 == userId && Live(s, k.0, k.1) :: k.1
  }

  function DoIssue(s: State, userId: int, jti: Jti): State {
    s.(expiry := s.expiry[(userId, jti) := s.now + REFRESH_TTL_SECONDS],
       sessions := s.sessions[userId := SessionsOf(s, userId) + {jti}],
       used := s.used + {jti})
  }

  /** The Lua script: refuse an unknown id, otherwise swap old for new in one step. */
  function DoRotate(s: State, userId: int, oldJti: Jti, newJti: Jti): State {
    if !Live(s, userId, oldJti) then s.(used := s.used + {newJti})
    else
      s.(expiry := (s.expiry - {(userId, oldJti)})[(userId, newJti) := s.now + REFRESH_TTL_SECONDS],
         sessions := s.sessions[userId := SessionsOf(s, userId) - {oldJti} + {newJti}],
         used := s.used + {newJti})
  }

  /** SMEMBERS. */
  function DoRead(s: State, call: int, userId: int): State {
    if call in s.revoking then s else s.(revoking := s.revoking[call := Reading(userId, SessionsOf(s, userId))])
  }

  /** One DEL for the listed keys and the set itself, skipped when nothing was listed. */
  function DoDelete(s: State, call: int): State {
    if call !in s.revoking then s
    else
      var userId, jtis := s.revoking[call].userId, s.revoking[call].jtis;
      var done := s.(revoking := s.revoking - {call});
      if jtis == {} then done
      else done.(expiry := map k | k in s.expiry && !(k.0 == userId && k.1 in jtis) :: s.expiry[k],
                 sessions := s.sessions - {userId})
  }

  function Apply(s: State, step: Step): State {
    match step
    case Tick(to) => if to > s.now then s.(now := to) else s
    case Issue(userId, jti) => DoIssue(s, userId, jti)
    case Rotate(userId, oldJti, newJti) => DoRotate(s, userId, oldJti, newJti)
    case ReadSessions(call, userId) => DoRead(s, call, userId)
    case DeleteRead(call) => DoDelete(s, call)
  }

  /** Token ids are fresh UUIDs. */
  predicate Fresh(s: State, step: Step) {
    match step
    case Issue(userId, jti) => jti !in s.used
    case Rotate(userId, oldJti, newJti) => newJti !in s.used && newJti != oldJti
    case _ => true
  }

  ghost predicate AllFresh(s: State, steps: seq<Step>)
    decreases |steps|
  {
    steps == [] || (Fresh(s, steps[0]) && AllFresh(Apply(s, steps[0]), steps[1..]))
  }

  function Run(s: State, steps: seq<Step>): State
    decreases |steps|
  {
    if steps == [] then s else Run(Apply(s, steps[0]), steps[1..])
  }

  /** Every id in use has been handed out. */
  ghost predicate Known(s: State) {
    (forall k | k in s.expiry :: k.1 in s.used) && (forall u | u in s.sessions :: s.sessions[u] <= s.used)
  }

  /** Every refresh key, expired or not, is listed in its user's set. */
  ghost predicate Listed(s: State) {
    Known(s) && forall k | k in s.expiry :: k.1 in SessionsOf(s, k.0)
  }

  class TokenService {
    var expiry: map<(int, Jti), int>
    var sessions: map<int, set<Jti>>
    var now: int
    var revoking: map<int, Reading>
    ghost var used: set<Jti>

    ghost function Now(): State
      reads this
    {
      State(expiry, sessions, used, now, revoking)
    }

    constructor (now: int)
      ensures Now() == Empty(now) && Listed(Now())
    {
      expiry, sessions, revoking, used := map[], map[], map[], {};
      this.now := now;
    }

    method IssueAuthCookies(userId: int, jti: Jti)
      requires Known(Now()) && jti !in used
      modifies `expiry, `sessions, `used
      ensures Now() == DoIssue(old(Now()), userId, jti)
      ensures LiveOf(Now(), userId) == old(LiveOf(Now(), userId)) + {jti}
      ensures expiry == old(expiry)[(userId, jti) := now + 604800]
      ensures sessions == old(sessions)[userId := (if userId in old(sessions) then old(sessions)[userId] else {}) + {jti}]
    {
      ghost var before := Now();
      expiry := expiry[(userId, jti) := now + REFRESH_TTL_SECONDS];
      sessions := sessions[userId := (if userId in sessions then sessions[userId] else {}) + {jti}];
      used := used + {jti};
      IssueAddsOne(before, userId, jti);
    }

    method RotateAuthCookies(userId: int, oldJti: Jti, newJti: Jti) returns (ok: bool)
      requires Known(Now()) && newJti !in used && newJti != oldJti
      modifies `expiry, `sessions, `used
      ensures Now() == DoRotate(old(Now()), userId, oldJti, newJti)
      ensures ok == old(Live(Now(), userId, oldJti))
      ensures |LiveOf(Now(), userId)| == old(|LiveOf(Now(), userId)|)
      ensures !Live(Now(), userId, oldJti)
      ensures ok <==> (userId, oldJti) in old(expiry) && now < old(expiry)[(userId, oldJti)]
      ensures ok ==> (userId, newJti) in expiry && expiry[(userId, newJti)] == now + 604800
    {
      RotateSwaps(Now(), userId, oldJti, newJti);
      ok := EvalRotate(userId, oldJti, newJti);
    }

    /** The script, command by command. */
    method EvalRotate(userId: int, oldJti: Jti, newJti: Jti) returns (ok: bool)
      requires newJti != oldJti
      modifies `expiry, `sessions, `used
      ensures Now() == DoRotate(old(Now()), userId, oldJti, newJti) && ok == old(Live(Now(), userId, oldJti))
      ensures ok <==> (userId, oldJti) in old(expiry) && now < old(expiry)[(userId, oldJti)]
      ensures ok ==> expiry == (old(expiry) - {(userId, oldJti)})[(userId, newJti) := now + 604800]
      ensures ok ==> userId in sessions
                     && sessions == old(sessions)[userId :=
                          (if userId in old(sessions) then old(sessions)[userId] else {}) - {oldJti} + {newJti}]
      ensures !ok ==> expiry == old(expiry) && sessions == old(sessions)
    {
      ok := (userId, oldJti) in expiry && now < expiry[(userId, oldJti)];
      if ok {
        expiry := expiry - {(userId, oldJti)};
        expiry := expiry[(userId, newJti) := now + REFRESH_TTL_SECONDS];
        var rest := (if userId in sessions then sessions[userId] else {}) - {oldJti};
        sessions := sessions[userId := rest + {newJti}];
      }
      used := used + {newJti};
    }

    /** The first command of a revocation. */
    method Smembers(call: int, userId: int)
      modifies `revoking
      ensures Now() == DoRead(old(Now()), call, userId)
      ensures call !in old(revoking) ==>
                revoking == old(revoking)[call := Reading(userId, if userId in sessions then sessions[userId] else {})]
    {
      if call !in revoking {
        revoking := revoking[call := Reading(userId, if userId in sessions then sessions[userId] else {})];
      }
    }

    /** Its second command. */
    method Del(call: int)
      modifies `expiry, `sessions, `revoking
      ensures Now() == DoDelete(old(Now()), call)
      ensures call in old(revoking) && old(revoking)[call].jtis != {} ==>
                && (forall k :: k in expiry <==>
                      k in old(expiry) && !(k.0 == old(revoking)[call].userId && k.1 in old(revoking)[call].jtis))
                && (forall k | k in expiry :: expiry[k] == old(expiry)[k])
                && sessions == old(sessions) - {old(revoking)[call].userId}
      ensures call !in old(revoking) || old(revoking)[call].jtis == {} ==> expiry == old(expiry) && sessions == old(sessions)
    {
      if call in revoking {
        var userId, jtis := revoking[call].userId, revoking[call].jtis;
        revoking := revoking - {call};
        if jtis != {} {
          expiry := map k | k in expiry && !(k.0 == userId && k.1 in jtis) :: expiry[k];
          sessions := sessions - {userId};
        }
      }
    }

    /** Other requests are served while a revocation waits for Redis. */
    method Serve(others: seq<Step>)
      requires Known(Now()) && AllFresh(Now(), others)
      modifies this
      ensures Now() == Run(old(Now()), others)
    {
      ghost var start := Now();
      for i := 0 to |others|
        invariant Known(Now()) && AllFresh(Now(), others[i..]) && Run(Now(), others[i..]) == Run(start, others)
      {
        ghost var before := Now();
        KnownStep(before, others[i]);
        assert others[i..][1..] == others[i + 1..];
        match others[i] {
          case Tick(to) => if to > now { now := to; }
          case Issue(userId, jti) => IssueAuthCookies(userId, jti);
          case Rotate(userId, oldJti, newJti) => var ok := RotateAuthCookies(userId, oldJti, newJti);
          case ReadSessions(call, userId) => Smembers(call, userId);
          case DeleteRead(call) => Del(call);
        }
        assert Now() == Apply(before, others[i]);
      }
    }

    /** Two awaited commands, with whatever happens in between. */
    method RevokeAllSessions(call: int, userId: int, others: seq<Step>)
      requires Listed(Now()) && call !in revoking && Between(DoRead(Now(), call, userId), call, others)
      modifies this
      ensures Now() == Revoked(old(Now()), call, userId, others)
      ensures LiveOf(Now(), userId) == Waiting(old(Now()), call, userId, others) - old(used)
      ensures (forall i | 0 <= i < |others| :: !HandsOut(others[i], userId)) ==> LiveOf(Now(), userId) == {}
    {
      ghost var before := Now();
      RevokeMisses(before, call, userId, others);
      if forall i | 0 <= i < |others| :: !HandsOut(others[i], userId) {
        QuietRevoke(before, call, userId, others);
      }
      KnownStep(before, ReadSessions(call, userId));
      Smembers(call, userId);
      Serve(others);
      Del(call);
    }
  }

  lemma KnownStep(s: State, step: Step)
    requires Known(s)
    ensures Known(Apply(s, step))
  {
  }

  lemma {:induction false} KnownRun(s: State, steps: seq<Step>)
    requires Known(s)
    ensures Known(Run(s, steps))
    decreases |steps|
  {
    if steps != [] {
      KnownStep(s, steps[0]);
      KnownRun(Apply(s, steps[0]), steps[1..]);
    }
  }

  lemma InLiveOf(s: State, userId: int, jti: Jti)
    ensures jti in LiveOf(s, userId) <==> Live(s, userId, jti)
  {
  }

  lemma IssueAddsOne(s: State, userId: int, jti: Jti)
    requires Known(s) && jti !in s.used
    ensures LiveOf(DoIssue(s, userId, jti), userId) == LiveOf(s, userId) + {jti}
  {
  }

  /** A rotation trades one live token for another, or does nothing: the number of sessions never changes. */
  lemma RotateSwaps(s: State, userId: int, oldJti: Jti, newJti: Jti)
    requires Known(s) && newJti !in s.used && newJti != oldJti
    ensures var after := DoRotate(s, userId, oldJti, newJti);
            && LiveOf(after, userId) == (if Live(s, userId, oldJti) then LiveOf(s, userId) - {oldJti} + {newJti} else LiveOf(s, userId))
            && |LiveOf(after, userId)| == |LiveOf(s, userId)| && !Live(after, userId, oldJti)
  {
    var after := DoRotate(s, userId, oldJti, newJti);
    forall j
      ensures j in LiveOf(after, userId) <==>
              if Live(s, userId, oldJti) then (j in LiveOf(s, userId) && j != oldJti) || j == newJti else j in LiveOf(s, userId)
    {
      InLiveOf(after, userId, j);
      InLiveOf(s, userId, j);
    }
    InLiveOf(s, userId, oldJti);
    InLiveOf(s, userId, newJti);
    if Live(s, userId, oldJti) {
      assert LiveOf(after, userId) == LiveOf(s, userId) - {oldJti} + {newJti};
    } else {
      assert LiveOf(after, userId) == LiveOf(s, userId);
    }
  }

  // ---- Which tokens are listed ----

  /** A DEL finds every stored token of its user on its list, or has nothing to delete. */
  ghost predicate LosesNothing(s: State, step: Step) {
    step.DeleteRead? && step.call in s.revoking && s.revoking[step.call].jtis != {} ==>
      forall k | k in s.expiry && k.0 == s.revoking[step.call].userId :: k.1 in s.revoking[step.call].jtis
  }

  /** Only a DEL can leave a stored token unlisted, and it does exactly when it misses one. */
  lemma ListedStepIff(s: State, step: Step)
    requires Listed(s)
    ensures Listed(Apply(s, step)) <==> LosesNothing(s, step)
  {
    var after := Apply(s, step);
    if step.DeleteRead? && step.call in s.revoking && s.revoking[step.call].jtis != {} {
      forall k | k in s.expiry && k.0 == s.revoking[step.call].userId && k.1 !in s.revoking[step.call].jtis
        ensures !Listed(after)
      {
        assert k in after.expiry && SessionsOf(after, k.0) == {};
      }
    }
  }

  ghost predicate Lossless(s: State, steps: seq<Step>)
    decreases |steps|
  {
    steps == [] || (LosesNothing(s, steps[0]) && Lossless(Apply(s, steps[0]), steps[1..]))
  }

  /** A run stays listed all along exactly when none of its DELs misses a stored token. */
  lemma {:induction false} LosslessRunIff(s: State, steps: seq<Step>)
    requires Listed(s)
    ensures Lossless(s, steps) <==> ListedThroughout(s, steps)
    decreases |steps|
  {
    if steps != [] {
      ListedStepIff(s, steps[0]);
      if Listed(Apply(s, steps[0])) {
        LosslessRunIff(Apply(s, steps[0]), steps[1..]);
      }
    }
  }

  ghost predicate ListedThroughout(s: State, steps: seq<Step>)
    decreases |steps|
  {
    Listed(s) && (steps == [] || ListedThroughout(Apply(s, steps[0]), steps[1..]))
  }

  /** This step hands the user a token. */
  predicate HandsOut(step: Step, userId: int) {
    (step.Issue? && step.userId == userId) || (step.Rotate? && step.userId == userId)
  }

  /** Nobody is handed a token while a revocation of theirs is unfinished. */
  ghost predicate QuietStep(s: State, step: Step) {
    forall c | c in s.revoking :: !HandsOut(step, s.revoking[c].userId)
  }

  ghost predicate QuietRun(s: State, steps: seq<Step>)
    decreases |steps|
  {
    steps == [] || (QuietStep(s, steps[0]) && QuietRun(Apply(s, steps[0]), steps[1..]))
  }

  /** Every unfinished revocation has read all that is stored for its user. */
  ghost predicate Covering(s: State) {
    forall c, k | c in s.revoking && k in s.expiry && k.0 == s.revoking[c].userId :: k.1 in s.revoking[c].jtis
  }

  lemma QuietStepKeeps(s: State, step: Step)
    requires Listed(s) && Covering(s) && QuietStep(s, step)
    ensures Listed(Apply(s, step)) && Covering(Apply(s, step))
  {
    ListedStepIff(s, step);
  }

  /** Over every run in which no user logs in or refreshes between the two commands of a revocation of theirs,
      each stored refresh key, expired or not, is listed in its user's set, and no DEL misses one. */
  lemma {:induction false} ListedRun(s: State, steps: seq<Step>)
    requires Listed(s) && Covering(s) && QuietRun(s, steps)
    ensures Listed(Run(s, steps)) && Covering(Run(s, steps)) && Lossless(s, steps)
    decreases |steps|
  {
    if steps != [] {
      ListedStepIff(s, steps[0]);
      QuietStepKeeps(s, steps[0]);
      ListedRun(Apply(s, steps[0]), steps[1..]);
    }
  }

  // ---- Calls as single steps ----

  /** A whole call, served with nothing in between. */
  datatype Call = Plain(step: Step) | Revocation(call: int, userId: int)

  function StepsOf(c: Call): seq<Step> {
    match c
    case Plain(step) => [step]
    case Revocation(call, userId) => [ReadSessions(call, userId), DeleteRead(call)]
  }

  function Served(calls: seq<Call>): seq<Step> {
    if calls == [] then [] else StepsOf(calls[0]) + Served(calls[1..])
  }

  /** Single commands of revocations do not come alone. */
  predicate Whole(calls: seq<Call>) {
    forall i | 0 <= i < |calls| && calls[i].Plain? :: !calls[i].step.ReadSessions? && !calls[i].step.DeleteRead?
  }

  lemma {:induction false} RunConcat(s: State, a: seq<Step>, b: seq<Step>)
    ensures Run(s, a + b) == Run(Run(s, a), b)
    ensures QuietRun(s, a + b) <==> QuietRun(s, a) && QuietRun(Run(s, a), b)
    decreases |a|
  {
    if a == [] {
      assert a + b == b;
    } else {
      assert (a + b)[0] == a[0] && (a + b)[1..] == a[1..] + b;
      RunConcat(Apply(s, a[0]), a[1..], b);
    }
  }

  lemma CallIsQuiet(s: State, c: Call)
    requires s.revoking == map[] && (c.Plain? ==> !c.step.ReadSessions? && !c.step.DeleteRead?)
    ensures QuietRun(s, StepsOf(c)) && Run(s, StepsOf(c)).revoking == map[]
  {
    match c
    case Plain(step) =>
      assert [step][1..] == [] && Run(Apply(s, step), []) == Apply(s, step) && QuietRun(Apply(s, step), []);
    case Revocation(call, userId) =>
      var q, read := StepsOf(c), DoRead(s, call, userId);
      assert q[1..] == [DeleteRead(call)] && q[1..][1..] == [];
      assert Run(DoDelete(read, call), []) == DoDelete(read, call) && Run(read, q[1..]) == DoDelete(read, call);
      assert map[call := Reading(userId, SessionsOf(s, userId))] - {call} == map[];
      assert QuietRun(DoDelete(read, call), []) && QuietRun(read, q[1..]);
  }

  /** Calls served one after the other are quiet, whatever they are. */
  lemma {:induction false} ServedIsQuiet(s: State, calls: seq<Call>)
    requires s.revoking == map[] && Whole(calls)
    ensures QuietRun(s, Served(calls)) && Run(s, Served(calls)).revoking == map[]
    decreases |calls|
  {
    if calls != [] {
      CallIsQuiet(s, calls[0]);
      ServedIsQuiet(Run(s, StepsOf(calls[0])), calls[1..]);
      RunConcat(s, StepsOf(calls[0]), Served(calls[1..]));
    }
  }

  /** So with logins, refreshes and revocations each a single step, in any order, every stored key is listed. */
  lemma AtomicListed(now: int, calls: seq<Call>)
    requires Whole(calls)
    ensures Listed(Run(Empty(now), Served(calls)))
  {
    ServedIsQuiet(Empty(now), calls);
    ListedRun(Empty(now), Served(calls));
  }

  // ---- Revocation ----

  /** Steps of other calls, with fresh ids. */
  ghost predicate Between(s: State, call: int, others: seq<Step>) {
    AllFresh(s, others) && forall i | 0 <= i < |others| :: others[i] != DeleteRead(call)
  }

  function Revoked(s: State, call: int, userId: int, others: seq<Step>): State {
    DoDelete(Run(DoRead(s, call, userId), others), call)
  }

  /** The user's live tokens at the moment of the DEL. */
  function Waiting(s: State, call: int, userId: int, others: seq<Step>): set<Jti> {
    LiveOf(Run(DoRead(s, call, userId), others), userId)
  }

  lemma {:induction false} ReadKept(s: State, call: int, others: seq<Step>)
    requires call in s.revoking && forall i | 0 <= i < |others| :: others[i] != DeleteRead(call)
    ensures call in Run(s, others).revoking && Run(s, others).revoking[call] == s.revoking[call]
    decreases |others|
  {
    if others != [] {
      ReadKept(Apply(s, others[0]), call, others[1..]);
    }
  }

  /** A revocation misses exactly the live tokens handed out between its two commands; and as its DEL takes the
      set with it, a second one right after does not even see them. */
  lemma RevokeMisses(s: State, call: int, userId: int, others: seq<Step>)
    requires Listed(s) && call !in s.revoking && Between(DoRead(s, call, userId), call, others)
    ensures LiveOf(Revoked(s, call, userId, others), userId) == Waiting(s, call, userId, others) - s.used
    ensures SessionsOf(s, userId) != {} ==> SessionsOf(Revoked(s, call, userId, others), userId) == {}
  {
    var start := DoRead(s, call, userId);
    var last := Run(start, others);
    var end := DoDelete(last, call);
    ReadKept(start, call, others);
    forall j ensures j in LiveOf(end, userId) <==> j in LiveOf(last, userId) && j !in s.used {
      InLiveOf(end, userId, j);
      InLiveOf(last, userId, j);
      if j in s.used && (userId, j) !in s.expiry {
        GoneForGood(start, others, userId, j);
      }
    }
  }

  /** Hence nothing is missed exactly when every token live at the DEL had been handed out before the SMEMBERS. */
  lemma RevokeLeavesNoneIff(s: State, call: int, userId: int, others: seq<Step>)
    requires Listed(s) && call !in s.revoking && Between(DoRead(s, call, userId), call, others)
    ensures LiveOf(Revoked(s, call, userId, others), userId) == {} <==>
            forall j | Live(Run(DoRead(s, call, userId), others), userId, j) :: j in s.used
  {
    RevokeMisses(s, call, userId, others);
    forall j ensures j in Waiting(s, call, userId, others) <==> Live(Run(DoRead(s, call, userId), others), userId, j) {
      InLiveOf(Run(DoRead(s, call, userId), others), userId, j);
    }
    var missed := Waiting(s, call, userId, others) - s.used;
    if forall j | Live(Run(DoRead(s, call, userId), others), userId, j) :: j in s.used {
      assert missed == {};
    } else {
      var j :| Live(Run(DoRead(s, call, userId), others), userId, j) && j !in s.used;
      assert j in missed;
    }
  }

  lemma {:induction false} NoneHandedOut(s: State, userId: int, others: seq<Step>, jti: Jti)
    requires Known(s) && (forall i | 0 <= i < |others| :: !HandsOut(others[i], userId))
    requires (userId, jti) in Run(s, others).expiry
    ensures (userId, jti) in s.expiry
    decreases |others|
  {
    if others != [] {
      KnownStep(s, others[0]);
      NoneHandedOut(Apply(s, others[0]), userId, others[1..], jti);
    }
  }

  /** A revocation during which that user logs in nowhere and refreshes nothing leaves no live token. */
  lemma QuietRevoke(s: State, call: int, userId: int, others: seq<Step>)
    requires Listed(s) && call !in s.revoking && Between(DoRead(s, call, userId), call, others)
    requires forall i | 0 <= i < |others| :: !HandsOut(others[i], userId)
    ensures LiveOf(Revoked(s, call, userId, others), userId) == {}
  {
    var start := DoRead(s, call, userId);
    forall j | Live(Run(start, others), userId, j) ensures j in s.used {
      NoneHandedOut(start, userId, others, j);
    }
    RevokeLeavesNoneIff(s, call, userId, others);
  }

  /** After any run in which revocations are not disturbed by logins or refreshes of their own user, and whatever
      has expired, an undisturbed revocation leaves no live token. */
  lemma RevokeAfterAnyRun(now: int, steps: seq<Step>, call: int, userId: int, others: seq<Step>)
    requires QuietRun(Empty(now), steps)
    requires var s := Run(Empty(now), steps); call !in s.revoking && Between(DoRead(s, call, userId), call, others)
    requires forall i | 0 <= i < |others| :: !HandsOut(others[i], userId)
    ensures LiveOf(Revoked(Run(Empty(now), steps), call, userId, others), userId) == {}
  {
    ListedRun(Empty(now), steps);
    QuietRevoke(Run(Empty(now), steps), call, userId, others);
  }

  /** With every call a single step, a revocation after any calls at all leaves no live token. */
  lemma AtomicRevoke(now: int, calls: seq<Call>, call: int, userId: int)
    requires Whole(calls)
    ensures LiveOf(Run(Empty(now), Served(calls + [Revocation(call, userId)])), userId) == {}
  {
    var s := Run(Empty(now), Served(calls));
    ServedIsQuiet(Empty(now), calls);
    RevokeAfterAnyRun(now, Served(calls), call, userId, []);
    ServedConcat(calls, Revocation(call, userId));
    RunConcat(Empty(now), Served(calls), StepsOf(Revocation(call, userId)));
    var q, read := StepsOf(Revocation(call, userId)), DoRead(s, call, userId);
    assert q[1..] == [DeleteRead(call)] && q[1..][1..] == [];
    assert Run(DoDelete(read, call), []) == DoDelete(read, call) && Run(read, q[1..]) == DoDelete(read, call);
  }

  lemma {:induction false} ServedConcat(calls: seq<Call>, c: Call)
    ensures Served(calls + [c]) == Served(calls) + StepsOf(c)
    decreases |calls|
  {
    if calls == [] {
      assert calls + [c] == [c] && [c][1..] == [];
    } else {
      assert (calls + [c])[1..] == calls[1..] + [c];
      ServedConcat(calls[1..], c);
    }
  }

  /** A login, and a refresh between the two commands of a revocation: the new token outlives this revocation
      and a second one that nothing disturbs. */
  lemma RefreshOutlivesRevoke()
    ensures var s := Run(Empty(0), [Issue(1, 100)]);
            var revoked := Revoked(s, 8, 1, [Rotate(1, 100, 101)]);
            Live(revoked, 1, 101) && Live(Revoked(revoked, 9, 1, []), 1, 101)
  {
    var s := DoIssue(Empty(0), 1, 100);
    assert [Issue(1, 100)][1..] == [] && Run(s, []) == s;
    assert Run(Empty(0), [Issue(1, 100)]) == s;
    var start := DoRead(s, 8, 1);
    assert [Rotate(1, 100, 101)][1..] == [] && Run(DoRotate(start, 1, 100, 101), []) == DoRotate(start, 1, 100, 101);
    assert Run(start, [Rotate(1, 100, 101)]) == DoRotate(start, 1, 100, 101);
  }

  // ---- Single use ----

  /** A successful rotation of this token. */
  predicate Consumes(s: State, step: Step, userId: int, jti: Jti) {
    step.Rotate? && step.userId == userId && step.oldJti == jti && Live(s, userId, jti)
  }

  /** How many times a run consumes the token. */
  function Consumed(s: State, steps: seq<Step>, userId: int, jti: Jti): nat
    decreases |steps|
  {
    if steps == [] then 0
    else (if Consumes(s, steps[0], userId, jti) then 1 else 0) + Consumed(Apply(s, steps[0]), steps[1..], userId, jti)
  }

  /** A token that has been handed out and is not stored any more never comes back. */
  lemma {:induction false} GoneForGood(s: State, steps: seq<Step>, userId: int, jti: Jti)
    requires AllFresh(s, steps) && jti in s.used && (userId, jti) !in s.expiry
    ensures Consumed(s, steps, userId, jti) == 0 && (userId, jti) !in Run(s, steps).expiry
    decreases |steps|
  {
    if steps != [] {
      GoneForGood(Apply(s, steps[0]), steps[1..], userId, jti);
    }
  }

  /** In every interleaving of issues, rotations, expiries and the single commands of revocations, a token is
      consumed at most once. */
  lemma {:induction false} ConsumedAtMostOnce(s: State, steps: seq<Step>, userId: int, jti: Jti)
    requires Known(s) && AllFresh(s, steps)
    ensures Consumed(s, steps, userId, jti) <= 1
    decreases |steps|
  {
    if steps != [] {
      var next := Apply(s, steps[0]);
      KnownStep(s, steps[0]);
      if Consumes(s, steps[0], userId, jti) {
        assert (userId, jti) in s.expiry && jti in s.used;
        GoneForGood(next, steps[1..], userId, jti);
      } else {
        ConsumedAtMostOnce(next, steps[1..], userId, jti);
      }
    }
  }
}
