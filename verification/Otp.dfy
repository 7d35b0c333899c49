/** One-time codes of one email address: a code, an attempt counter and a resend cooldown, each with its own expiry. */
module Otp {
  import opened Tables

  /** Seconds and counts; the configuration insists that all three are positive. */
  datatype Config = Config(ttl: int, cooldown: int, maxAttempts: int) {
    predicate Valid() {
      ttl > 0 && cooldown > 0 && maxAttempts > 0
    }
  }

  datatype Code = Code(value: string, expiresAt: int)

  datatype Counter = Counter(count: int, expiresAt: int)

  datatype State = State(code: Option<Code>, attempts: Option<Counter>, cooldownUntil: Option<int>)

  /** Nothing stored for the address. */
  const Empty := State(None, None, None)

  datatype Call = Issue(now: int, newCode: string) | Verify(now: int, guess: string)

  datatype Result = Sent | PleaseWait | Accepted | Wrong | ExpiredOrMissing | TooManyAttempts

  /** One issued code: when, how many guesses were compared with it, how many of them were accepted. */
  datatype Issued = Issued(at: int, compared: nat, accepted: nat)

  // ---- The two calls on Redis ----

  function LiveCode(s: State, now: int): Option<Code> {
    if s.code.Some? && now < s.code.value.expiresAt then s.code else None
  }

  /** INCR on a missing or expired counter starts at one. */
  function Incremented(s: State, now: int): int {
    if s.attempts.Some? && now < s.attempts.value.expiresAt then s.attempts.value.count + 1 else 1
  }

  function CoolingDown(s: State, now: int): bool {
    s.cooldownUntil.Some? && now < s.cooldownUntil.value
  }

  function Step(cfg: Config, s: State, call: Call): (State, Result) {
    match call
    case Issue(now, newCode) =>
      if CoolingDown(s, now) then (s, PleaseWait)
      else (State(Some(Code(newCode, now + cfg.ttl)), None, Some(now + cfg.cooldown)), Sent)
    case Verify(now, guess) =>
      var stored := LiveCode(s, now);
      if stored.None? then (s, ExpiredOrMissing)
      else
        var attempts := Incremented(s, now);
        var counted := s.(attempts := Some(Counter(attempts, now + cfg.ttl)));
        if attempts > cfg.maxAttempts then (counted.(code := None), TooManyAttempts)
        else if stored.value.value != guess then (counted, Wrong)
        else (counted.(code := None, attempts := None), Accepted)
  }

  // ---- What happened to each issued code ----

  function Note(history: seq<Issued>, call: Call, r: Result): seq<Issued> {
    if r == Sent then history + [Issued(call.now, 0, 0)]
    else if history != [] && (r == Wrong || r == Accepted) then
      var last := history[|history| - 1];
      history[..|history| - 1] + [last.(compared := last.compared + 1, accepted := last.accepted + if r == Accepted then 1 else 0)]
    else history
  }

  /** Codes are issued at least a cooldown apart. */
  ghost predicate Spaced(cfg: Config, history: seq<Issued>) {
    forall i | 0 < i < |history| :: history[i - 1].at + cfg.cooldown <= history[i].at
  }

  /** No code is compared more often than allowed, or accepted twice. */
  ghost predicate WithinBudget(cfg: Config, history: seq<Issued>) {
    forall i | 0 <= i < |history| :: history[i].compared <= cfg.maxAttempts && history[i].accepted <= 1
  }

  /** The stored keys belong to the newest code, and its counter outlives it. */
  ghost predicate InStep(cfg: Config, s: State, history: seq<Issued>, now: int) {
    && (history == [] ==> s.code.None? && s.cooldownUntil.None?)
    && (history != [] ==>
          var last := history[|history| - 1];
          && last.at <= now && s.cooldownUntil == Some(last.at + cfg.cooldown)
          && (s.code.Some? ==>
                && s.code.value.expiresAt == last.at + cfg.ttl && last.accepted == 0
                && (s.attempts.Some? ==> s.attempts.value.count >= 0)
                && (last.compared == 0 ||
                    (s.attempts.Some? && s.attempts.value.count >= last.compared
                     && s.attempts.value.expiresAt >= s.code.value.expiresAt))))
  }

  ghost predicate Good(cfg: Config, s: State, history: seq<Issued>, now: int) {
    cfg.Valid() && Spaced(cfg, history) && WithinBudget(cfg, history) && InStep(cfg, s, history, now)
  }

  lemma GoodIssue(cfg: Config, s: State, history: seq<Issued>, now: int, call: Call)
    requires Good(cfg, s, history, now) && now <= call.now && call.Issue?
    ensures var (after, r) := Step(cfg, s, call); Good(cfg, after, Note(history, call, r), call.now)
  {
  }

  /** A compared guess goes on the account of the newest code. */
  lemma GoodCompared(cfg: Config, s: State, history: seq<Issued>, now: int, call: Call)
    requires Good(cfg, s, history, now) && now <= call.now && call.Verify?
    requires Step(cfg, s, call).1 == Wrong || Step(cfg, s, call).1 == Accepted
    ensures var (after, r) := Step(cfg, s, call); Good(cfg, after, Note(history, call, r), call.now)
  {
    assert history != [];
  }

  lemma GoodStep(cfg: Config, s: State, history: seq<Issued>, now: int, call: Call)
    requires Good(cfg, s, history, now) && now <= call.now
    ensures var (after, r) := Step(cfg, s, call); Good(cfg, after, Note(history, call, r), call.now)
  {
    var r := Step(cfg, s, call).1;
    if call.Issue? {
      GoodIssue(cfg, s, history, now, call);
    } else if r == Wrong || r == Accepted {
      GoodCompared(cfg, s, history, now, call);
    }
  }

  class OtpService {
    const cfg: Config
    var code: Option<Code>
    var attempts: Option<Counter>
    var cooldownUntil: Option<int>

    constructor (cfg: Config)
      ensures this.cfg == cfg && Now() == Empty
    {
      this.cfg := cfg;
      code, attempts, cooldownUntil := None, None, None;
    }

    ghost function Now(): State
      reads this
    {
      State(code, attempts, cooldownUntil)
    }

    method IssueCode(now: int, newCode: string) returns (r: Result)
      modifies this
      ensures (Now(), r) == Step(cfg, old(Now()), Issue(now, newCode))
      ensures r == PleaseWait <==> old(cooldownUntil).Some? && now < old(cooldownUntil).value
      ensures r != PleaseWait ==> r == Sent && attempts == None && cooldownUntil == Some(now + cfg.cooldown)
                                  && code == Some(Code(newCode, now + cfg.ttl))
      ensures r == PleaseWait ==> Now() == old(Now())
    {
      if cooldownUntil.Some? && now < cooldownUntil.value {
        return PleaseWait;
      }
      code := Some(Code(newCode, now + cfg.ttl));
      attempts := None;
      cooldownUntil := Some(now + cfg.cooldown);
      return Sent;
    }

    method VerifyCode(now: int, guess: string) returns (r: Result)
      modifies this
      ensures (Now(), r) == Step(cfg, old(Now()), Verify(now, guess))
      ensures r == ExpiredOrMissing <==> !(old(code).Some? && now < old(code).value.expiresAt)
      ensures old(code).Some? && now < old(code).value.expiresAt ==>
                var count := if old(attempts).Some? && now < old(attempts).value.expiresAt then old(attempts).value.count + 1 else 1;
                && (r == TooManyAttempts <==> count > cfg.maxAttempts)
                && (r == Accepted <==> count <= cfg.maxAttempts && guess == old(code).value.value)
                && (r == Wrong <==> count <= cfg.maxAttempts && guess != old(code).value.value)
                && attempts == (if r == Accepted then None else Some(Counter(count, now + cfg.ttl)))
      ensures code == if r == Accepted || r == TooManyAttempts then None else old(code)
      ensures cooldownUntil == old(cooldownUntil) && (r == ExpiredOrMissing ==> attempts == old(attempts))
    {
      if !(code.Some? && now < code.value.expiresAt) {
        return ExpiredOrMissing;
      }
      var stored := code.value.value;
      var count := if attempts.Some? && now < attempts.value.expiresAt then attempts.value.count + 1 else 1;
      attempts := Some(Counter(count, now + cfg.ttl));
      if count > cfg.maxAttempts {
        code := None;
        return TooManyAttempts;
      }
      if stored != guess {
        return Wrong;
      }
      code := None;
      attempts := None;
      return Accepted;
    }
  }

  // ---- Whole runs ----

  function Run(cfg: Config, s: State, history: seq<Issued>, calls: seq<Call>): (State, seq<Issued>)
    decreases |calls|
  {
    if calls == [] then (s, history)
    else
      var (after, r) := Step(cfg, s, calls[0]);
      Run(cfg, after, Note(history, calls[0], r), calls[1..])
  }

  ghost predicate InOrder(calls: seq<Call>, now: int) {
    forall i, j | 0 <= i <= j < |calls| :: now <= calls[i].now <= calls[j].now
  }

  lemma {:induction false} GoodRun(cfg: Config, s: State, history: seq<Issued>, now: int, calls: seq<Call>)
    requires Good(cfg, s, history, now) && InOrder(calls, now)
    ensures var (end, all) := Run(cfg, s, history, calls);
            Good(cfg, end, all, if calls == [] then now else calls[|calls| - 1].now)
    decreases |calls|
  {
    if calls != [] {
      var (after, r) := Step(cfg, s, calls[0]);
      GoodStep(cfg, s, history, now, calls[0]);
      GoodRun(cfg, after, Note(history, calls[0], r), calls[0].now, calls[1..]);
    }
  }

  /** Over every run each issued code is compared with at most maxAttempts guesses and accepted at most once. */
  lemma AttemptBudget(cfg: Config, calls: seq<Call>, i: nat)
    requires cfg.Valid() && InOrder(calls, 0) && i < |Run(cfg, Empty, [], calls).1|
    ensures Run(cfg, Empty, [], calls).1[i].compared <= cfg.maxAttempts && Run(cfg, Empty, [], calls).1[i].accepted <= 1
  {
    GoodRun(cfg, Empty, [], 0, calls);
  }

  /** Codes issued in [lo, hi], and guesses compared with them. */
  function IssuedIn(history: seq<Issued>, lo: int, hi: int): nat {
    if history == [] then 0
    else IssuedIn(history[..|history| - 1], lo, hi) + if lo <= history[|history| - 1].at <= hi then 1 else 0
  }

  function ComparedIn(history: seq<Issued>, lo: int, hi: int): nat {
    if history == [] then 0
    else
      var last := history[|history| - 1];
      ComparedIn(history[..|history| - 1], lo, hi) + if lo <= last.at <= hi then last.compared else 0
  }

  lemma {:induction false} ComparedPerIssue(cfg: Config, history: seq<Issued>, lo: int, hi: int)
    requires WithinBudget(cfg, history) && cfg.maxAttempts > 0
    ensures ComparedIn(history, lo, hi) <= cfg.maxAttempts * IssuedIn(history, lo, hi)
  {
    if history != [] {
      ComparedPerIssue(cfg, history[..|history| - 1], lo, hi);
      assert cfg.maxAttempts * (IssuedIn(history[..|history| - 1], lo, hi) + 1) ==
             cfg.maxAttempts * IssuedIn(history[..|history| - 1], lo, hi) + cfg.maxAttempts;
    }
  }

  /** Only the codes up to the last one in range matter. */
  lemma {:induction false} IssuedUpTo(cfg: Config, history: seq<Issued>, lo: int, hi: int, cap: int)
    requires Spaced(cfg, history) && cfg.cooldown > 0 && cap <= hi
    requires history != [] ==> history[|history| - 1].at <= cap
    ensures IssuedIn(history, lo, hi) == IssuedIn(history, lo, cap)
  {
    if |history| > 1 {
      assert history[|history| - 2].at <= history[|history| - 1].at;
    }
    if history != [] {
      IssuedUpTo(cfg, history[..|history| - 1], lo, hi, cap);
    }
  }

  lemma {:induction false} IssuesSpread(cfg: Config, history: seq<Issued>, lo: int, hi: int)
    requires Spaced(cfg, history) && cfg.cooldown > 0
    ensures hi < lo ==> IssuedIn(history, lo, hi) == 0
    ensures lo <= hi && IssuedIn(history, lo, hi) > 0 ==> (IssuedIn(history, lo, hi) - 1) * cfg.cooldown <= hi - lo
  {
    if history != [] {
      var rest, last := history[..|history| - 1], history[|history| - 1];
      if lo <= last.at <= hi {
        var cap := last.at - cfg.cooldown;
        if rest != [] {
          assert history[|history| - 2].at <= cap;
        }
        IssuedUpTo(cfg, rest, lo, hi, cap);
        IssuesSpread(cfg, rest, lo, cap);
        var n := IssuedIn(rest, lo, cap);
        assert (n - 1) * cfg.cooldown + cfg.cooldown == n * cfg.cooldown;
      } else {
        IssuesSpread(cfg, rest, lo, hi);
      }
    }
  }

  lemma QuotientBound(n: nat, c: int, span: int)
    requires c > 0 && span >= 0 && (n > 0 ==> (n - 1) * c <= span)
    ensures n <= span / c + 1
  {
    var q := span / c;
    assert span < (q + 1) * c;
    assert q + 1 <= n - 1 ==> (q + 1) * c <= (n - 1) * c;
  }

  lemma TimesMonotone(k: nat, a: int, b: int)
    requires a <= b
    ensures k * a <= k * b
  {
  }

  /** Over any span of time, the guesses compared with codes issued in it are at most maxAttempts for each
      cooldown that fits, plus one more round. */
  lemma GuessesPerSpan(cfg: Config, calls: seq<Call>, start: int, span: nat)
    requires cfg.Valid() && InOrder(calls, 0)
    ensures ComparedIn(Run(cfg, Empty, [], calls).1, start, start + span) <= cfg.maxAttempts * (span / cfg.cooldown + 1)
  {
    GoodRun(cfg, Empty, [], 0, calls);
    SpanOfHistory(cfg, Run(cfg, Empty, [], calls).1, start, span);
  }

  lemma SpanOfHistory(cfg: Config, history: seq<Issued>, start: int, span: nat)
    requires cfg.Valid() && Spaced(cfg, history) && WithinBudget(cfg, history)
    ensures ComparedIn(history, start, start + span) <= cfg.maxAttempts * (span / cfg.cooldown + 1)
  {
    ComparedPerIssue(cfg, history, start, start + span);
    IssuesSpread(cfg, history, start, start + span);
    var n := IssuedIn(history, start, start + span);
    QuotientBound(n, cfg.cooldown, span);
    TimesMonotone(cfg.maxAttempts, n, span / cfg.cooldown + 1);
  }

  // ---- Which guesses are accepted ----

  function StateAfter(cfg: Config, calls: seq<Call>, k: nat): State
    requires k <= |calls|
  {
    if k == 0 then Empty else Step(cfg, StateAfter(cfg, calls, k - 1), calls[k - 1]).0
  }

  function Answer(cfg: Config, calls: seq<Call>, k: nat): Result
    requires k < |calls|
  {
    Step(cfg, StateAfter(cfg, calls, k), calls[k]).1
  }

  predicate SentAt(cfg: Config, calls: seq<Call>, i: nat)
    requires i < |calls|
  {
    calls[i].Issue? && Answer(cfg, calls, i) == Sent
  }

  /** The i-th call issued the code that is the latest one before the k-th call. */
  ghost predicate Latest(cfg: Config, calls: seq<Call>, i: nat, k: nat)
    requires k <= |calls|
  {
    i < k && SentAt(cfg, calls, i) && forall j | i < j < k :: !SentAt(cfg, calls, j)
  }

  /** How many guesses were made while the code of the i-th call was fresh, before the k-th call. */
  function Tries(cfg: Config, calls: seq<Call>, i: nat, k: nat): nat
    requires i < k <= |calls|
  {
    if k == i + 1 then 0
    else Tries(cfg, calls, i, k - 1) + if calls[k - 1].Verify? && calls[k - 1].now < calls[i].now + cfg.ttl then 1 else 0
  }

  /** Some call strictly between them accepted a guess. */
  ghost predicate Used(cfg: Config, calls: seq<Call>, i: nat, k: nat)
    requires k <= |calls|
  {
    exists j | i < j < k :: Answer(cfg, calls, j) == Accepted
  }

  ghost predicate NoneSent(cfg: Config, calls: seq<Call>, k: nat)
    requires k <= |calls|
  {
    forall i | 0 <= i < k :: !SentAt(cfg, calls, i)
  }

  /** The keys say what became of the code of the i-th call. */
  ghost predicate Linked(cfg: Config, calls: seq<Call>, i: nat, k: nat)
    requires i < k <= |calls| && calls[i].Issue?
  {
    var s := StateAfter(cfg, calls, k);
    var tries := Tries(cfg, calls, i, k);
    && s.cooldownUntil == Some(calls[i].now + cfg.cooldown)
    && (s.code.None? ==> Used(cfg, calls, i, k) || tries > cfg.maxAttempts)
    && (s.code.Some? ==>
          && s.code == Some(Code(calls[i].newCode, calls[i].now + cfg.ttl)) && !Used(cfg, calls, i, k)
          && tries <= cfg.maxAttempts
          && (if tries == 0 then s.attempts == None
              else s.attempts.Some? && s.attempts.value.count == tries && s.attempts.value.expiresAt >= calls[i].now + cfg.ttl))
  }

  lemma LinkedMore(cfg: Config, calls: seq<Call>, i: nat, k: nat)
    requires cfg.Valid() && InOrder(calls, 0) && k < |calls|
    requires Latest(cfg, calls, i, k) && Linked(cfg, calls, i, k) && !SentAt(cfg, calls, k)
    ensures Latest(cfg, calls, i, k + 1) && Linked(cfg, calls, i, k + 1)
  {
    assert calls[i].now <= calls[k].now;
    if Used(cfg, calls, i, k) {
      var j :| i < j < k && Answer(cfg, calls, j) == Accepted;
      assert Used(cfg, calls, i, k + 1);
    }
    if Answer(cfg, calls, k) == Accepted {
      assert Used(cfg, calls, i, k + 1);
    }
  }

  lemma LinkedFirst(cfg: Config, calls: seq<Call>, k: nat)
    requires cfg.Valid() && k < |calls| && SentAt(cfg, calls, k)
    ensures Latest(cfg, calls, k, k + 1) && Linked(cfg, calls, k, k + 1)
  {
  }

  lemma {:induction false} History(cfg: Config, calls: seq<Call>, k: nat)
    requires cfg.Valid() && InOrder(calls, 0) && k <= |calls|
    ensures NoneSent(cfg, calls, k) ==> StateAfter(cfg, calls, k) == Empty
    ensures forall i: nat | Latest(cfg, calls, i, k) :: Linked(cfg, calls, i, k)
  {
    if k > 0 {
      History(cfg, calls, k - 1);
      if SentAt(cfg, calls, k - 1) {
        LinkedFirst(cfg, calls, k - 1);
      }
      forall i: nat | Latest(cfg, calls, i, k) ensures Linked(cfg, calls, i, k) {
        if i < k - 1 {
          assert Latest(cfg, calls, i, k - 1);
          LinkedMore(cfg, calls, i, k - 1);
        }
      }
    }
  }

  lemma {:induction false} LatestOrNone(cfg: Config, calls: seq<Call>, k: nat) returns (i: nat)
    requires k <= |calls| && !NoneSent(cfg, calls, k)
    ensures Latest(cfg, calls, i, k)
  {
    if SentAt(cfg, calls, k - 1) {
      i := k - 1;
    } else {
      i := LatestOrNone(cfg, calls, k - 1);
    }
  }

  /** Over every run, a guess is accepted exactly when it is the code of the latest mail, within its ttl and within
      the budget of guesses, and that code has not been used. */
  lemma AcceptedIff(cfg: Config, calls: seq<Call>, k: nat)
    requires cfg.Valid() && InOrder(calls, 0) && k < |calls| && calls[k].Verify?
    ensures Answer(cfg, calls, k) == Accepted <==>
            exists i: nat :: Latest(cfg, calls, i, k) && calls[k].guess == calls[i].newCode && calls[k].now < calls[i].now + cfg.ttl
              && Tries(cfg, calls, i, k) < cfg.maxAttempts && !Used(cfg, calls, i, k)
  {
    History(cfg, calls, k);
    if !NoneSent(cfg, calls, k) {
      var i := LatestOrNone(cfg, calls, k);
      assert Linked(cfg, calls, i, k);
      forall j: nat | Latest(cfg, calls, j, k) ensures j == i {
      }
    }
  }

  /** ... and answered WRONG exactly when all that holds of it but for being the code. */
  lemma WrongIff(cfg: Config, calls: seq<Call>, k: nat)
    requires cfg.Valid() && InOrder(calls, 0) && k < |calls| && calls[k].Verify?
    ensures Answer(cfg, calls, k) == Wrong <==>
            exists i: nat :: Latest(cfg, calls, i, k) && calls[k].guess != calls[i].newCode && calls[k].now < calls[i].now + cfg.ttl
              && Tries(cfg, calls, i, k) < cfg.maxAttempts && !Used(cfg, calls, i, k)
  {
    History(cfg, calls, k);
    if !NoneSent(cfg, calls, k) {
      var i := LatestOrNone(cfg, calls, k);
      assert Linked(cfg, calls, i, k);
      forall j: nat | Latest(cfg, calls, j, k) ensures j == i {
      }
    }
  }

  /** Over every run, a code is mailed exactly when the previous mail is at least a cooldown old. */
  lemma SentIff(cfg: Config, calls: seq<Call>, k: nat)
    requires cfg.Valid() && InOrder(calls, 0) && k < |calls| && calls[k].Issue?
    ensures Answer(cfg, calls, k) == Sent <==> forall i: nat | Latest(cfg, calls, i, k) :: calls[i].now + cfg.cooldown <= calls[k].now
  {
    History(cfg, calls, k);
    if !NoneSent(cfg, calls, k) {
      var i := LatestOrNone(cfg, calls, k);
      assert Linked(cfg, calls, i, k);
    }
  }

  /** A guess is answered TOO MANY exactly when the code of the latest mail is still fresh and unused and its budget is spent
      by this guess for the first time. */
  lemma TooManyIff(cfg: Config, calls: seq<Call>, k: nat)
    requires cfg.Valid() && InOrder(calls, 0) && k < |calls| && calls[k].Verify?
    ensures Answer(cfg, calls, k) == TooManyAttempts <==>
            exists i: nat :: Latest(cfg, calls, i, k) && calls[k].now < calls[i].now + cfg.ttl
              && Tries(cfg, calls, i, k) == cfg.maxAttempts && !Used(cfg, calls, i, k)
  {
    History(cfg, calls, k);
    if !NoneSent(cfg, calls, k) {
      var i := LatestOrNone(cfg, calls, k);
      assert Linked(cfg, calls, i, k);
      forall j: nat | Latest(cfg, calls, j, k) ensures j == i {
      }
    }
  }
}
