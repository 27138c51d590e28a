/**
 POST /otp as interleaved steps. Any number of handlers run at once; only a
 limiter command or a verifier call is atomic. One millisecond clock is shared
 by the web tier, the limiter and the verifier.

 The same system runs over a limiter that forgets and over one that never does.
 */
module Login {
  import opened Numerals
  import opened Limits
  import opened Ids
  import opened Attempts

  /** commandDelay bounds a limiter command in flight, claimDelay the time from match to claim. */
  datatype Config = Config(attemptsPerWindow: int, ipAttemptsPerMinute: int, commandDelay: nat, claimDelay: nat)

  datatype Handler =
    | Counted(rawId: string, rawCode: string)
    | Asking(id: string, code: string, askedAt: nat)
    | Verifying(id: string, code: string)
    | Matched(id: string, counter: nat, at: nat)
    | Granted(claim: nat)
    | Finished

  datatype SuccessfulClaim = SuccessfulClaim(id: string, counter: nat, at: nat)

  /** posted and asked are the attempts counted per IP and per device; sessions lists the claim of each session created. */
  datatype State = State(now: nat, limiter: Limiter, handlers: map<nat, Handler>,
                         claims: seq<SuccessfulClaim>, posted: seq<Attempt>, asked: seq<Attempt>, sessions: seq<nat>)

  datatype Action =
    | Tick(ms: nat)
    | Forget(drop: Dropped)
    | Post(h: nat, ip: string, askedAt: nat, rawId: string, rawCode: string)
    | AskBudget(h: nat)
    | Budget(h: nat)
    | Answer(h: nat, reply: Option<nat>)
    | ClaimIt(h: nat)
    | Open(h: nat)

  const EMPTY_FORGETFUL := Forgetful(map[], map[], map[])
  const EMPTY_PERFECT := Perfect(map[], map[], map[])

  function Start(limiter: Limiter): State {
    State(0, limiter, map[], [], [], [], [])
  }

  /** An action that is not possible in a state leaves it as it is. */
  function Step(c: Config, s: State, a: Action): State {
    match a
    case Tick(ms) => s.(now := s.now + ms)
    case Forget(drop) =>
      if MayForget(s.limiter, drop, s.now, c.commandDelay) then s.(limiter := Forgot(s.limiter, drop)) else s
    case Post(h, ip, askedAt, rawId, rawCode) =>
      if h !in s.handlers && InTime(askedAt, s.now, c.commandDelay)
      then
        var (limiter, ok) := AllowIp(s.limiter, ip, MinuteOf(askedAt), c.ipAttemptsPerMinute);
        s.(limiter := limiter, handlers := s.handlers[h := if ok then Counted(rawId, rawCode) else Finished],
           posted := s.posted + [Attempt(ip, askedAt, s.now, ok)])
      else s
    case AskBudget(h) =>
      if h in s.handlers && s.handlers[h].Counted?
      then
        var id, code := NormalizeId(s.handlers[h].rawId), NormalizeCode(s.handlers[h].rawCode);
        s.(handlers := s.handlers[h := if IsValidId(id) && IsValidCode(code) then Asking(id, code, s.now) else Finished])
      else s
    case Budget(h) =>
      if h in s.handlers && s.handlers[h].Asking? && InTime(s.handlers[h].askedAt, s.now, c.commandDelay)
      then
        var Asking(id, code, askedAt) := s.handlers[h];
        var (limiter, ok) := AllowDevice(s.limiter, id, WindowOf(askedAt), c.attemptsPerWindow);
        s.(limiter := limiter,
           handlers := s.handlers[h := if ok then Verifying(id, code) else Finished],
           asked := s.asked + [Attempt(id, askedAt, s.now, ok)])
      else s
    case Answer(h, reply) =>
      if h in s.handlers && s.handlers[h].Verifying?
      then
        match reply
        case None => s.(handlers := s.handlers[h := Finished])
        case Some(counter) =>
          if InWindow(counter, s.now)
          then s.(handlers := s.handlers[h := Matched(s.handlers[h].id, counter, s.now)])
          else s
      else s
    case ClaimIt(h) =>
      if h in s.handlers && s.handlers[h].Matched? && InTime(s.handlers[h].at, s.now, c.claimDelay)
      then
        var Matched(id, counter, at) := s.handlers[h];
        var (limiter, ok) := ClaimCounter(s.limiter, id, counter, s.now);
        s.(limiter := limiter,
           handlers := s.handlers[h := if ok then Granted(|s.claims|) else Finished],
           claims := if ok then s.claims + [SuccessfulClaim(id, counter, s.now)] else s.claims)
      else s
    case Open(h) =>
      if h in s.handlers && s.handlers[h].Granted?
      then s.(handlers := s.handlers[h := Finished], sessions := s.sessions + [s.handlers[h].claim])
      else s
  }

  function Run(c: Config, s: State, acts: seq<Action>): State {
    if acts == [] then s else Step(c, Run(c, s, acts[..|acts| - 1]), acts[|acts| - 1])
  }

  lemma RunExtends(c: Config, s: State, acts: seq<Action>, a: Action)
    ensures Run(c, s, acts + [a]) == Step(c, Run(c, s, acts), a)
  {
    assert (acts + [a])[..|acts|] == acts;
  }

  // ---- Forgetting is invisible ---------------------------------------------------

  ghost predicate HandlersSane(s: State) {
    forall h :: h in s.handlers ==>
      match s.handlers[h]
      case Asking(_, _, askedAt) => askedAt <= s.now
      case Matched(_, counter, at) => at <= s.now && InWindow(counter, at)
      case _ => true
  }

  /** Equal in everything but the limiter. */
  predicate LooksLike(s: State, p: State) {
    s == p.(limiter := s.limiter)
  }

  /** The two systems are in step: the same in everything but what the limiter has kept. */
  ghost predicate InStep(c: Config, s: State, p: State) {
    HandlersSane(s) && LooksLike(s, p) && Agree(s.limiter, p.limiter, s.now, c.commandDelay)
  }

  lemma PostAgrees(c: Config, s: State, p: State, a: Action)
    requires InStep(c, s, p) && a.Post?
    ensures InStep(c, Step(c, s, a), Step(c, p, a))
  {
    hide AttemptKey, SlotOver, SameClaims, ClaimCounter, NormalizeId, NormalizeCode;
    if a.h !in s.handlers && InTime(a.askedAt, s.now, c.commandDelay) {
      BumpAgrees(s.limiter.ips, p.limiter.ips, a.ip, MinuteOf(a.askedAt), MINUTE_MS, s.now, c.commandDelay);
    }
  }

  lemma BudgetAgrees(c: Config, s: State, p: State, a: Action)
    requires InStep(c, s, p) && a.Budget?
    ensures InStep(c, Step(c, s, a), Step(c, p, a))
  {
    hide AttemptKey, SlotOver, SameClaims, ClaimCounter, NormalizeId, NormalizeCode;
    if a.h in s.handlers && s.handlers[a.h].Asking? && InTime(s.handlers[a.h].askedAt, s.now, c.commandDelay) {
      BumpAgrees(s.limiter.devices, p.limiter.devices, s.handlers[a.h].id, WindowOf(s.handlers[a.h].askedAt), STEP_MS,
                 s.now, c.commandDelay);
    }
  }

  lemma ClaimItAgrees(c: Config, s: State, p: State, a: Action)
    requires c.claimDelay <= STEP_MS && InStep(c, s, p) && a.ClaimIt?
    ensures InStep(c, Step(c, s, a), Step(c, p, a))
  {
    if a.h in s.handlers && s.handlers[a.h].Matched? && InTime(s.handlers[a.h].at, s.now, c.claimDelay) {
      var Matched(id, counter, at) := s.handlers[a.h];
      ClaimAgrees(s.limiter, p.limiter, id, counter, at, s.now, c.commandDelay);
    }
  }

  lemma StepAgrees(c: Config, s: State, p: State, a: Action)
    requires c.claimDelay <= STEP_MS && InStep(c, s, p)
    ensures InStep(c, Step(c, s, a), Step(c, p, a))
  {
    match a
    case Tick(ms) => AgreeLater(s.limiter, p.limiter, s.now, s.now + ms, c.commandDelay);
    case Forget(drop) =>
      if MayForget(s.limiter, drop, s.now, c.commandDelay) {
        AgreeForget(s.limiter, p.limiter, drop, s.now, c.commandDelay);
      }
    case Post(_, _, _, _, _) => PostAgrees(c, s, p, a);
    case Budget(_) => BudgetAgrees(c, s, p, a);
    case ClaimIt(_) => ClaimItAgrees(c, s, p, a);
    case _ =>
  }

  lemma {:induction false} RunAgrees(c: Config, acts: seq<Action>)
    requires c.claimDelay <= STEP_MS
    ensures InStep(c, Run(c, Start(EMPTY_FORGETFUL), acts), Run(c, Start(EMPTY_PERFECT), acts))
  {
    if acts != [] {
      var before := acts[..|acts| - 1];
      RunAgrees(c, before);
      StepAgrees(c, Run(c, Start(EMPTY_FORGETFUL), before), Run(c, Start(EMPTY_PERFECT), before), acts[|acts| - 1]);
    }
  }

  /**
   Every run over a limiter that forgets is, handler by handler and claim by claim,
   the run over one that never does.
   */
  lemma ForgettingIsInvisible(c: Config, acts: seq<Action>)
    requires c.claimDelay <= STEP_MS
    ensures LooksLike(Run(c, Start(EMPTY_FORGETFUL), acts), Run(c, Start(EMPTY_PERFECT), acts))
  {
    RunAgrees(c, acts);
  }

  // ---- A code works once -----------------------------------------------------------

  /** RFC 6238, section 5.2: per device, later successes have strictly larger counters. */
  ghost predicate Increasing(claims: seq<SuccessfulClaim>) {
    forall i, j :: 0 <= i < j < |claims| && claims[i].id == claims[j].id ==> claims[i].counter < claims[j].counter
  }

  ghost predicate BestIsBest(s: State) {
    && s.limiter.Perfect?
    && Increasing(s.claims)
    && forall i :: 0 <= i < |s.claims| ==>
         s.claims[i].id in s.limiter.best && s.claims[i].counter <= s.limiter.best[s.claims[i].id]
  }

  lemma {:induction false} PerfectIncreases(c: Config, acts: seq<Action>)
    ensures BestIsBest(Run(c, Start(EMPTY_PERFECT), acts))
  {
    if acts != [] {
      PerfectIncreases(c, acts[..|acts| - 1]);
    }
  }

  /** A claim leads to one session at most. */
  ghost predicate SessionsDistinct(s: State) {
    && (forall i :: 0 <= i < |s.sessions| ==> s.sessions[i] < |s.claims|)
    && (forall i, j :: 0 <= i < j < |s.sessions| ==> s.sessions[i] != s.sessions[j])
    && (forall h :: h in s.handlers && s.handlers[h].Granted? ==>
          s.handlers[h].claim < |s.claims| && s.handlers[h].claim !in s.sessions)
    && (forall h, k :: h in s.handlers && k in s.handlers && h != k && s.handlers[h].Granted? && s.handlers[k].Granted?
          ==> s.handlers[h].claim != s.handlers[k].claim)
  }

  /** Handler h finishes, or is granted the claim just made. */
  lemma MovedSessionsDistinct(s: State, s': State, h: nat)
    requires SessionsDistinct(s) && s'.sessions == s.sessions && s.claims <= s'.claims
    requires forall k :: k in s'.handlers && k != h ==> k in s.handlers && s'.handlers[k] == s.handlers[k]
    requires h in s'.handlers && s'.handlers[h].Granted? ==>
               s'.handlers[h].claim == |s.claims| < |s'.claims| || (h in s.handlers && s'.handlers[h] == s.handlers[h])
    ensures SessionsDistinct(s')
  {
    assert forall i :: 0 <= i < |s.sessions| ==> s.sessions[i] < |s.claims|;
  }

  lemma OpenSessionsDistinct(s: State, s': State, h: nat)
    requires SessionsDistinct(s) && h in s.handlers && s.handlers[h].Granted?
    requires s'.handlers == s.handlers[h := Finished] && s'.sessions == s.sessions + [s.handlers[h].claim]
    requires s'.claims == s.claims
    ensures SessionsDistinct(s')
  {
    assert forall k :: k in s'.handlers && s'.handlers[k].Granted? ==> k != h && s'.handlers[k] == s.handlers[k];
  }

  lemma StepSessionsDistinct(c: Config, s: State, a: Action)
    requires SessionsDistinct(s)
    ensures SessionsDistinct(Step(c, s, a))
  {
    var s' := Step(c, s, a);
    if s' != s {
      match a
      case Tick(_) => MovedSessionsDistinct(s, s', 0);
      case Forget(_) => MovedSessionsDistinct(s, s', 0);
      case Open(h) => OpenSessionsDistinct(s, s', h);
      case _ => MovedSessionsDistinct(s, s', a.h);
    }
  }

  lemma {:induction false} RunSessionsDistinct(c: Config, limiter: Limiter, acts: seq<Action>)
    ensures SessionsDistinct(Run(c, Start(limiter), acts))
  {
    if acts != [] {
      var before := acts[..|acts| - 1];
      RunSessionsDistinct(c, limiter, before);
      StepSessionsDistinct(c, Run(c, Start(limiter), before), acts[|acts| - 1]);
    }
  }

  /** No two sessions were opened with the same device and counter. */
  ghost predicate OneSessionPerCode(s: State)
    requires SessionsDistinct(s)
  {
    forall i, j :: 0 <= i < j < |s.sessions| ==>
      (s.claims[s.sessions[i]].id, s.claims[s.sessions[i]].counter) != (s.claims[s.sessions[j]].id, s.claims[s.sessions[j]].counter)
  }

  lemma IncreasingMeansOnce(s: State)
    requires SessionsDistinct(s) && Increasing(s.claims)
    ensures OneSessionPerCode(s)
  {
    forall i, j | 0 <= i < j < |s.sessions|
      ensures (s.claims[s.sessions[i]].id, s.claims[s.sessions[i]].counter) !=
              (s.claims[s.sessions[j]].id, s.claims[s.sessions[j]].counter)
    {
      var a, b := s.sessions[i], s.sessions[j];
      assert a != b;
      assert a < b || b < a;
    }
  }

  lemma CodeWorksOnce(c: Config, acts: seq<Action>)
    requires c.claimDelay <= STEP_MS
    ensures var s := Run(c, Start(EMPTY_FORGETFUL), acts);
            Increasing(s.claims) && SessionsDistinct(s) && OneSessionPerCode(s)
  {
    ForgettingIsInvisible(c, acts);
    PerfectIncreases(c, acts);
    RunSessionsDistinct(c, EMPTY_FORGETFUL, acts);
    IncreasingMeansOnce(Run(c, Start(EMPTY_FORGETFUL), acts));
  }
}
