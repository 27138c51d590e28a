/** The login protocol over Redis itself: keys that vanish when their time is up, and the two scripts. */
module RedisLogin {
  import opened Numerals
  import opened Ids
  import opened Limits
  import opened RedisLimiter
  import opened Attempts
  import Login
  import LoginBounds
  import LoginHistory

  /** login.limiter plays no part; `keys` is the limiter. */
  datatype State = State(keys: Keyspace, login: Login.State)

  const NO_KEYS: Keyspace := Keyspace(map[], map[], map[])
  const START: State := State(NO_KEYS, Login.Start(Login.EMPTY_FORGETFUL))

  // ---- The limiter's commands, run on the server at t ------------------------------------

  function AskIp(keys: Keyspace, ip: string, askedAt: nat, t: nat, limit: int): (Keyspace, bool) {
    var key := AttemptKey(ip, MinuteOf(askedAt));
    var after := IncrExpire(keys.ip, key, 120, t);
    (keys.(ip := after), after[key].value <= limit)
  }

  function AskDevice(keys: Keyspace, id: string, askedAt: nat, t: nat, limit: int): (Keyspace, bool) {
    var key := AttemptKey(id, WindowOf(askedAt));
    var after := IncrExpire(keys.dev, key, STEP_SECONDS * 2, t);
    (keys.(dev := after), after[key].value <= limit)
  }

  function AskClaim(keys: Keyspace, id: string, counter: nat, t: nat): (Keyspace, bool) {
    var (after, answer) := ClaimScript(keys.used, id, counter, STEP_SECONDS * 4, t);
    (keys.(used := after), answer == 1)
  }

  lemma AskIpIsAllowIp(keys: Keyspace, ip: string, askedAt: nat, t: nat, limit: int)
    requires Valid(keys) && askedAt <= t
    ensures var (after, ok) := AskIp(keys, ip, askedAt, t, limit);
            Valid(after) && (View(after, t), ok) == AllowIp(View(keys, t), ip, MinuteOf(askedAt), limit)
  {
    var key := AttemptKey(ip, MinuteOf(askedAt));
    NewKeyOutlivesSlot(ip, MinuteOf(askedAt), MINUTE_MS, 120, t);
    IncrIsBump(keys.ip, key, MINUTE_MS, 120, t);
    assert Counters(IncrExpire(keys.ip, key, 120, t), t)[key] == IncrExpire(keys.ip, key, 120, t)[key].value;
  }

  lemma AskDeviceIsAllowDevice(keys: Keyspace, id: string, askedAt: nat, t: nat, limit: int)
    requires Valid(keys) && askedAt <= t
    ensures var (after, ok) := AskDevice(keys, id, askedAt, t, limit);
            Valid(after) && (View(after, t), ok) == AllowDevice(View(keys, t), id, WindowOf(askedAt), limit)
  {
    var key := AttemptKey(id, WindowOf(askedAt));
    NewKeyOutlivesSlot(id, WindowOf(askedAt), STEP_MS, STEP_SECONDS * 2, t);
    IncrIsBump(keys.dev, key, STEP_MS, STEP_SECONDS * 2, t);
    assert Counters(IncrExpire(keys.dev, key, STEP_SECONDS * 2, t), t)[key] ==
           IncrExpire(keys.dev, key, STEP_SECONDS * 2, t)[key].value;
  }

  lemma AskClaimIsClaimCounter(keys: Keyspace, id: string, counter: nat, t: nat)
    requires Valid(keys)
    ensures var (after, ok) := AskClaim(keys, id, counter, t);
            Valid(after) && (View(after, t), ok) == ClaimCounter(View(keys, t), id, counter, t)
  {
    ClaimIsClaim(keys.used, id, counter, t);
  }

  // ---- The protocol ------------------------------------------------------------------------

  /** As Login.Step, but every limiter command goes to the keys; Redis needs no telling to forget. */
  function Step(c: Login.Config, s: State, a: Login.Action): State {
    var p := s.login;
    match a
    case Forget(_) => s
    case Post(h, ip, askedAt, rawId, rawCode) =>
      if h !in p.handlers && InTime(askedAt, p.now, c.commandDelay)
      then
        var (keys, ok) := AskIp(s.keys, ip, askedAt, p.now, c.ipAttemptsPerMinute);
        State(keys, p.(handlers := p.handlers[h := if ok then Login.Counted(rawId, rawCode) else Login.Finished],
                       posted := p.posted + [Attempt(ip, askedAt, p.now, ok)]))
      else s
    case Budget(h) =>
      if h in p.handlers && p.handlers[h].Asking? && InTime(p.handlers[h].askedAt, p.now, c.commandDelay)
      then
        var id, code, askedAt := p.handlers[h].id, p.handlers[h].code, p.handlers[h].askedAt;
        var (keys, ok) := AskDevice(s.keys, id, askedAt, p.now, c.attemptsPerWindow);
        State(keys, p.(handlers := p.handlers[h := if ok then Login.Verifying(id, code) else Login.Finished],
                       asked := p.asked + [Attempt(id, askedAt, p.now, ok)]))
      else s
    case ClaimIt(h) =>
      if h in p.handlers && p.handlers[h].Matched? && InTime(p.handlers[h].at, p.now, c.claimDelay)
      then
        var id, counter := p.handlers[h].id, p.handlers[h].counter;
        var (keys, ok) := AskClaim(s.keys, id, counter, p.now);
        State(keys, p.(handlers := p.handlers[h := if ok then Login.Granted(|p.claims|) else Login.Finished],
                       claims := if ok then p.claims + [Login.SuccessfulClaim(id, counter, p.now)] else p.claims))
      else s
    case _ => s.(login := Login.Step(c, p, a))
  }

  function Run(c: Login.Config, acts: seq<Login.Action>): State {
    if acts == [] then START else Step(c, Run(c, acts[..|acts| - 1]), acts[|acts| - 1])
  }

  /** The login state over the forgetful limiter that the readable keys amount to now. */
  function Shadow(s: State): Login.State {
    s.login.(limiter := View(s.keys, s.login.now))
  }

  // ---- It answers as if nothing were ever forgotten ---------------------------------------------

  lemma CommandIsLogin(c: Login.Config, s: State, a: Login.Action)
    requires Valid(s.keys) && (a.Post? || a.Budget? || a.ClaimIt?)
    ensures Valid(Step(c, s, a).keys) && Shadow(Step(c, s, a)) == Login.Step(c, Shadow(s), a)
  {
    hide AskIp, AskDevice, AskClaim, View, AllowIp, AllowDevice, ClaimCounter, Valid;
    var now, handlers := s.login.now, s.login.handlers;
    match a
    case Post(h, ip, askedAt, _, _) =>
      if h !in handlers && InTime(askedAt, now, c.commandDelay) {
        AskIpIsAllowIp(s.keys, ip, askedAt, now, c.ipAttemptsPerMinute);
      }
    case Budget(h) =>
      if h in handlers && handlers[h].Asking? && InTime(handlers[h].askedAt, now, c.commandDelay) {
        AskDeviceIsAllowDevice(s.keys, handlers[h].id, handlers[h].askedAt, now, c.attemptsPerWindow);
      }
    case ClaimIt(h) =>
      if h in handlers && handlers[h].Matched? && InTime(handlers[h].at, now, c.claimDelay) {
        AskClaimIsClaimCounter(s.keys, handlers[h].id, handlers[h].counter, now);
      }
  }

  /** Time passing is a tick and then an act of forgetting. */
  lemma TickIsForgetting(c: Login.Config, s: State, ms: nat) returns (drop: Dropped)
    requires Valid(s.keys) && c.commandDelay <= MINUTE_MS
    ensures var ticked := Login.Step(c, Shadow(s), Login.Tick(ms));
            Shadow(Step(c, s, Login.Tick(ms))) == Login.Step(c, ticked, Login.Forget(drop))
  {
    hide View, MayForget, Forgot, Valid;
    var now := s.login.now;
    ExpiryIsForgetting(s.keys, now, now + ms, c.commandDelay);
    drop :| MayForget(View(s.keys, now), drop, now + ms, c.commandDelay) &&
            View(s.keys, now + ms) == Forgot(View(s.keys, now), drop);
  }

  lemma PerfectForgetsNothing(c: Login.Config, p: Login.State, drop: Dropped)
    requires p.limiter.Perfect?
    ensures Login.Step(c, p, Login.Forget(drop)) == p
  {
  }

  lemma OthersAreLogin(c: Login.Config, s: State, a: Login.Action)
    requires a.AskBudget? || a.Answer? || a.Open?
    ensures Step(c, s, a).keys == s.keys && Shadow(Step(c, s, a)) == Login.Step(c, Shadow(s), a)
  {
    hide View;
  }

  lemma StepInStep(c: Login.Config, s: State, p: Login.State, a: Login.Action)
    requires c.claimDelay <= STEP_MS && c.commandDelay <= MINUTE_MS
    requires Valid(s.keys) && Login.InStep(c, Shadow(s), p)
    ensures Valid(Step(c, s, a).keys) && Login.InStep(c, Shadow(Step(c, s, a)), Login.Step(c, p, a))
  {
    hide Login.InStep, Login.Step, Shadow, Valid;
    if a.Forget? {
      ForgetIsNothing(c, s, p, a.drop);
    } else {
      Login.StepAgrees(c, Shadow(s), p, a);
      if a.Tick? {
        TickInStep(c, s, p, a.ms);
      } else if a.Post? || a.Budget? || a.ClaimIt? {
        CommandIsLogin(c, s, a);
      } else {
        OthersAreLogin(c, s, a);
      }
    }
  }

  lemma ForgetIsNothing(c: Login.Config, s: State, p: Login.State, drop: Dropped)
    requires Login.InStep(c, Shadow(s), p)
    ensures Step(c, s, Login.Forget(drop)) == s && Login.Step(c, p, Login.Forget(drop)) == p
  {
    PerfectForgetsNothing(c, p, drop);
  }

  lemma TickInStep(c: Login.Config, s: State, p: Login.State, ms: nat)
    requires c.claimDelay <= STEP_MS && c.commandDelay <= MINUTE_MS && Valid(s.keys)
    requires Login.InStep(c, Login.Step(c, Shadow(s), Login.Tick(ms)), Login.Step(c, p, Login.Tick(ms)))
    ensures Step(c, s, Login.Tick(ms)).keys == s.keys
    ensures Login.InStep(c, Shadow(Step(c, s, Login.Tick(ms))), Login.Step(c, p, Login.Tick(ms)))
  {
    var drop := TickIsForgetting(c, s, ms);
    var s1, p1 := Login.Step(c, Shadow(s), Login.Tick(ms)), Login.Step(c, p, Login.Tick(ms));
    Login.StepAgrees(c, s1, p1, Login.Forget(drop));
    PerfectForgetsNothing(c, p1, drop);
  }

  lemma {:induction false} RunInStep(c: Login.Config, acts: seq<Login.Action>)
    requires c.claimDelay <= STEP_MS && c.commandDelay <= MINUTE_MS
    ensures Valid(Run(c, acts).keys)
    ensures Login.InStep(c, Shadow(Run(c, acts)), Login.Run(c, Login.Start(Login.EMPTY_PERFECT), acts))
  {
    if acts != [] {
      var before := acts[..|acts| - 1];
      RunInStep(c, before);
      StepInStep(c, Run(c, before), Login.Run(c, Login.Start(Login.EMPTY_PERFECT), before), acts[|acts| - 1]);
    }
  }

  /** Every run over Redis is, handler by handler and claim by claim, the run over a limiter that forgets nothing. */
  lemma RedisIsPerfect(c: Login.Config, acts: seq<Login.Action>)
    requires c.claimDelay <= STEP_MS && c.commandDelay <= MINUTE_MS
    ensures Login.LooksLike(Shadow(Run(c, acts)), Login.Run(c, Login.Start(Login.EMPTY_PERFECT), acts))
  {
    RunInStep(c, acts);
  }

  /** Over Redis, too, the code of one window of one device opens at most one session. */
  lemma CodeWorksOnce(c: Login.Config, acts: seq<Login.Action>)
    requires c.claimDelay <= STEP_MS && c.commandDelay <= MINUTE_MS
    ensures var s := Run(c, acts).login;
            Login.Increasing(s.claims) && Login.SessionsDistinct(s) && Login.OneSessionPerCode(s)
  {
    RedisIsPerfect(c, acts);
    Login.PerfectIncreases(c, acts);
    Login.RunSessionsDistinct(c, Login.EMPTY_PERFECT, acts);
    Login.IncreasingMeansOnce(Login.Run(c, Login.Start(Login.EMPTY_PERFECT), acts));
  }

  // ---- It is a run over a limiter that forgets ----------------------------------------------------

  /** Whatever the delay of claims, a run over Redis is a run of the protocol with its acts of forgetting written out. */
  lemma {:induction false} RunIsForgetful(c: Login.Config, acts: seq<Login.Action>) returns (spelled: seq<Login.Action>)
    requires c.commandDelay <= MINUTE_MS
    ensures Valid(Run(c, acts).keys)
    ensures Shadow(Run(c, acts)) == Login.Run(c, Login.Start(Login.EMPTY_FORGETFUL), spelled)
  {
    if acts == [] {
      return [];
    }
    hide Login.Step, Shadow, Valid;
    var before, a := acts[..|acts| - 1], acts[|acts| - 1];
    spelled := RunIsForgetful(c, before);
    var s := Run(c, before);
    if a.Forget? {
      assert Step(c, s, a) == s;
    } else {
      Login.RunExtends(c, Login.Start(Login.EMPTY_FORGETFUL), spelled, a);
      spelled := spelled + [a];
      if a.Tick? {
        var drop := TickIsForgetting(c, s, a.ms);
        Login.RunExtends(c, Login.Start(Login.EMPTY_FORGETFUL), spelled, Login.Forget(drop));
        spelled := spelled + [Login.Forget(drop)];
        TickKeepsKeys(c, s, a.ms);
      } else if a.Post? || a.Budget? || a.ClaimIt? {
        CommandIsLogin(c, s, a);
      } else {
        OthersAreLogin(c, s, a);
      }
    }
  }

  lemma TickKeepsKeys(c: Login.Config, s: State, ms: nat)
    ensures Step(c, s, Login.Tick(ms)).keys == s.keys
  {
  }

  lemma SameLogs(c: Login.Config, acts: seq<Login.Action>) returns (spelled: seq<Login.Action>)
    requires c.commandDelay <= MINUTE_MS
    ensures var p := Login.Run(c, Login.Start(Login.EMPTY_FORGETFUL), spelled);
            Run(c, acts).login.posted == p.posted && Run(c, acts).login.asked == p.asked
  {
    spelled := RunIsForgetful(c, acts);
    hide Login.Run, Run;
    assert Shadow(Run(c, acts)).posted == Run(c, acts).login.posted && Shadow(Run(c, acts)).asked == Run(c, acts).login.asked;
  }

  /** Over Redis, too, an attempt is let through exactly when fewer than the limit were sent for its slot before it. */
  lemma AttemptsExactly(c: Login.Config, acts: seq<Login.Action>, i: nat)
    requires c.commandDelay <= MINUTE_MS
    ensures var posted := Run(c, acts).login.posted;
            i < |posted| ==>
              (posted[i].ok <==> Sent(posted[..i], posted[i].who, posted[i].askedAt / 60_000, 60_000) < c.ipAttemptsPerMinute)
    ensures var asked := Run(c, acts).login.asked;
            i < |asked| ==>
              (asked[i].ok <==> Sent(asked[..i], asked[i].who, asked[i].askedAt / 90_000, 90_000) < c.attemptsPerWindow)
  {
    var spelled := SameLogs(c, acts);
    hide Login.Run, Run, Sent;
    LoginBounds.AttemptsExactly(c, Login.EMPTY_FORGETFUL, spelled, i);
  }

  /** The guess budget holds over Redis, for handlers of any delay. */
  lemma GuessBound(c: Login.Config, acts: seq<Login.Action>, id: string, a: nat, b: nat)
    requires a <= b && c.attemptsPerWindow >= 0 && c.commandDelay <= MINUTE_MS
    ensures AllowedBetween(Run(c, acts).login.asked, id, a, b) <=
            c.attemptsPerWindow * (b / 90_000 - Back(a, c.commandDelay) / 90_000 + 1)
  {
    var spelled := SameLogs(c, acts);
    hide Login.Run, Run, AllowedBetween, SentBetween;
    LoginBounds.GuessBound(c, Login.EMPTY_FORGETFUL, spelled, id, a, b);
  }

  /** And so does the limit on POSTs. */
  lemma PostBound(c: Login.Config, acts: seq<Login.Action>, ip: string, a: nat, b: nat)
    requires a <= b && c.ipAttemptsPerMinute >= 0 && c.commandDelay <= MINUTE_MS
    ensures AllowedBetween(Run(c, acts).login.posted, ip, a, b) <=
            c.ipAttemptsPerMinute * (b / 60_000 - Back(a, c.commandDelay) / 60_000 + 1)
  {
    var spelled := SameLogs(c, acts);
    hide Login.Run, Run, AllowedBetween, SentBetween;
    LoginBounds.PostBound(c, Login.EMPTY_FORGETFUL, spelled, ip, a, b);
  }

  /** A login over Redis is decided by the history of the run. */
  lemma HistoryDecides(c: Login.Config, acts: seq<Login.Action>, h: nat, ip: string, rawId: string, rawCode: string,
                       reply: Option<nat>)
    requires c.claimDelay <= STEP_MS && c.commandDelay <= MINUTE_MS
    requires var s := Run(c, acts).login; h !in s.handlers && (reply.Some? ==> InWindow(reply.value, s.now))
    ensures var s := Run(c, acts).login;
            var s' := Run(c, acts + LoginHistory.WholeLogin(s.now, h, ip, rawId, rawCode, reply)).login;
            LoginHistory.EntersIf(s, s', NormalizeId(rawId), reply, LoginHistory.MayEnter(c, s, ip, rawId, rawCode, reply))
  {
    var s := Run(c, acts).login;
    RedisIsPerfect(c, acts);
    RedisIsPerfect(c, acts + LoginHistory.WholeLogin(s.now, h, ip, rawId, rawCode, reply));
    hide Run, Login.Run, LoginHistory.WholeLogin, NormalizeId, NormalizeCode, IsValidId, IsValidCode, LoginHistory.Newest, Sent;
    LoginHistory.PerfectHistoryDecides(c, acts, h, ip, rawId, rawCode, reply);
  }
}
