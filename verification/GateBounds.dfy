/** How long a revoked device can keep getting 200s from the whole gate: the bound is exact. */
module GateBounds {
  import opened Numerals
  import opened Tokens
  import opened Gate
  import opened GateSafety
  import Ids
  import Login
  import LoginBounds
  import StatusCache

  /** A 200 for `id`, if there is one, is at most `bound` after the revocation. */
  ghost predicate InBound(c: Config, before: seq<Action>, after: seq<Action>, id: string, i: nat, bound: nat) {
    var r, s := Run(c, before), Run(c, before + after);
    (id !in r.status.active && KeepsRevoked(after, id) && i < |s.grants| && s.grants[i].id == id) ==>
      s.grants[i].at <= r.login.now + bound
  }

  // ---- Runs in pieces -----------------------------------------------------------------------

  function From(c: Config, s: State, acts: seq<Action>): State {
    if acts == [] then s else Step(c, From(c, s, acts[..|acts| - 1]), acts[|acts| - 1])
  }

  lemma {:induction false} RunFrom(c: Config, before: seq<Action>, after: seq<Action>)
    ensures Run(c, before + after) == From(c, Run(c, before), after)
    decreases |after|
  {
    hide Step;
    if after == [] {
      assert before + after == before;
    } else {
      RunFrom(c, before, after[..|after| - 1]);
      RunLast(c, before, after);
    }
  }

  lemma {:induction false} FromConcat(c: Config, s: State, first: seq<Action>, second: seq<Action>)
    ensures From(c, s, first + second) == From(c, From(c, s, first), second)
    decreases |second|
  {
    hide Step;
    if second == [] {
      assert first + second == first;
    } else {
      var front := second[..|second| - 1];
      FromConcat(c, s, first, front);
      assert (first + second)[..|first + second| - 1] == first + front;
    }
  }

  lemma Two(c: Config, s: State, a: Action, b: Action)
    ensures From(c, s, [a, b]) == Step(c, Step(c, s, a), b)
  {
    hide Step;
    assert [a, b][..1] == [a] && [a][..0] == [];
    assert From(c, s, [a]) == Step(c, s, a);
  }

  // ---- A device signs in ---------------------------------------------------------------------

  const T0: nat := 900_000
  const COOKIE: Credential := Cookie(Sha256("s"))

  const PRESENT := [StatusStep(StatusCache.SetStatus("TEST", true)), Tick(T0)]
  const POSTED := [LoginStep(Login.Post(0, "a", T0, "TEST", "12345678")), LoginStep(Login.AskBudget(0))]
  const CHECKED := [LoginStep(Login.Budget(0)), LoginStep(Login.Answer(0, Some(11)))]
  const SIGNED_IN := [LoginStep(Login.ClaimIt(0)), OpenSession(0, "s")]

  predicate SignedIn(c: Config, s: State) {
    s.login.now == T0 && s.status == StatusCache.State(T0, {"TEST"}, map[], map[], {}) &&
    s.sessions == map[Sha256("s") := Session("TEST", T0, T0 + c.sessionTtlSeconds * 1000)] &&
    s.requests == map[] && s.grants == []
  }

  predicate Open(c: Config) {
    c.login.attemptsPerWindow > 0 && c.login.ipAttemptsPerMinute > 0 && c.sessionTtlSeconds > 0
  }

  lemma DevicePresent(c: Config)
    ensures From(c, START, PRESENT) ==
            START.(login := START.login.(now := T0), status := StatusCache.State(T0, {"TEST"}, map[], map[], {}),
                   trace := [Login.Tick(T0)])
  {
    Two(c, START, PRESENT[0], PRESENT[1]);
    assert Step(c, START, PRESENT[0]).status.active == {"TEST"};
  }

  lemma TwoLogins(c: Config, s: State, a: Login.Action, b: Login.Action)
    requires !a.Tick? && !a.Open? && !b.Tick? && !b.Open?
    ensures From(c, s, [LoginStep(a), LoginStep(b)]) ==
            s.(login := Login.Step(c.login, Login.Step(c.login, s.login, a), b), trace := s.trace + [a] + [b])
  {
    Two(c, s, LoginStep(a), LoginStep(b));
    hide Login.Step;
  }

  /** Four steps of the login protocol, as the protocol itself takes them. */
  lemma CodeMatched(c: Config, s: State)
    requires Open(c) && s.login == START.login.(now := T0)
    ensures var s' := From(c, s, POSTED + CHECKED);
            s' == s.(login := s'.login, trace := s'.trace) && s'.login.now == T0 && s'.login.claims == [] &&
            s'.login.handlers == map[0 := Login.Matched("TEST", 11, T0)] &&
            s'.login.limiter.Forgetful? && s'.login.limiter.claims == map[]
  {
    LoginBounds.MatchReached(c.login, s.login, 0, "a", "TEST", "12345678", 11);
    var acts := LoginBounds.UpToMatch(0, "a", T0, "TEST", "12345678", 11);
    LoginBounds.RunFour(c.login, s.login, acts);
    hide Step, Login.Step, Login.Run;
    FromConcat(c, s, POSTED, CHECKED);
    TwoLogins(c, s, acts[0], acts[1]);
    TwoLogins(c, From(c, s, POSTED), acts[2], acts[3]);
  }

  lemma ClaimMade(c: Config, s: State)
    requires s.login.handlers == map[0 := Login.Matched("TEST", 11, T0)] && s.login.now == T0 && s.login.claims == []
    requires s.login.limiter.Forgetful? && s.login.limiter.claims == map[]
    ensures var s' := Step(c, s, LoginStep(Login.ClaimIt(0)));
            s' == s.(login := s'.login, trace := s'.trace) && s'.login.now == T0 &&
            s'.login.handlers == map[0 := Login.Granted(0)] && s'.login.claims == [Login.SuccessfulClaim("TEST", 11, T0)]
  {
  }

  lemma SessionMade(c: Config, s: State)
    requires s.login.handlers == map[0 := Login.Granted(0)] && s.login.claims == [Login.SuccessfulClaim("TEST", 11, T0)]
    requires s.login.now == T0 && s.births == map[] && s.minted == map[]
    ensures var s' := Step(c, s, OpenSession(0, "s"));
            s' == s.(login := s'.login, trace := s'.trace, births := s'.births,
                     sessions := s.sessions[Sha256("s") := Session("TEST", T0, T0 + c.sessionTtlSeconds * 1000)]) &&
            s'.login.now == T0
  {
  }

  lemma SessionOpened(c: Config, s: State)
    requires s.login.handlers == map[0 := Login.Matched("TEST", 11, T0)] && s.login.now == T0 && s.login.claims == []
    requires s.login.limiter.Forgetful? && s.login.limiter.claims == map[] && s.births == map[] && s.minted == map[]
    ensures var s' := From(c, s, SIGNED_IN);
            s' == s.(login := s'.login, trace := s'.trace, births := s'.births,
                     sessions := s.sessions[Sha256("s") := Session("TEST", T0, T0 + c.sessionTtlSeconds * 1000)]) &&
            s'.login.now == T0
  {
    hide Step;
    Two(c, s, SIGNED_IN[0], SIGNED_IN[1]);
    ClaimMade(c, s);
    SessionMade(c, Step(c, s, SIGNED_IN[0]));
  }

  function SigningIn(): seq<Action> {
    PRESENT + (POSTED + CHECKED) + SIGNED_IN
  }

  lemma SignsIn(c: Config) returns (s: State)
    requires Open(c)
    ensures s == From(c, START, SigningIn()) && SignedIn(c, s)
  {
    hide Step;
    DevicePresent(c);
    var s1 := From(c, START, PRESENT);
    CodeMatched(c, s1);
    var s2 := From(c, s1, POSTED + CHECKED);
    SessionOpened(c, s2);
    FromConcat(c, START, PRESENT, POSTED + CHECKED);
    FromConcat(c, START, PRESENT + (POSTED + CHECKED), SIGNED_IN);
    s := From(c, s2, SIGNED_IN);
  }

  // ---- It is revoked while the verifier's answer is on its way -----------------------------------

  const ARRIVED := [VerifyArrives(0, "s", ""), VerifyArrives(1, "s", "")]
  const ASKED := [AskStatus(0), StatusStep(StatusCache.Look(0))]
  const REVOKED := [StatusStep(StatusCache.SetStatus("TEST", false))]

  predicate RevokedInFlight(s: State) {
    s.login.now == T0 &&
    s.status == StatusCache.State(T0, {}, map[], map[0 := StatusCache.Seen("TEST", true, T0)], {StatusCache.Sighting("TEST", true, T0)}) &&
    s.requests == map[0 := Waiting(Check, COOKIE, "TEST", T0), 1 := Found(Check, COOKIE, "TEST", T0)] && s.grants == []
  }

  lemma BothArrive(c: Config, s: State)
    requires SignedIn(c, s) && c.sessionTtlSeconds > 0
    ensures var s' := From(c, s, ARRIVED);
            s' == s.(requests := map[0 := Found(Check, COOKIE, "TEST", T0), 1 := Found(Check, COOKIE, "TEST", T0)])
  {
    Two(c, s, ARRIVED[0], ARRIVED[1]);
    var s1 := Step(c, s, ARRIVED[0]);
    assert s1 == s.(requests := map[0 := Found(Check, COOKIE, "TEST", T0)]);
  }

  lemma AsksFirst(c: Config, s: State)
    requires s.login.now == T0 && s.status == StatusCache.State(T0, {"TEST"}, map[], map[], {})
    requires s.requests == map[0 := Found(Check, COOKIE, "TEST", T0), 1 := Found(Check, COOKIE, "TEST", T0)]
    ensures Step(c, s, AskStatus(0)) ==
            s.(status := s.status.(calls := map[0 := StatusCache.Sent("TEST")]),
               requests := map[0 := Waiting(Check, COOKIE, "TEST", T0), 1 := Found(Check, COOKIE, "TEST", T0)])
  {
    assert Ids.IsValidId("TEST");
  }

  lemma LooksFirst(c: Config, s: State)
    requires s.status == StatusCache.State(T0, {"TEST"}, map[], map[0 := StatusCache.Sent("TEST")], {})
    ensures Step(c, s, ASKED[1]) ==
            s.(status := StatusCache.State(T0, {"TEST"}, map[], map[0 := StatusCache.Seen("TEST", true, T0)],
                                           {StatusCache.Sighting("TEST", true, T0)}))
  {
  }

  lemma Revokes(c: Config, s: State)
    requires s.status.active == {"TEST"}
    ensures From(c, s, REVOKED) == s.(status := s.status.(active := {}))
  {
    assert REVOKED[..0] == [];
    assert From(c, s, REVOKED) == Step(c, s, REVOKED[0]);
  }

  lemma FirstAsks(c: Config, s: State)
    requires s.login.now == T0 && s.status == StatusCache.State(T0, {"TEST"}, map[], map[], {}) && s.grants == []
    requires s.requests == map[0 := Found(Check, COOKIE, "TEST", T0), 1 := Found(Check, COOKIE, "TEST", T0)]
    ensures RevokedInFlight(From(c, s, ASKED + REVOKED))
  {
    hide Step;
    FromConcat(c, s, ASKED, REVOKED);
    Two(c, s, ASKED[0], ASKED[1]);
    AsksFirst(c, s);
    LooksFirst(c, Step(c, s, ASKED[0]));
    Revokes(c, From(c, s, ASKED));
  }

  function Before(): seq<Action> {
    SigningIn() + ARRIVED + (ASKED + REVOKED)
  }

  lemma Revoked(c: Config) returns (s: State)
    requires Open(c)
    ensures s == Run(c, Before()) && RevokedInFlight(s)
  {
    hide Step;
    var s1 := SignsIn(c);
    BothArrive(c, s1);
    var s2 := From(c, s1, ARRIVED);
    FirstAsks(c, s2);
    FromConcat(c, START, SigningIn(), ARRIVED);
    FromConcat(c, START, SigningIn() + ARRIVED, ASKED + REVOKED);
    RunFrom(c, [], Before());
    assert [] + Before() == Before();
    s := From(c, s2, ASKED + REVOKED);
  }

  // ---- And gets its last 200 as late as can be ------------------------------------------------------

  function Later(c: Config): nat {
    if c.status.ttl == 0 then 0 else c.status.ttl - 1
  }

  function After(c: Config): seq<Action> {
    ([Tick(c.status.delay), StatusStep(StatusCache.Reply(0))] + [StatusKnown(0), Tick(Later(c))]) + [AskStatus(1), StatusKnown(1)]
  }

  lemma Replies(c: Config, s: State)
    requires s.status.calls == map[0 := StatusCache.Seen("TEST", true, T0)] && s.status.now == T0 + c.status.delay
    requires s.status.cache == map[]
    ensures Step(c, s, StatusStep(StatusCache.Reply(0))) ==
            s.(status := s.status.(calls := map[0 := StatusCache.Answered("TEST", true, s.status.now)],
                                   cache := map["TEST" := StatusCache.Entry(true, s.status.now + c.status.ttl)]))
  {
  }

  lemma FirstAnswered(c: Config, s: State)
    requires RevokedInFlight(s)
    ensures var s' := From(c, s, [Tick(c.status.delay), StatusStep(StatusCache.Reply(0))]);
            var now := T0 + c.status.delay;
            s'.login.now == s'.status.now == now && s'.grants == [] && s'.requests == s.requests &&
            s'.status.calls == map[0 := StatusCache.Answered("TEST", true, now)] &&
            s'.status.cache == map["TEST" := StatusCache.Entry(true, now + c.status.ttl)]
  {
    hide Step;
    Two(c, s, Tick(c.status.delay), StatusStep(StatusCache.Reply(0)));
    Waits(c, s, c.status.delay);
    Replies(c, Step(c, s, Tick(c.status.delay)));
  }

  lemma GrantsFirst(c: Config, s: State, now: nat)
    requires s.login.now == s.status.now == now && s.grants == []
    requires s.requests == map[0 := Waiting(Check, COOKIE, "TEST", T0), 1 := Found(Check, COOKIE, "TEST", T0)]
    requires s.status.calls == map[0 := StatusCache.Answered("TEST", true, now)]
    ensures var s' := Step(c, s, StatusKnown(0));
            s'.login == s.login && s'.status == s.status && s'.grants == [Grant(COOKIE, "TEST", T0, now)] &&
            1 in s'.requests && s'.requests[1] == s.requests[1]
  {
  }

  lemma Waits(c: Config, s: State, ms: nat)
    ensures var s' := Step(c, s, Tick(ms));
            s'.login.now == s.login.now + ms && s'.status == s.status.(now := s.status.now + ms) &&
            s'.grants == s.grants && s'.requests == s.requests
  {
  }

  lemma FirstGranted(c: Config, s: State, now: nat)
    requires s.login.now == s.status.now == now && s.grants == []
    requires s.requests == map[0 := Waiting(Check, COOKIE, "TEST", T0), 1 := Found(Check, COOKIE, "TEST", T0)]
    requires s.status.calls == map[0 := StatusCache.Answered("TEST", true, now)]
    ensures var s' := From(c, s, [StatusKnown(0), Tick(Later(c))]);
            s'.login.now == s'.status.now == now + Later(c) && s'.grants == [Grant(COOKIE, "TEST", T0, now)] &&
            s'.status == s.status.(now := now + Later(c)) && 1 in s'.requests && s'.requests[1] == s.requests[1]
  {
    hide Step;
    Two(c, s, StatusKnown(0), Tick(Later(c)));
    GrantsFirst(c, s, now);
    Waits(c, Step(c, s, StatusKnown(0)), Later(c));
  }

  lemma AsksSecond(c: Config, s: State, now: nat)
    requires s.login.now == s.status.now == now && 1 !in s.status.calls && 1 in s.requests
    requires s.requests[1] == Found(Check, COOKIE, "TEST", T0)
    ensures var s' := Step(c, s, AskStatus(1));
            s'.grants == s.grants && s'.login.now == now && 1 in s'.requests && s'.requests[1] == Waiting(Check, COOKIE, "TEST", T0) &&
            (StatusCache.Hit(s.status.cache, "TEST", now) == Some(true) ==>
               1 in s'.status.calls && s'.status.calls[1] == StatusCache.Answered("TEST", true, now))
  {
  }

  lemma KnowsSecond(c: Config, s: State, now: nat)
    requires s.login.now == now && 1 in s.requests && s.requests[1] == Waiting(Check, COOKIE, "TEST", T0)
    ensures s.grants <= Step(c, s, StatusKnown(1)).grants
    ensures 1 in s.status.calls && s.status.calls[1] == StatusCache.Answered("TEST", true, now) ==>
              Step(c, s, StatusKnown(1)).grants == s.grants + [Grant(COOKIE, "TEST", T0, now)]
  {
  }

  lemma SecondGranted(c: Config, s: State, now: nat)
    requires s.login.now == s.status.now == now && 1 !in s.status.calls && 1 in s.requests
    requires s.requests[1] == Found(Check, COOKIE, "TEST", T0)
    ensures s.grants <= From(c, s, [AskStatus(1), StatusKnown(1)]).grants
    ensures StatusCache.Hit(s.status.cache, "TEST", now) == Some(true) ==>
              From(c, s, [AskStatus(1), StatusKnown(1)]).grants == s.grants + [Grant(COOKIE, "TEST", T0, now)]
  {
    hide Step;
    Two(c, s, AskStatus(1), StatusKnown(1));
    AsksSecond(c, s, now);
    KnowsSecond(c, Step(c, s, AskStatus(1)), now);
  }

  lemma LastGrant(c: Config) returns (i: nat)
    requires Open(c)
    ensures var s := Run(c, Before() + After(c));
            i < |s.grants| && s.grants[i].id == "TEST" && s.grants[i].at == T0 + StatusCache.Age(c.status)
  {
    hide Step;
    var s0 := Revoked(c);
    var first, second, third := [Tick(c.status.delay), StatusStep(StatusCache.Reply(0))], [StatusKnown(0), Tick(Later(c))],
                                [AskStatus(1), StatusKnown(1)];
    FirstAnswered(c, s0);
    var s1 := From(c, s0, first);
    FirstGranted(c, s1, s1.login.now);
    var s2 := From(c, s1, second);
    SecondGranted(c, s2, s2.login.now);
    FromConcat(c, s0, first, second);
    FromConcat(c, s0, first + second, third);
    RunFrom(c, Before(), After(c));
    i := if c.status.ttl == 0 then 0 else 1;
  }

  lemma AfterKeepsRevoked(c: Config)
    ensures KeepsRevoked(After(c), "TEST")
  {
  }

  /** With budgets and sessions that let anyone in at all, a bound on late 200s holds in all runs exactly from the status bound on. */
  lemma ShutOutExactly(c: Config, bound: nat)
    requires Open(c)
    ensures (forall before, after, id, i: nat :: InBound(c, before, after, id, i, bound)) <==> StatusCache.Age(c.status) <= bound
  {
    if StatusCache.Age(c.status) <= bound {
      forall before, after, id, i: nat ensures InBound(c, before, after, id, i, bound) {
        var s := Run(c, before + after);
        if id !in Run(c, before).status.active && KeepsRevoked(after, id) && i < |s.grants| && s.grants[i].id == id {
          RevokedDeviceIsShutOut(c, before, after, id, i);
        }
      }
    } else {
      var r := Revoked(c);
      var i := LastGrant(c);
      AfterKeepsRevoked(c);
      hide Run, Before, After;
      assert !InBound(c, Before(), After(c), "TEST", i, bound);
    }
  }
}
