/** How tight the login guarantees are: the exact claim delay, and the guess budget. */
module LoginBounds {
  import opened Numerals
  import opened Limits
  import opened Ids
  import opened Attempts
  import opened Login

  // ---- The replay protection is exact ------------------------------------------

  lemma {:induction false} RunConcat(c: Config, s: State, first: seq<Action>, second: seq<Action>)
    ensures Run(c, s, first + second) == Run(c, Run(c, s, first), second)
  {
    if second == [] {
      assert first + second == first;
    } else {
      var front := second[..|second| - 1];
      assert first + second == (first + front) + [second[|second| - 1]];
      RunConcat(c, s, first, front);
      RunExtends(c, s, first + front, second[|second| - 1]);
    }
  }

  function UpToMatch(h: nat, ip: string, now: nat, id: string, code: string, counter: nat): seq<Action> {
    [Post(h, ip, now, id, code), AskBudget(h), Budget(h), Answer(h, Some(counter))]
  }

  /** A login whose budgets are open and whose code matches gets as far as its claim. */
  lemma MatchReached(c: Config, s: State, h: nat, ip: string, id: string, code: string, counter: nat)
    requires h !in s.handlers && IsValidId(id) && IsValidCode(code) && InWindow(counter, s.now)
    requires Count(s.limiter.ips, AttemptKey(ip, MinuteOf(s.now))) < c.ipAttemptsPerMinute
    requires Count(s.limiter.devices, AttemptKey(id, WindowOf(s.now))) < c.attemptsPerWindow
    ensures var limiter := AllowDevice(AllowIp(s.limiter, ip, MinuteOf(s.now), 0).0, id, WindowOf(s.now), 0).0;
            Run(c, s, UpToMatch(h, ip, s.now, id, code, counter)) ==
            s.(limiter := limiter, handlers := s.handlers[h := Matched(id, counter, s.now)],
               posted := s.posted + [Attempt(ip, s.now, s.now, true)], asked := s.asked + [Attempt(id, s.now, s.now, true)])
  {
    SameIds(id);
    ValidIdUnchanged(id);
    ValidCodeUnchanged(code);
    var acts := UpToMatch(h, ip, s.now, id, code, counter);
    RunFour(c, s, acts);
    var s1 := Step(c, s, acts[0]);
    assert s1.handlers == s.handlers[h := Counted(id, code)] && s1.asked == s.asked && s1.now == s.now;
    assert s1.posted == s.posted + [Attempt(ip, s.now, s.now, true)];
    AdmittedReached(c, s1, h, id, code, counter);
  }

  lemma AdmittedReached(c: Config, s: State, h: nat, id: string, code: string, counter: nat)
    requires h in s.handlers && s.handlers[h] == Counted(id, code)
    requires IsValidId(id) && NormalizeId(id) == id && IsValidCode(code) && NormalizeCode(code) == code
    requires InWindow(counter, s.now) && Count(s.limiter.devices, AttemptKey(id, WindowOf(s.now))) < c.attemptsPerWindow
    ensures Step(c, Step(c, Step(c, s, AskBudget(h)), Budget(h)), Answer(h, Some(counter))) ==
            s.(limiter := AllowDevice(s.limiter, id, WindowOf(s.now), 0).0,
               handlers := s.handlers[h := Matched(id, counter, s.now)], asked := s.asked + [Attempt(id, s.now, s.now, true)])
  {
    var s2 := Step(c, s, AskBudget(h));
    assert s2 == s.(handlers := s.handlers[h := Asking(id, code, s.now)]);
    var s3 := Step(c, s2, Budget(h));
    assert s3.handlers == s.handlers[h := Verifying(id, code)];
  }

  const LATE: nat := STEP_MS + 1

  const FIRST := UpToMatch(0, "a", 900_000, "TEST", "12345678", 11)
  const SECOND := UpToMatch(1, "b", 1_169_999, "TEST", "12345678", 11)
  const LAST := [Tick(LATE), ClaimIt(1), Open(0), Open(1)]

  /**
   Window 11 is claimed at 900 s, matched again as "previous window" just before
   1170 s, and claimed at 1260 s, the moment the first record is forgotten.
   */
  function ReplayRun(): seq<Action> {
    [Tick(900_000)] + FIRST + [ClaimIt(0), Tick(269_999)] + SECOND + LAST
  }

  lemma LateClaimReplays(c: Config)
    requires c.claimDelay > STEP_MS && c.attemptsPerWindow > 0 && c.ipAttemptsPerMinute > 0
    ensures !CodesWorkOnce(Run(c, Start(EMPTY_FORGETFUL), ReplayRun()))
  {
    var start := Start(EMPTY_FORGETFUL);
    var s := SecondHalf(c);
    RunConcat(c, start, [Tick(900_000)] + FIRST + [ClaimIt(0), Tick(269_999)] + SECOND, LAST);
    RunFour(c, s, LAST);
    var s2 := Step(c, Step(c, s, LAST[0]), LAST[1]);
    assert s2.claims == [SuccessfulClaim("TEST", 11, 900_000), SuccessfulClaim("TEST", 11, 1_260_000)];
    var s4 := Step(c, Step(c, s2, LAST[2]), LAST[3]);
    assert s4.claims == s2.claims && s4.sessions == [0, 1];
    assert s4.claims[s4.sessions[0]].counter == s4.claims[s4.sessions[1]].counter == 11;
  }

  lemma RunFour(c: Config, s: State, acts: seq<Action>)
    requires |acts| == 4
    ensures Run(c, s, acts) == Step(c, Step(c, Step(c, Step(c, s, acts[0]), acts[1]), acts[2]), acts[3])
  {
    assert acts[..3][..2] == acts[..2] && acts[..2][..1] == acts[..1] && acts[..1][..0] == [];
    assert Run(c, s, acts[..1]) == Step(c, s, acts[0]);
    assert Run(c, s, acts[..2]) == Step(c, Step(c, s, acts[0]), acts[1]);
  }

  lemma FirstHalf(c: Config) returns (s: State)
    requires c.attemptsPerWindow > 0 && c.ipAttemptsPerMinute > 0
    ensures s == Run(c, Start(EMPTY_FORGETFUL), [Tick(900_000)] + FIRST + [ClaimIt(0), Tick(269_999)])
    ensures s == State(1_169_999,
                       Forgetful(map["TEST" := Claim(11, 1_260_000)], map[AttemptKey("TEST", 10) := 1], map[AttemptKey("a", 15) := 1]),
                       map[0 := Granted(0)], [SuccessfulClaim("TEST", 11, 900_000)], [Attempt("a", 900_000, 900_000, true)],
                       [Attempt("TEST", 900_000, 900_000, true)], [])
  {
    var start := Start(EMPTY_FORGETFUL);
    var s0 := Start(EMPTY_FORGETFUL).(now := 900_000);
    assert [Tick(900_000)][..0] == [];
    assert Run(c, start, [Tick(900_000)]) == Step(c, start, Tick(900_000)) == s0;
    RunConcat(c, start, [Tick(900_000)], FIRST);
    MatchReached(c, s0, 0, "a", "TEST", "12345678", 11);
    var s1 := Run(c, s0, FIRST);
    assert s1 == State(900_000, Forgetful(map[], map[AttemptKey("TEST", 10) := 1], map[AttemptKey("a", 15) := 1]),
                       map[0 := Matched("TEST", 11, 900_000)], [], [Attempt("a", 900_000, 900_000, true)],
                       [Attempt("TEST", 900_000, 900_000, true)], []);
    ClaimAndWait(c, s1);
    RunConcat(c, start, [Tick(900_000)] + FIRST, [ClaimIt(0), Tick(269_999)]);
    s := Run(c, s1, [ClaimIt(0), Tick(269_999)]);
  }

  lemma ClaimAndWait(c: Config, s: State)
    requires s.handlers == map[0 := Matched("TEST", 11, 900_000)] && s.now == 900_000 && s.claims == []
    requires s.limiter.Forgetful? && s.limiter.claims == map[]
    ensures Run(c, s, [ClaimIt(0), Tick(269_999)]) ==
            s.(now := 1_169_999, limiter := s.limiter.(claims := map["TEST" := Claim(11, 1_260_000)]),
               handlers := map[0 := Granted(0)], claims := [SuccessfulClaim("TEST", 11, 900_000)])
  {
    var acts := [ClaimIt(0), Tick(269_999)];
    assert acts[..1][..0] == [];
    assert Run(c, s, acts[..1]) == Step(c, s, ClaimIt(0));
  }

  lemma SecondHalf(c: Config) returns (s: State)
    requires c.attemptsPerWindow > 0 && c.ipAttemptsPerMinute > 0
    ensures s == Run(c, Start(EMPTY_FORGETFUL), [Tick(900_000)] + FIRST + [ClaimIt(0), Tick(269_999)] + SECOND)
    ensures s.now == 1_169_999 && s.limiter.Forgetful? && s.limiter.claims == map["TEST" := Claim(11, 1_260_000)]
    ensures s.handlers == map[0 := Granted(0), 1 := Matched("TEST", 11, 1_169_999)]
    ensures s.claims == [SuccessfulClaim("TEST", 11, 900_000)] && s.sessions == []
  {
    var s1 := FirstHalf(c);
    RunConcat(c, Start(EMPTY_FORGETFUL), [Tick(900_000)] + FIRST + [ClaimIt(0), Tick(269_999)], SECOND);
    if AttemptKey("TEST", 10) == AttemptKey("TEST", 12) { KeyInjective("TEST", 10, "TEST", 12); }
    if AttemptKey("a", 15) == AttemptKey("b", 19) { KeyInjective("a", 15, "b", 19); }
    MatchReached(c, s1, 1, "b", "TEST", "12345678", 11);
    s := Run(c, s1, SECOND);
  }

  ghost predicate CodesWorkOnce(s: State) {
    SessionsDistinct(s) && OneSessionPerCode(s)
  }

  ghost predicate ReplaySafe(c: Config) {
    forall acts :: CodesWorkOnce(Run(c, Start(EMPTY_FORGETFUL), acts))
  }

  /** The code of one window of one device opens at most one session in every run exactly when claims are at most one step late. */
  lemma ReplaySafeExactly(c: Config)
    requires c.attemptsPerWindow > 0 && c.ipAttemptsPerMinute > 0
    ensures ReplaySafe(c) <==> c.claimDelay <= 90_000
  {
    if c.claimDelay <= STEP_MS {
      forall acts ensures CodesWorkOnce(Run(c, Start(EMPTY_FORGETFUL), acts)) { CodeWorksOnce(c, acts); }
    } else {
      LateClaimReplays(c);
    }
  }

  // ---- The budgets -----------------------------------------------------------------

  /** Both logs are decided by their limits and counted by the limiter. */
  ghost predicate Budgeted(c: Config, s: State, exactly: bool) {
    && Decided(s.posted, c.ipAttemptsPerMinute, MINUTE_MS, exactly)
    && Tallied(s.posted, s.limiter.ips, MINUTE_MS, s.now, c.commandDelay, exactly)
    && Decided(s.asked, c.attemptsPerWindow, STEP_MS, exactly)
    && Tallied(s.asked, s.limiter.devices, STEP_MS, s.now, c.commandDelay, exactly)
  }

  lemma PostBudgeted(c: Config, s: State, a: Action, exactly: bool)
    requires Budgeted(c, s, exactly) && a.Post?
    ensures Budgeted(c, Step(c, s, a), exactly)
  {
    hide Decided, Tallied, AttemptKey;
    if a.h !in s.handlers && InTime(a.askedAt, s.now, c.commandDelay) {
      var ok := Count(s.limiter.ips, AttemptKey(a.ip, MinuteOf(a.askedAt))) + 1 <= c.ipAttemptsPerMinute;
      var attempt := Attempt(a.ip, a.askedAt, s.now, ok);
      DecidedBump(s.posted, s.limiter.ips, attempt, c.ipAttemptsPerMinute, MINUTE_MS, s.now, c.commandDelay, exactly);
      TalliedBump(s.posted, s.limiter.ips, attempt, MINUTE_MS, s.now, c.commandDelay, exactly);
    }
  }

  lemma BudgetBudgeted(c: Config, s: State, a: Action, exactly: bool)
    requires Budgeted(c, s, exactly) && a.Budget?
    ensures Budgeted(c, Step(c, s, a), exactly)
  {
    hide Decided, Tallied, AttemptKey;
    if a.h in s.handlers && s.handlers[a.h].Asking? && InTime(s.handlers[a.h].askedAt, s.now, c.commandDelay) {
      var id, askedAt := s.handlers[a.h].id, s.handlers[a.h].askedAt;
      var ok := Count(s.limiter.devices, AttemptKey(id, WindowOf(askedAt))) + 1 <= c.attemptsPerWindow;
      var attempt := Attempt(id, askedAt, s.now, ok);
      DecidedBump(s.asked, s.limiter.devices, attempt, c.attemptsPerWindow, STEP_MS, s.now, c.commandDelay, exactly);
      TalliedBump(s.asked, s.limiter.devices, attempt, STEP_MS, s.now, c.commandDelay, exactly);
    }
  }

  lemma ForgetBudgeted(c: Config, s: State, drop: Dropped, exactly: bool)
    requires Budgeted(c, s, exactly)
    ensures Budgeted(c, Step(c, s, Forget(drop)), exactly)
  {
    hide Decided, Tallied;
    if MayForget(s.limiter, drop, s.now, c.commandDelay) && s.limiter.Forgetful? {
      TalliedForget(s.posted, s.limiter.ips, drop.ips, MINUTE_MS, s.now, c.commandDelay, exactly);
      TalliedForget(s.asked, s.limiter.devices, drop.devices, STEP_MS, s.now, c.commandDelay, exactly);
    }
  }

  lemma StepBudgeted(c: Config, s: State, a: Action, exactly: bool)
    requires Budgeted(c, s, exactly)
    ensures Budgeted(c, Step(c, s, a), exactly)
  {
    hide Decided, Tallied;
    match a
    case Tick(ms) =>
      TalliedLater(s.posted, s.limiter.ips, MINUTE_MS, s.now, s.now + ms, c.commandDelay, exactly);
      TalliedLater(s.asked, s.limiter.devices, STEP_MS, s.now, s.now + ms, c.commandDelay, exactly);
    case Forget(drop) => ForgetBudgeted(c, s, drop, exactly);
    case Post(_, _, _, _, _) => PostBudgeted(c, s, a, exactly);
    case Budget(_) => BudgetBudgeted(c, s, a, exactly);
    case _ =>
      var s' := Step(c, s, a);
      assert s'.posted == s.posted && s'.asked == s.asked && s'.now == s.now;
      assert s'.limiter.ips == s.limiter.ips && s'.limiter.devices == s.limiter.devices;
  }

  lemma {:induction false} RunBudgeted(c: Config, limiter: Limiter, acts: seq<Action>, exactly: bool)
    requires exactly ==> limiter.ips == map[] && limiter.devices == map[]
    ensures Budgeted(c, Run(c, Start(limiter), acts), exactly)
  {
    hide Step;
    if acts != [] {
      var before := acts[..|acts| - 1];
      RunBudgeted(c, limiter, before, exactly);
      StepBudgeted(c, Run(c, Start(limiter), before), acts[|acts| - 1], exactly);
    }
  }

  /**
   In every run over a limiter that starts empty, however many handlers run at once and whatever
   it forgets, a POST is let through exactly when fewer than the limit were sent by its IP in its
   minute before it, and a verifier call exactly when fewer were asked for its device in its window.
   */
  lemma AttemptsExactly(c: Config, limiter: Limiter, acts: seq<Action>, i: nat)
    requires limiter.ips == map[] && limiter.devices == map[]
    ensures var posted := Run(c, Start(limiter), acts).posted;
            i < |posted| ==>
              (posted[i].ok <==> Sent(posted[..i], posted[i].who, posted[i].askedAt / 60_000, 60_000) < c.ipAttemptsPerMinute)
    ensures var asked := Run(c, Start(limiter), acts).asked;
            i < |asked| ==>
              (asked[i].ok <==> Sent(asked[..i], asked[i].who, asked[i].askedAt / 90_000, 90_000) < c.attemptsPerWindow)
  {
    RunBudgeted(c, limiter, acts, true);
    hide Run, Tallied;
    var s := Run(c, Start(limiter), acts);
    assert i < |s.posted| ==> (s.posted[i].ok <==> HadRoom(s.posted, c.ipAttemptsPerMinute, MINUTE_MS, i));
    assert i < |s.asked| ==> (s.asked[i].ok <==> HadRoom(s.asked, c.attemptsPerWindow, STEP_MS, i));
  }

  /** Over any limiter no minute of an IP and no window of a device lets more through than its limit. */
  lemma RunWithinBudget(c: Config, limiter: Limiter, acts: seq<Action>, who: string, slot: nat)
    ensures var s := Run(c, Start(limiter), acts);
            var posts, calls := Passed(s.posted, who, slot, slot, MINUTE_MS), Passed(s.asked, who, slot, slot, STEP_MS);
            (posts == 0 || posts <= c.ipAttemptsPerMinute) && (calls == 0 || calls <= c.attemptsPerWindow)
  {
    RunBudgeted(c, limiter, acts, false);
    hide Run, Tallied, Decided;
    var s := Run(c, Start(limiter), acts);
    SlotCapped(s.posted, who, slot, c.ipAttemptsPerMinute, MINUTE_MS);
    SlotCapped(s.asked, who, slot, c.attemptsPerWindow, STEP_MS);
  }

  lemma {:induction false} RunAnsweredInTime(c: Config, limiter: Limiter, acts: seq<Action>)
    ensures AnsweredInTime(Run(c, Start(limiter), acts).posted, c.commandDelay)
    ensures AnsweredInTime(Run(c, Start(limiter), acts).asked, c.commandDelay)
  {
    if acts != [] {
      RunAnsweredInTime(c, limiter, acts[..|acts| - 1]);
    }
  }

  /**
   Over any limiter, any number of concurrent handlers and any interval, a device costs the
   verifier at most its budget for each window the interval touches, counting calls when
   allowDevice lets them through; a command under way for `commandDelay` may still be for an
   earlier window. Counted when the budget was asked for, the delay plays no part.
   */
  lemma GuessBound(c: Config, limiter: Limiter, acts: seq<Action>, id: string, a: nat, b: nat)
    requires a <= b && c.attemptsPerWindow >= 0
    ensures var asked := Run(c, Start(limiter), acts).asked;
            AllowedBetween(asked, id, a, b) <= c.attemptsPerWindow * (b / 90_000 - Back(a, c.commandDelay) / 90_000 + 1) &&
            SentBetween(asked, id, a, b) <= c.attemptsPerWindow * (b / 90_000 - a / 90_000 + 1)
  {
    RunBudgeted(c, limiter, acts, false);
    RunAnsweredInTime(c, limiter, acts);
    hide Run, Tallied, Decided;
    IntervalCapped(Run(c, Start(limiter), acts).asked, id, c.attemptsPerWindow, STEP_MS, c.commandDelay, a, b);
  }

  /** And an IP gets at most its limit of POSTs through for each minute the interval touches. */
  lemma PostBound(c: Config, limiter: Limiter, acts: seq<Action>, ip: string, a: nat, b: nat)
    requires a <= b && c.ipAttemptsPerMinute >= 0
    ensures var posted := Run(c, Start(limiter), acts).posted;
            AllowedBetween(posted, ip, a, b) <= c.ipAttemptsPerMinute * (b / 60_000 - Back(a, c.commandDelay) / 60_000 + 1) &&
            SentBetween(posted, ip, a, b) <= c.ipAttemptsPerMinute * (b / 60_000 - a / 60_000 + 1)
  {
    RunBudgeted(c, limiter, acts, false);
    RunAnsweredInTime(c, limiter, acts);
    hide Run, Tallied, Decided;
    IntervalCapped(Run(c, Start(limiter), acts).posted, ip, c.ipAttemptsPerMinute, MINUTE_MS, c.commandDelay, a, b);
  }

  // ---- What a login decides, when nothing comes between ---------------------------------------------

  /** One POST from arrival to session, the verifier answering `reply`, everything at one moment. */
  function LoggedIn(c: Config, s: State, h: nat, ip: string, id: string, code: string, reply: Option<nat>): State {
    var s4 := Run(c, s, [Post(h, ip, s.now, id, code), AskBudget(h), Budget(h), Answer(h, reply)]);
    Step(c, Step(c, s4, ClaimIt(h)), Open(h))
  }

  predicate BudgetLeft(attempts: map<string, nat>, key: string, limit: int) {
    Count(attempts, key) < limit
  }

  lemma Refused(c: Config, s: State, h: nat)
    requires h in s.handlers && s.handlers[h].Finished?
    ensures forall reply :: Step(c, Step(c, Step(c, s, Answer(h, reply)), ClaimIt(h)), Open(h)) == s
    ensures Step(c, Step(c, s, AskBudget(h)), Budget(h)) == s
  {
  }

  lemma BudgetDecides(c: Config, s: State, h: nat, reply: Option<nat>)
    requires h in s.handlers && s.handlers[h].Asking? && s.handlers[h].askedAt == s.now
    requires reply.Some? ==> InWindow(reply.value, s.now)
    ensures var Asking(id, _, _) := s.handlers[h];
            var s' := Step(c, Step(c, Step(c, Step(c, s, Budget(h)), Answer(h, reply)), ClaimIt(h)), Open(h));
            var opens := BudgetLeft(s.limiter.devices, AttemptKey(id, WindowOf(s.now)), c.attemptsPerWindow) && reply.Some? &&
                         ClaimCounter(s.limiter, id, reply.value, s.now).1;
            s'.sessions == s.sessions + (if opens then [|s.claims|] else []) &&
            s'.claims == s.claims + (if opens then [SuccessfulClaim(id, reply.value, s.now)] else [])
  {
    var s1 := Step(c, s, Budget(h));
    if s1.handlers[h].Finished? {
      Refused(c, s1, h);
    }
  }

  /**
   A session is opened exactly when both budgets are left, the input is well formed, the code matches
   and the claim is new; and the claim it is opened for is the reply's counter for the normalised ID.
   */
  lemma LoginDecides(c: Config, s: State, h: nat, ip: string, rawId: string, rawCode: string, reply: Option<nat>)
    requires h !in s.handlers && (reply.Some? ==> InWindow(reply.value, s.now))
    ensures var id, code := NormalizeId(rawId), NormalizeCode(rawCode);
            var s' := LoggedIn(c, s, h, ip, rawId, rawCode, reply);
            var opens := BudgetLeft(s.limiter.ips, AttemptKey(ip, MinuteOf(s.now)), c.ipAttemptsPerMinute) &&
                         IsValidId(id) && IsValidCode(code) &&
                         BudgetLeft(s.limiter.devices, AttemptKey(id, WindowOf(s.now)), c.attemptsPerWindow) &&
                         reply.Some? && ClaimCounter(s.limiter, id, reply.value, s.now).1;
            s'.sessions == s.sessions + (if opens then [|s.claims|] else []) &&
            s'.claims == s.claims + (if opens then [SuccessfulClaim(id, reply.value, s.now)] else [])
  {
    RunFour(c, s, [Post(h, ip, s.now, rawId, rawCode), AskBudget(h), Budget(h), Answer(h, reply)]);
    var s1 := Step(c, s, Post(h, ip, s.now, rawId, rawCode));
    if s1.handlers[h].Finished? {
      Refused(c, s1, h);
    } else {
      var s2 := Step(c, s1, AskBudget(h));
      if s2.handlers[h].Finished? {
        assert Step(c, s2, Budget(h)) == s2;
        Refused(c, s2, h);
      } else {
        BudgetDecides(c, s2, h, reply);
      }
    }
  }
}
