/** The login protocol with the verifier behind it, over a keystore that changes while logins are under way. */
module LoginVerifier {
  import opened Numerals
  import opened Ids
  import opened Limits
  import opened Attempts
  import Login
  import LoginBounds
  import LoginHistory
  import opened Otp
  import VerifierWire

  /** What verify() returns when the verifier looks at its clock and keystore at t milliseconds. */
  function Heard(mac: Mac, store: Keystore, id: string, code: string, t: nat): Option<nat> {
    VerifierWire.Received(VerifierWire.Answer(mac, store, id, code, t / 1000))
  }

  lemma SameSteps(t: nat)
    ensures CounterForTime(t / 1000) == WindowOf(t)
  {
  }

  /** A yes is for a code that was good at that moment, and carries its counter. */
  lemma HeardIsGood(mac: Mac, store: Keystore, id: string, code: string, t: nat)
    ensures var reply := Heard(mac, store, id, code, t);
            reply.Some? ==> CodeIsGood(mac, store, id, code, WindowOf(t)) &&
                            reply == Expected(mac, store.devices[id].key, code, WindowOf(t))
  {
    SameSteps(t);
    GoodExactly(mac, store, id, code, WindowOf(t));
    hide Verdict, Expected;
  }

  /** A counter the verifier answers with is within one step of the moment it looked. */
  lemma HeardInWindow(mac: Mac, store: Keystore, id: string, code: string, t: nat)
    requires 1 <= WindowOf(t) < U64 - 1
    ensures var reply := Heard(mac, store, id, code, t); reply.Some? ==> InWindow(reply.value, t)
  {
    HeardIsGood(mac, store, id, code, t);
    hide Expected, Heard;
    if Heard(mac, store, id, code, t).Some? { ExpectedIsNear(mac, store.devices[id].key, code, WindowOf(t)); }
  }

  /** So the protocol takes every answer of the verifier: the handler goes on with its counter, or ends. */
  lemma AnswersAreTaken(c: Login.Config, s: Login.State, h: nat, mac: Mac, store: Keystore)
    requires h in s.handlers && s.handlers[h].Verifying? && 1 <= WindowOf(s.now) < U64 - 1
    ensures var reply := Heard(mac, store, s.handlers[h].id, s.handlers[h].code, s.now);
            Login.Step(c, s, Login.Answer(h, reply)).handlers ==
            s.handlers[h := match reply
                            case Some(counter) => Login.Matched(s.handlers[h].id, counter, s.now)
                            case None => Login.Finished]
  {
    hide Heard;
    HeardInWindow(mac, store, s.handlers[h].id, s.handlers[h].code, s.now);
  }

  // ---- A whole login, keystore included ---------------------------------------------------

  /**
   In every run, with the verifier answering, a POST with nothing between its steps opens a session
   exactly when too few were sent before it, its code is good for a device in use, and the code's
   counter is beyond all the device has logged in with.
   */
  lemma LoginExactly(c: Login.Config, acts: seq<Login.Action>, h: nat, ip: string, rawId: string, rawCode: string, mac: Mac,
                     store: Keystore)
    requires c.claimDelay <= STEP_MS
    requires var s := Login.Run(c, Login.Start(Login.EMPTY_FORGETFUL), acts);
             h !in s.handlers && 1 <= WindowOf(s.now) < 999_999_999_999_999
    ensures var s := Login.Run(c, Login.Start(Login.EMPTY_FORGETFUL), acts);
            var id, code := NormalizeId(rawId), NormalizeCode(rawCode);
            var login := LoginHistory.WholeLogin(s.now, h, ip, rawId, rawCode, Heard(mac, store, id, code, s.now));
            var s' := Login.Run(c, Login.Start(Login.EMPTY_FORGETFUL), acts + login);
            (s'.sessions != s.sessions <==>
               Sent(s.posted, ip, s.now / 60_000, 60_000) < c.ipAttemptsPerMinute &&
               IsValidCode(code) && Sent(s.asked, id, s.now / 90_000, 90_000) < c.attemptsPerWindow &&
               CodeIsGood(mac, store, id, code, s.now / 90_000) &&
               LoginHistory.Newest(s.claims, id, Expected(mac, store.devices[id].key, code, s.now / 90_000).value))
  {
    var s := Login.Run(c, Login.Start(Login.EMPTY_FORGETFUL), acts);
    var id, code := NormalizeId(rawId), NormalizeCode(rawCode);
    var reply := Heard(mac, store, id, code, s.now);
    hide Login.Run, NormalizeId, NormalizeCode, IsValidCode, Sent, LoginHistory.Newest, Expected, LoginHistory.WholeLogin;
    SameIds(id);
    SameSteps(s.now);
    assert (reply.Some? <==> CodeIsGood(mac, store, id, code, WindowOf(s.now))) &&
           (reply.Some? ==> reply == Expected(mac, store.devices[id].key, code, WindowOf(s.now))) by {
      VerifierWire.AnswerExactly(mac, store, id, code, s.now / 1000);
    }
    hide Heard;
    HeardInWindow(mac, store, id, code, s.now);
    LoginHistory.HistoryDecides(c, acts, h, ip, rawId, rawCode, reply);
    hide CodeIsGood;
  }

  // ---- Runs over a changing keystore ----------------------------------------------------------

  datatype World = World(login: Login.State, store: Keystore)

  /** Hear is the verifier's answer to a handler, or what the handler makes of a broken connection. */
  datatype Action =
    | Act(step: Login.Action)
    | Change(store: Keystore)
    | Hear(h: nat, broken: bool)

  const START := World(Login.Start(Login.EMPTY_FORGETFUL), Keystore(map[], true))

  function Step(mac: Mac, c: Login.Config, w: World, a: Action): World {
    match a
    case Act(b) => if b.Answer? then w else w.(login := Login.Step(c, w.login, b))
    case Change(store) => w.(store := store)
    case Hear(h, broken) =>
      if h in w.login.handlers && w.login.handlers[h].Verifying?
      then
        var reply := if broken then None
                     else Heard(mac, w.store, w.login.handlers[h].id, w.login.handlers[h].code, w.login.now);
        w.(login := Login.Step(c, w.login, Login.Answer(h, reply)))
      else w
  }

  function Run(mac: Mac, c: Login.Config, acts: seq<Action>): World {
    if acts == [] then START else Step(mac, c, Run(mac, c, acts[..|acts| - 1]), acts[|acts| - 1])
  }

  /** At step k, at time `at`, the verifier answered for `id` with this counter: its code was good in the keystore of that moment. */
  ghost predicate AnsweredAt(mac: Mac, c: Login.Config, acts: seq<Action>, k: nat, id: string, counter: nat, at: nat) {
    k < |acts| && acts[k].Hear? &&
    var w, h := Run(mac, c, acts[..k]), acts[k].h;
    w.login.now == at && h in w.login.handlers && w.login.handlers[h].Verifying? && w.login.handlers[h].id == id &&
    CodeIsGood(mac, w.store, id, w.login.handlers[h].code, WindowOf(at)) &&
    Expected(mac, w.store.devices[id].key, w.login.handlers[h].code, WindowOf(at)) == Some(counter)
  }

  ghost predicate ClaimRests(mac: Mac, c: Login.Config, acts: seq<Action>, claim: Login.SuccessfulClaim) {
    exists k: nat, at: nat ::
      AnsweredAt(mac, c, acts, k, claim.id, claim.counter, at) && at <= claim.at <= at + c.claimDelay
  }

  ghost predicate HandlerRests(mac: Mac, c: Login.Config, acts: seq<Action>, q: Login.Handler) {
    q.Matched? ==> exists k: nat :: AnsweredAt(mac, c, acts, k, q.id, q.counter, q.at)
  }

  ghost predicate Traced(mac: Mac, c: Login.Config, acts: seq<Action>, s: Login.State) {
    && (forall h :: h in s.handlers ==> HandlerRests(mac, c, acts, s.handlers[h]))
    && (forall i :: 0 <= i < |s.claims| ==> ClaimRests(mac, c, acts, s.claims[i]))
  }

  lemma AnsweredLater(mac: Mac, c: Login.Config, acts: seq<Action>, a: Action, k: nat, id: string, counter: nat, at: nat)
    requires AnsweredAt(mac, c, acts, k, id, counter, at)
    ensures AnsweredAt(mac, c, acts + [a], k, id, counter, at)
  {
    hide Run, CodeIsGood, Expected;
    assert (acts + [a])[..k] == acts[..k];
  }

  lemma TracedLater(mac: Mac, c: Login.Config, acts: seq<Action>, a: Action, s: Login.State)
    requires Traced(mac, c, acts, s)
    ensures Traced(mac, c, acts + [a], s)
  {
    hide AnsweredAt;
    forall h | h in s.handlers ensures HandlerRests(mac, c, acts + [a], s.handlers[h]) {
      var q := s.handlers[h];
      assert HandlerRests(mac, c, acts, q);
      if q.Matched? {
        var k: nat :| AnsweredAt(mac, c, acts, k, q.id, q.counter, q.at);
        AnsweredLater(mac, c, acts, a, k, q.id, q.counter, q.at);
      }
    }
    forall i | 0 <= i < |s.claims| ensures ClaimRests(mac, c, acts + [a], s.claims[i]) {
      var claim := s.claims[i];
      assert ClaimRests(mac, c, acts, claim);
      var k: nat, at: nat :| AnsweredAt(mac, c, acts, k, claim.id, claim.counter, at) && at <= claim.at <= at + c.claimDelay;
      AnsweredLater(mac, c, acts, a, k, claim.id, claim.counter, at);
    }
  }

  /** A step of the protocol other than an answer. */
  lemma ActTraced(mac: Mac, c: Login.Config, acts: seq<Action>, s: Login.State, b: Login.Action)
    requires Traced(mac, c, acts, s) && !b.Answer?
    ensures Traced(mac, c, acts, Login.Step(c, s, b))
  {
    hide AnsweredAt;
    var s' := Login.Step(c, s, b);
    forall i | 0 <= i < |s'.claims| ensures ClaimRests(mac, c, acts, s'.claims[i]) {
      if i < |s.claims| {
        assert s'.claims[i] == s.claims[i];
      } else {
        var q := s.handlers[b.h];
        assert HandlerRests(mac, c, acts, q);
        var k: nat :| AnsweredAt(mac, c, acts, k, q.id, q.counter, q.at);
        assert s'.claims[i] == Login.SuccessfulClaim(q.id, q.counter, s.now);
      }
    }
    forall h | h in s'.handlers ensures HandlerRests(mac, c, acts, s'.handlers[h]) {
      if s'.handlers[h].Matched? { assert h in s.handlers && s'.handlers[h] == s.handlers[h]; }
    }
  }

  lemma RunExtends(mac: Mac, c: Login.Config, acts: seq<Action>, a: Action)
    ensures Run(mac, c, acts + [a]) == Step(mac, c, Run(mac, c, acts), a)
  {
    hide Step;
    assert (acts + [a])[..|acts|] == acts;
  }

  lemma HearTraced(mac: Mac, c: Login.Config, acts: seq<Action>, h: nat, broken: bool)
    requires Traced(mac, c, acts, Run(mac, c, acts).login)
    ensures var acts' := acts + [Hear(h, broken)]; Traced(mac, c, acts', Run(mac, c, acts').login)
  {
    var a := Hear(h, broken);
    var w := Run(mac, c, acts);
    RunExtends(mac, c, acts, a);
    TracedLater(mac, c, acts, a, w.login);
    assert (acts + [a])[..|acts|] == acts;
    if h in w.login.handlers && w.login.handlers[h].Verifying? {
      HeardIsGood(mac, w.store, w.login.handlers[h].id, w.login.handlers[h].code, w.login.now);
      hide Run, Heard, CodeIsGood, Expected, HandlerRests, ClaimRests;
      HeardRests(mac, c, acts, h, broken);
    }
  }

  lemma AnswerMoves(c: Login.Config, s: Login.State, h: nat, reply: Option<nat>)
    requires h in s.handlers && s.handlers[h].Verifying?
    ensures var s' := Login.Step(c, s, Login.Answer(h, reply));
            h in s'.handlers &&
            (s'.handlers[h].Matched? ==> reply.Some? && s'.handlers[h] == Login.Matched(s.handlers[h].id, reply.value, s.now))
  {
  }

  lemma HeardRests(mac: Mac, c: Login.Config, acts: seq<Action>, h: nat, broken: bool)
    requires var w := Run(mac, c, acts); h in w.login.handlers && w.login.handlers[h].Verifying?
    ensures var w' := Step(mac, c, Run(mac, c, acts), Hear(h, broken));
            h in w'.login.handlers && HandlerRests(mac, c, acts + [Hear(h, broken)], w'.login.handlers[h])
  {
    var w, acts' := Run(mac, c, acts), acts + [Hear(h, broken)];
    var id, code, now := w.login.handlers[h].id, w.login.handlers[h].code, w.login.now;
    HeardIsGood(mac, w.store, id, code, now);
    assert acts'[..|acts|] == acts;
    hide Run, Heard, CodeIsGood, Expected, Login.Step;
    var reply := Heard(mac, w.store, id, code, now);
    assert reply.Some? ==> AnsweredAt(mac, c, acts', |acts|, id, reply.value, now);
    AnswerMoves(c, w.login, h, if broken then None else reply);
    hide AnsweredAt;
  }

  lemma {:induction false} RunTraced(mac: Mac, c: Login.Config, acts: seq<Action>)
    ensures Traced(mac, c, acts, Run(mac, c, acts).login)
  {
    if acts != [] {
      hide Traced, Login.Step;
      var before, a := acts[..|acts| - 1], acts[|acts| - 1];
      assert acts == before + [a];
      RunTraced(mac, c, before);
      RunExtends(mac, c, before, a);
      TracedLater(mac, c, before, a, Run(mac, c, before).login);
      match a
      case Act(b) => if !b.Answer? { ActTraced(mac, c, acts, Run(mac, c, before).login, b); }
      case Change(_) =>
      case Hear(h, broken) => HearTraced(mac, c, before, h, broken);
    } else {
      StartTraced(mac, c);
    }
  }

  lemma StartTraced(mac: Mac, c: Login.Config)
    ensures Traced(mac, c, [], START.login)
  {
  }

  /** Every successful claim rests on an answer given while the keystore had the device in use and the code was good. */
  lemma EveryClaimWasGood(mac: Mac, c: Login.Config, acts: seq<Action>, i: nat)
    requires i < |Run(mac, c, acts).login.claims|
    ensures ClaimRests(mac, c, acts, Run(mac, c, acts).login.claims[i])
  {
    RunTraced(mac, c, acts);
  }

  // ---- Revocation ---------------------------------------------------------------------------------

  predicate OutOfUse(store: Keystore, id: string) {
    id in store.devices ==> store.devices[id].status != 1
  }

  predicate KeptOut(acts: seq<Action>, id: string) {
    forall i :: 0 <= i < |acts| && acts[i].Change? ==> OutOfUse(acts[i].store, id)
  }

  lemma {:induction false} StaysOut(mac: Mac, c: Login.Config, before: seq<Action>, after: seq<Action>, id: string)
    requires OutOfUse(Run(mac, c, before).store, id) && KeptOut(after, id)
    ensures OutOfUse(Run(mac, c, before + after).store, id)
    decreases |after|
  {
    if after == [] {
      assert before + after == before;
    } else {
      var front := after[..|after| - 1];
      assert before + after == (before + front) + [after[|after| - 1]];
      StaysOut(mac, c, before, front, id);
      RunExtends(mac, c, before + front, after[|after| - 1]);
    }
  }

  lemma {:induction false} TimePasses(mac: Mac, c: Login.Config, before: seq<Action>, after: seq<Action>)
    ensures Run(mac, c, before).login.now <= Run(mac, c, before + after).login.now
    decreases |after|
  {
    if after == [] {
      assert before + after == before;
    } else {
      hide Heard;
      var front := after[..|after| - 1];
      assert before + after == (before + front) + [after[|after| - 1]];
      TimePasses(mac, c, before, front);
      RunExtends(mac, c, before + front, after[|after| - 1]);
    }
  }

  /** An answer for a device that is out of use from `before` on was given within `before`. */
  lemma AnsweredBefore(mac: Mac, c: Login.Config, before: seq<Action>, after: seq<Action>, k: nat, id: string, counter: nat, at: nat)
    requires OutOfUse(Run(mac, c, before).store, id) && KeptOut(after, id)
    requires AnsweredAt(mac, c, before + after, k, id, counter, at)
    ensures k < |before| && at <= Run(mac, c, before).login.now
  {
    var acts := before + after;
    if |before| <= k {
      assert acts[..k] == before + after[..k - |before|];
      StaysOut(mac, c, before, after[..k - |before|], id);
      assert false;
    }
    assert acts[..k] == before[..k] && before == before[..k] + before[k..];
    TimePasses(mac, c, before[..k], before[k..]);
  }

  /** A device revoked at r and kept revoked gets no match after r, so no claim later than the claim delay after it. */
  lemma RevokedGetsNoMatch(mac: Mac, c: Login.Config, before: seq<Action>, after: seq<Action>, id: string, i: nat)
    requires OutOfUse(Run(mac, c, before).store, id) && KeptOut(after, id)
    requires var s := Run(mac, c, before + after).login; i < |s.claims| && s.claims[i].id == id
    ensures var claim := Run(mac, c, before + after).login.claims[i];
            claim.at <= Run(mac, c, before).login.now + c.claimDelay &&
            exists k: nat, at: nat :: k < |before| && AnsweredAt(mac, c, before + after, k, id, claim.counter, at)
  {
    EveryClaimWasGood(mac, c, before + after, i);
    hide Run, OutOfUse, KeptOut, AnsweredAt;
    var claim := Run(mac, c, before + after).login.claims[i];
    var k: nat, at: nat :| AnsweredAt(mac, c, before + after, k, id, claim.counter, at) && at <= claim.at <= at + c.claimDelay;
    AnsweredBefore(mac, c, before, after, k, id, claim.counter, at);
  }

  // ---- And that is how late a claim can be ------------------------------------------------------------

  /** A claim of a device that is out of use after `before`, if there is one, is at most `bound` later. */
  ghost predicate InBound(mac: Mac, c: Login.Config, before: seq<Action>, after: seq<Action>, id: string, i: nat, bound: nat) {
    var r, s := Run(mac, c, before), Run(mac, c, before + after).login;
    (OutOfUse(r.store, id) && KeptOut(after, id) && i < |s.claims| && s.claims[i].id == id) ==>
      s.claims[i].at <= r.login.now + bound
  }

  function Key(): (key: string)
    ensures |key| == 128
  {
    seq(128, i => '0')
  }

  function InUse(): Keystore {
    Keystore(map["TEST" := Device(Key(), 1)], true)
  }

  const NOBODY := Keystore(map[], true)

  function UpToBudget(code: string): seq<Action> {
    [] + [Change(InUse())] + [Act(Login.Tick(900_000))] + [Act(Login.Post(0, "a", 900_000, "TEST", code))] +
    [Act(Login.AskBudget(0))] + [Act(Login.Budget(0))]
  }

  /** The device is revoked when its code has been matched but not claimed. */
  function RevokedInFlight(code: string): seq<Action> {
    UpToBudget(code) + [Hear(0, false)] + [Change(NOBODY)]
  }

  lemma CurrentCodeIsHeard(mac: Mac) returns (n: nat)
    ensures Heard(mac, InUse(), "TEST", CodeAt(mac, Key(), 10), 900_000) == Some(n) && InWindow(n, 900_000)
  {
    var code := CodeAt(mac, Key(), 10);
    HeardInWindow(mac, InUse(), "TEST", code, 900_000);
    assert CodeIsGood(mac, InUse(), "TEST", code, 10) by {
      hide CodeAt;
      assert ValidDeviceId("TEST");
    }
    hide CodeIsGood, CodeAt, Heard;
    HeardYes(mac, InUse(), "TEST", code, 900_000);
    n := Heard(mac, InUse(), "TEST", code, 900_000).value;
  }

  lemma HeardYes(mac: Mac, store: Keystore, id: string, code: string, t: nat)
    requires 1 <= WindowOf(t) < 999_999_999_999_999
    ensures Heard(mac, store, id, code, t).Some? <==> CodeIsGood(mac, store, id, code, WindowOf(t))
  {
    SameSteps(t);
    VerifierWire.AnswerExactly(mac, store, id, code, t / 1000);
    hide CodeIsGood, Expected;
  }

  lemma BudgetReached(mac: Mac, c: Login.Config, code: string)
    ensures var w, s := Run(mac, c, UpToBudget(code)), Login.Start(Login.EMPTY_FORGETFUL).(now := 900_000);
            w.store == InUse() &&
            w.login == Login.Step(c, Login.Step(c, Login.Step(c, s, Login.Post(0, "a", 900_000, "TEST", code)), Login.AskBudget(0)),
                                  Login.Budget(0))
  {
    hide Heard;
    var a1, a2, a3 := Change(InUse()), Act(Login.Tick(900_000)), Act(Login.Post(0, "a", 900_000, "TEST", code));
    RunExtends(mac, c, [], a1);
    RunExtends(mac, c, [] + [a1], a2);
    RunExtends(mac, c, [] + [a1] + [a2], a3);
    RunExtends(mac, c, [] + [a1] + [a2] + [a3], Act(Login.AskBudget(0)));
    RunExtends(mac, c, [] + [a1] + [a2] + [a3] + [Act(Login.AskBudget(0))], Act(Login.Budget(0)));
    assert Run(mac, c, [] + [a1] + [a2]).login == Login.Start(Login.EMPTY_FORGETFUL).(now := 900_000);
    hide Login.Step, Run;
  }

  lemma HearsYes(mac: Mac, c: Login.Config, w: World, code: string, n: nat)
    requires w.store == InUse() && w.login.now == 900_000 && w.login.handlers == map[0 := Login.Verifying("TEST", code)]
    requires Heard(mac, InUse(), "TEST", code, 900_000) == Some(n)
    ensures Step(mac, c, w, Hear(0, false)) == w.(login := Login.Step(c, w.login, Login.Answer(0, Some(n))))
  {
    hide Login.Step, Heard, InUse;
  }

  lemma MatchInFlight(mac: Mac, c: Login.Config) returns (n: nat)
    requires c.attemptsPerWindow > 0 && c.ipAttemptsPerMinute > 0
    ensures var w := Run(mac, c, RevokedInFlight(CodeAt(mac, Key(), 10)));
            w.store == NOBODY && w.login.now == 900_000 && w.login.claims == [] && w.login.limiter.Forgetful? &&
            w.login.limiter.claims == map[] && w.login.handlers == map[0 := Login.Matched("TEST", n, 900_000)]
  {
    var code, s := CodeAt(mac, Key(), 10), Login.Start(Login.EMPTY_FORGETFUL).(now := 900_000);
    n := CurrentCodeIsHeard(mac);
    CodeReadsBack(mac, Key(), 10);
    hide CodeAt, Heard, Run, UpToBudget;
    LoginBounds.MatchReached(c, s, 0, "a", "TEST", code, n);
    var acts := LoginBounds.UpToMatch(0, "a", 900_000, "TEST", code, n);
    LoginBounds.RunFour(c, s, acts);
    BudgetReached(mac, c, code);
    BudgetHeard(c, s, code);
    hide Login.Step, Login.Run;
    HearsYes(mac, c, Run(mac, c, UpToBudget(code)), code, n);
    RunExtends(mac, c, UpToBudget(code), Hear(0, false));
    RunExtends(mac, c, UpToBudget(code) + [Hear(0, false)], Change(NOBODY));
  }

  lemma BudgetHeard(c: Login.Config, s: Login.State, code: string)
    requires c.attemptsPerWindow > 0 && c.ipAttemptsPerMinute > 0 && IsValidCode(code)
    requires s == Login.Start(Login.EMPTY_FORGETFUL).(now := 900_000)
    ensures var s3 := Login.Step(c, Login.Step(c, Login.Step(c, s, Login.Post(0, "a", 900_000, "TEST", code)), Login.AskBudget(0)),
                                 Login.Budget(0));
            s3.now == 900_000 && s3.handlers == map[0 := Login.Verifying("TEST", code)]
  {
    assert IsValidId("TEST");
    SameIds("TEST");
    ValidIdUnchanged("TEST");
    ValidCodeUnchanged(code);
    hide IsValidId, IsValidCode, NormalizeId, NormalizeCode, AttemptKey;
    var s1 := Login.Step(c, s, Login.Post(0, "a", 900_000, "TEST", code));
    assert s1.handlers == map[0 := Login.Counted("TEST", code)] && s1.limiter.devices == map[] && s1.now == 900_000;
    var s2 := Login.Step(c, s1, Login.AskBudget(0));
    assert s2 == s1.(handlers := map[0 := Login.Asking("TEST", code, 900_000)]);
  }

  lemma LateClaimMade(c: Login.Config, s: Login.State, n: nat)
    requires s.now == 900_000 && s.claims == [] && s.limiter.Forgetful? && s.limiter.claims == map[]
    requires s.handlers == map[0 := Login.Matched("TEST", n, 900_000)]
    ensures Login.Step(c, Login.Step(c, s, Login.Tick(c.claimDelay)), Login.ClaimIt(0)).claims ==
            [Login.SuccessfulClaim("TEST", n, 900_000 + c.claimDelay)]
  {
  }

  lemma ClaimedLate(mac: Mac, c: Login.Config, before: seq<Action>, n: nat)
    requires var w := Run(mac, c, before);
             w.login.now == 900_000 && w.login.claims == [] && w.login.limiter.Forgetful? && w.login.limiter.claims == map[] &&
             w.login.handlers == map[0 := Login.Matched("TEST", n, 900_000)]
    ensures var after := [] + [Act(Login.Tick(c.claimDelay))] + [Act(Login.ClaimIt(0))];
            Run(mac, c, before + after).login.claims == [Login.SuccessfulClaim("TEST", n, 900_000 + c.claimDelay)]
  {
    hide Run, Login.Step;
    var a1, a2 := Act(Login.Tick(c.claimDelay)), Act(Login.ClaimIt(0));
    RunExtends(mac, c, before, a1);
    RunExtends(mac, c, before + [a1], a2);
    assert before + ([] + [a1] + [a2]) == before + [a1] + [a2];
    LateClaimMade(c, Run(mac, c, before).login, n);
  }

  /** With budgets that let anyone in at all, a bound on claims of revoked devices holds in all runs exactly from the claim delay on. */
  lemma RevokedClaimExactly(mac: Mac, c: Login.Config, bound: nat)
    requires c.attemptsPerWindow > 0 && c.ipAttemptsPerMinute > 0
    ensures (forall before, after, id, i: nat :: InBound(mac, c, before, after, id, i, bound)) <==> c.claimDelay <= bound
  {
    if c.claimDelay <= bound {
      forall before, after, id, i: nat ensures InBound(mac, c, before, after, id, i, bound) {
        var s := Run(mac, c, before + after).login;
        if OutOfUse(Run(mac, c, before).store, id) && KeptOut(after, id) && i < |s.claims| && s.claims[i].id == id {
          RevokedGetsNoMatch(mac, c, before, after, id, i);
        }
      }
    } else {
      var n := MatchInFlight(mac, c);
      var before := RevokedInFlight(CodeAt(mac, Key(), 10));
      hide Run, RevokedInFlight, CodeAt;
      ClaimedLate(mac, c, before, n);
      var after := [] + [Act(Login.Tick(c.claimDelay))] + [Act(Login.ClaimIt(0))];
      assert !InBound(mac, c, before, after, "TEST", 0, bound);
    }
  }
}
