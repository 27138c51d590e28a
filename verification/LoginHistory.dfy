/** What a login decides, told from the history of the run alone: no counter and no record of the limiter is mentioned. */
module LoginHistory {
  import opened Numerals
  import opened Limits
  import opened Ids
  import opened Attempts
  import opened Login
  import opened LoginBounds

  /** Every counter the device has logged in with is smaller. */
  ghost predicate Newest(claims: seq<SuccessfulClaim>, id: string, counter: nat) {
    forall i :: 0 <= i < |claims| && claims[i].id == id ==> claims[i].counter < counter
  }

  // ---- The perfect limiter keeps the best counter ---------------------------------------

  ghost predicate BestWasClaimed(s: State) {
    s.limiter.Perfect? && forall id :: id in s.limiter.best ==>
      exists i :: 0 <= i < |s.claims| && s.claims[i].id == id && s.claims[i].counter == s.limiter.best[id]
  }

  lemma StepBestWasClaimed(c: Config, s: State, a: Action)
    requires BestWasClaimed(s)
    ensures BestWasClaimed(Step(c, s, a))
  {
    var s' := Step(c, s, a);
    assert s.claims <= s'.claims;
    forall id | id in s'.limiter.best
      ensures exists i :: 0 <= i < |s'.claims| && s'.claims[i].id == id && s'.claims[i].counter == s'.limiter.best[id]
    {
      if id in s.limiter.best && s'.limiter.best[id] == s.limiter.best[id] {
        var i :| 0 <= i < |s.claims| && s.claims[i].id == id && s.claims[i].counter == s.limiter.best[id];
        assert s'.claims[i] == s.claims[i];
      } else {
        assert s'.claims[|s.claims|].id == id;
      }
    }
  }

  lemma {:induction false} RunBestWasClaimed(c: Config, acts: seq<Action>)
    ensures BestWasClaimed(Run(c, Start(EMPTY_PERFECT), acts))
  {
    hide Step;
    if acts != [] {
      RunBestWasClaimed(c, acts[..|acts| - 1]);
      StepBestWasClaimed(c, Run(c, Start(EMPTY_PERFECT), acts[..|acts| - 1]), acts[|acts| - 1]);
    }
  }

  lemma PerfectClaim(c: Config, acts: seq<Action>, id: string, counter: nat, t: nat)
    ensures var s := Run(c, Start(EMPTY_PERFECT), acts);
            ClaimCounter(s.limiter, id, counter, t).1 <==> Newest(s.claims, id, counter)
  {
    PerfectIncreases(c, acts);
    RunBestWasClaimed(c, acts);
    hide Run;
    var s := Run(c, Start(EMPTY_PERFECT), acts);
    if id in s.limiter.best && counter <= s.limiter.best[id] {
      var i :| 0 <= i < |s.claims| && s.claims[i].id == id && s.claims[i].counter == s.limiter.best[id];
      assert !(s.claims[i].counter < counter);
    } else {
      assert forall i :: 0 <= i < |s.claims| && s.claims[i].id == id ==> s.claims[i].counter <= s.limiter.best[id];
    }
  }

  // ---- Claims ---------------------------------------------------------------------------------

  lemma PerfectClaimExactly(c: Config, acts: seq<Action>, h: nat)
    requires var s := Run(c, Start(EMPTY_PERFECT), acts);
             h in s.handlers && s.handlers[h].Matched? && InTime(s.handlers[h].at, s.now, c.claimDelay)
    ensures var s := Run(c, Start(EMPTY_PERFECT), acts);
            h in Run(c, Start(EMPTY_PERFECT), acts + [ClaimIt(h)]).handlers &&
            (Run(c, Start(EMPTY_PERFECT), acts + [ClaimIt(h)]).handlers[h].Granted? <==>
              Newest(s.claims, s.handlers[h].id, s.handlers[h].counter))
  {
    var s := Run(c, Start(EMPTY_PERFECT), acts);
    RunExtends(c, Start(EMPTY_PERFECT), acts, ClaimIt(h));
    PerfectClaim(c, acts, s.handlers[h].id, s.handlers[h].counter, s.now);
    hide Run, Newest, ClaimCounter;
  }

  /** In every run a claim is granted exactly when its counter is beyond all its device has logged in with. */
  lemma ClaimExactly(c: Config, acts: seq<Action>, h: nat)
    requires c.claimDelay <= STEP_MS
    requires var s := Run(c, Start(EMPTY_FORGETFUL), acts);
             h in s.handlers && s.handlers[h].Matched? && InTime(s.handlers[h].at, s.now, c.claimDelay)
    ensures var s := Run(c, Start(EMPTY_FORGETFUL), acts);
            h in Run(c, Start(EMPTY_FORGETFUL), acts + [ClaimIt(h)]).handlers &&
            (Run(c, Start(EMPTY_FORGETFUL), acts + [ClaimIt(h)]).handlers[h].Granted? <==>
              Newest(s.claims, s.handlers[h].id, s.handlers[h].counter))
  {
    ForgettingIsInvisible(c, acts);
    ForgettingIsInvisible(c, acts + [ClaimIt(h)]);
    hide Run, Newest;
    PerfectClaimExactly(c, acts, h);
  }

  // ---- Whole logins -----------------------------------------------------------------------------

  /** One POST from arrival to session, with nothing between its steps. */
  function WholeLogin(now: nat, h: nat, ip: string, rawId: string, rawCode: string, reply: Option<nat>): seq<Action> {
    [Post(h, ip, now, rawId, rawCode), AskBudget(h), Budget(h), Answer(h, reply)] + [ClaimIt(h), Open(h)]
  }

  lemma WholeLoginIsLoggedIn(c: Config, limiter: Limiter, acts: seq<Action>, h: nat, ip: string, rawId: string, rawCode: string,
                             reply: Option<nat>)
    ensures var s := Run(c, Start(limiter), acts);
            Run(c, Start(limiter), acts + WholeLogin(s.now, h, ip, rawId, rawCode, reply)) ==
            LoggedIn(c, s, h, ip, rawId, rawCode, reply)
  {
    hide Step;
    var s := Run(c, Start(limiter), acts);
    var first, second := [Post(h, ip, s.now, rawId, rawCode), AskBudget(h), Budget(h), Answer(h, reply)], [ClaimIt(h), Open(h)];
    RunConcat(c, Start(limiter), acts, first + second);
    RunConcat(c, s, first, second);
    RunExtends(c, Run(c, s, first), [], ClaimIt(h));
    RunExtends(c, Run(c, s, first), [ClaimIt(h)], Open(h));
    assert [] + [ClaimIt(h)] == [ClaimIt(h)] && [ClaimIt(h)] + [Open(h)] == second;
  }

  /**
   The five conditions, in the words of the history: too few attempts so far, in the minute from the
   IP and in the window for the device, a well-formed ID and code, a code that matches, and a counter
   beyond all the device has logged in with.
   */
  ghost predicate MayEnter(c: Config, s: State, ip: string, rawId: string, rawCode: string, reply: Option<nat>) {
    && Sent(s.posted, ip, s.now / 60_000, 60_000) < c.ipAttemptsPerMinute
    && IsValidId(NormalizeId(rawId)) && IsValidCode(NormalizeCode(rawCode))
    && Sent(s.asked, NormalizeId(rawId), s.now / 90_000, 90_000) < c.attemptsPerWindow
    && reply.Some? && Newest(s.claims, NormalizeId(rawId), reply.value)
  }

  /** The session and the claim that are added, if any. */
  ghost predicate EntersIf(s: State, s': State, id: string, reply: Option<nat>, enters: bool)
    requires enters ==> reply.Some?
  {
    && s'.sessions == s.sessions + (if enters then [|s.claims|] else [])
    && s'.claims == s.claims + (if enters then [SuccessfulClaim(id, reply.value, s.now)] else [])
  }

  /** The count kept for the current slot is the number of attempts sent. */
  lemma CountIsSent(log: seq<Attempt>, counts: map<string, nat>, who: string, length: nat, now: nat, delay: nat)
    requires length > 0 && Tallied(log, counts, length, now, delay, true)
    ensures Count(counts, AttemptKey(who, now / length)) == Sent(log, who, now / length, length)
  {
    TalliedAt(log, counts, Attempt(who, now, now, true), length, now, delay, true);
  }

  lemma BudgetIsSent(log: seq<Attempt>, counts: map<string, nat>, who: string, length: nat, now: nat, delay: nat, limit: int)
    requires length > 0 && Tallied(log, counts, length, now, delay, true)
    ensures BudgetLeft(counts, AttemptKey(who, now / length), limit) <==> Sent(log, who, now / length, length) < limit
  {
    hide Tallied;
    CountIsSent(log, counts, who, length, now, delay);
  }

  lemma PerfectHistoryDecides(c: Config, acts: seq<Action>, h: nat, ip: string, rawId: string, rawCode: string, reply: Option<nat>)
    requires var s := Run(c, Start(EMPTY_PERFECT), acts); h !in s.handlers && (reply.Some? ==> InWindow(reply.value, s.now))
    ensures var s := Run(c, Start(EMPTY_PERFECT), acts);
            EntersIf(s, Run(c, Start(EMPTY_PERFECT), acts + WholeLogin(s.now, h, ip, rawId, rawCode, reply)), NormalizeId(rawId),
                     reply, MayEnter(c, s, ip, rawId, rawCode, reply))
  {
    var s := Run(c, Start(EMPTY_PERFECT), acts);
    WholeLoginIsLoggedIn(c, EMPTY_PERFECT, acts, h, ip, rawId, rawCode, reply);
    LoginDecides(c, s, h, ip, rawId, rawCode, reply);
    RunBudgeted(c, EMPTY_PERFECT, acts, true);
    BudgetIsSent(s.posted, s.limiter.ips, ip, MINUTE_MS, s.now, c.commandDelay, c.ipAttemptsPerMinute);
    BudgetIsSent(s.asked, s.limiter.devices, NormalizeId(rawId), STEP_MS, s.now, c.commandDelay, c.attemptsPerWindow);
    if reply.Some? { PerfectClaim(c, acts, NormalizeId(rawId), reply.value, s.now); }
    hide Run, LoggedIn, Budgeted, WholeLogin, NormalizeId, NormalizeCode, IsValidId, IsValidCode, Newest, ClaimCounter, Sent, BudgetLeft;
  }

  /** In every run, whatever the limiter has forgotten, a login is decided by the history. */
  lemma HistoryDecides(c: Config, acts: seq<Action>, h: nat, ip: string, rawId: string, rawCode: string, reply: Option<nat>)
    requires c.claimDelay <= STEP_MS
    requires var s := Run(c, Start(EMPTY_FORGETFUL), acts); h !in s.handlers && (reply.Some? ==> InWindow(reply.value, s.now))
    ensures var s := Run(c, Start(EMPTY_FORGETFUL), acts);
            EntersIf(s, Run(c, Start(EMPTY_FORGETFUL), acts + WholeLogin(s.now, h, ip, rawId, rawCode, reply)), NormalizeId(rawId),
                     reply, MayEnter(c, s, ip, rawId, rawCode, reply))
  {
    var s := Run(c, Start(EMPTY_FORGETFUL), acts);
    ForgettingIsInvisible(c, acts);
    ForgettingIsInvisible(c, acts + WholeLogin(s.now, h, ip, rawId, rawCode, reply));
    hide Run, WholeLogin, NormalizeId, NormalizeCode, IsValidId, IsValidCode, Newest, Sent;
    PerfectHistoryDecides(c, acts, h, ip, rawId, rawCode, reply);
  }
}
