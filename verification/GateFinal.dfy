/** When a logout or a revoked token is final, and that nothing else takes a live credential away. */
module GateFinal {
  import opened Numerals
  import opened Tokens
  import opened Gate
  import opened GateSafety
  import opened GateBounds
  import Ids
  import Login
  import StatusCache

  // ---- What reachable states look like ----------------------------------------------------

  /** A call to the verifier belongs to a request that has got that far. */
  ghost predicate CallsStarted(s: State) {
    forall q :: q in s.status.calls ==> q in s.requests && !s.requests[q].Looking? && !s.requests[q].Found?
  }

  ghost predicate IdsValid(s: Login.State) {
    && (forall i :: 0 <= i < |s.claims| ==> Ids.IsValidId(s.claims[i].id))
    && (forall h :: h in s.handlers ==>
          (s.handlers[h].Asking? || s.handlers[h].Verifying? || s.handlers[h].Matched? ==> Ids.IsValidId(s.handlers[h].id)))
  }

  lemma LoginIdsValid(c: Login.Config, s: Login.State, a: Login.Action)
    requires IdsValid(s)
    ensures IdsValid(Login.Step(c, s, a))
  {
  }

  lemma StepIdsValid(c: Config, s: State, a: Action)
    requires IdsValid(s.login)
    ensures IdsValid(Step(c, s, a).login)
  {
    match a
    case Tick(ms) => LoginIdsValid(c.login, s.login, Login.Tick(ms));
    case LoginStep(b) => LoginIdsValid(c.login, s.login, b);
    case OpenSession(h, token) => LoginIdsValid(c.login, s.login, Login.Open(h));
    case _ => OthersKeepLogin(c, s, a);
  }

  /** Only request r has moved, and only its call may be new. */
  lemma MovedCallsStarted(s: State, s': State, r: nat)
    requires CallsStarted(s)
    requires forall q :: q in s'.status.calls && q != r ==> q in s.status.calls
    requires forall q :: q in s.requests && q != r ==> q in s'.requests && s'.requests[q] == s.requests[q]
    requires r in s'.status.calls ==> r in s'.requests && !s'.requests[r].Looking? && !s'.requests[r].Found?
    ensures CallsStarted(s')
  {
  }

  lemma StatusKeepsCalls(c: StatusCache.Config, s: StatusCache.State, a: StatusCache.Action)
    requires !a.Ask?
    ensures StatusCache.Step(c, s, a).calls.Keys == s.calls.Keys
  {
  }

  lemma QuietCallsStarted(c: Config, s: State, a: Action)
    requires CallsStarted(s) && (a.Tick? || a.StatusStep? || a.LoginStep? || a.OpenSession? || a.Logout? || a.Sweep?)
    ensures CallsStarted(Step(c, s, a))
  {
    if a.StatusStep? && !a.status.Ask? { StatusKeepsCalls(c.status, s.status, a.status); }
    hide StatusCache.Step, Login.Step, Arrived, Looked, Asked, Known, TokenMade, TokenDropped;
    if a.Tick? { StatusKeepsCalls(c.status, s.status, StatusCache.Tick(a.ms)); }
    var s' := Step(c, s, a);
    assert s'.requests == s.requests && s'.status.calls.Keys == s.status.calls.Keys;
  }

  lemma StepCallsStarted(c: Config, s: State, a: Action)
    requires CallsStarted(s)
    ensures CallsStarted(Step(c, s, a))
  {
    hide WithLogin, WithStatus, Opened, LoggedOut, Arrived, Looked, Asked, Known, TokenMade, TokenDropped, CallsStarted;
    match a
    case VerifyArrives(r, cookie, header) => ArrivedCallsStarted(s, r, Check, cookie, header);
    case LookToken(r) => LookedCallsStarted(s, r);
    case FormArrives(r, purpose, cookie) => ArrivedCallsStarted(s, r, purpose, cookie, "");
    case AskStatus(r) => AskedCallsStarted(c, s, r);
    case StatusKnown(r) => KnownCallsStarted(s, r);
    case CreateToken(r, token, tokenId, labelText) => FormCallsStarted(c, s, r, token, tokenId, labelText);
    case RevokeToken(r, tokenId) => FormCallsStarted(c, s, r, "", tokenId, "");
    case _ => QuietCallsStarted(c, s, a);
  }

  lemma ArrivedCallsStarted(s: State, r: nat, purpose: Purpose, cookie: string, header: string)
    requires CallsStarted(s)
    ensures CallsStarted(Arrived(s, r, purpose, cookie, header))
  {
    MovedCallsStarted(s, Arrived(s, r, purpose, cookie, header), r);
  }

  lemma LookedCallsStarted(s: State, r: nat)
    requires CallsStarted(s)
    ensures CallsStarted(Looked(s, r))
  {
    MovedCallsStarted(s, Looked(s, r), r);
  }

  lemma AskedCallsStarted(c: Config, s: State, r: nat)
    requires CallsStarted(s)
    ensures CallsStarted(Asked(c, s, r))
  {
    MovedCallsStarted(s, Asked(c, s, r), r);
  }

  lemma KnownCallsStarted(s: State, r: nat)
    requires CallsStarted(s)
    ensures CallsStarted(Known(s, r))
  {
    hide Known;
    KnownMoves(s, r);
    MovedCallsStarted(s, Known(s, r), r);
  }

  lemma FormCallsStarted(c: Config, s: State, r: nat, token: string, tokenId: string, labelText: string)
    requires CallsStarted(s)
    ensures CallsStarted(TokenMade(c, s, r, token, tokenId, labelText)) && CallsStarted(TokenDropped(s, r, tokenId))
  {
    MovedCallsStarted(s, TokenMade(c, s, r, token, tokenId, labelText), r);
    MovedCallsStarted(s, TokenDropped(s, r, tokenId), r);
  }

  lemma {:induction false} RunStarted(c: Config, acts: seq<Action>)
    ensures CallsStarted(Run(c, acts)) && IdsValid(Run(c, acts).login)
  {
    if acts != [] {
      hide Step;
      RunStarted(c, acts[..|acts| - 1]);
      StepCallsStarted(c, Run(c, acts[..|acts| - 1]), acts[|acts| - 1]);
      StepIdsValid(c, Run(c, acts[..|acts| - 1]), acts[|acts| - 1]);
    }
  }

  // ---- Grants still to come -------------------------------------------------------------------

  predicate Stored(s: State, cred: Credential) {
    match cred
    case Cookie(h) => h in s.sessions
    case DeviceToken(h) => h in s.store.tokens
  }

  /** The value of the credential is drawn again. */
  predicate Reissues(a: Action, cred: Credential) {
    match cred
    case Cookie(h) => a.OpenSession? && Sha256(a.token) == h
    case DeviceToken(h) => a.CreateToken? && Sha256(a.token) == h
  }

  predicate NeverReissued(acts: seq<Action>, cred: Credential) {
    forall i :: 0 <= i < |acts| ==> !Reissues(acts[i], cred)
  }

  /** Whatever happens from here on, no 200 is added for the credential. */
  ghost predicate NoMoreGrants(c: Config, s: State, cred: Credential) {
    forall acts, i: nat :: NeverReissued(acts, cred) && |s.grants| <= i < |From(c, s, acts).grants| ==>
      From(c, s, acts).grants[i].cred != cred
  }

  /** The call can still be told yes. */
  predicate CallOpen(c: StatusCache.Config, s: StatusCache.State, q: nat) {
    q in s.calls &&
    match s.calls[q]
    case Sent(_) => true
    case Seen(_, active, at) => active && s.now <= at + c.delay
    case Answered(_, yes, at) => yes && s.now <= at
    case Failed(_, _) => false
  }

  /** A GET /verify that has found the credential already and can still be answered with 200. */
  predicate Pending(c: Config, s: State, r: nat, cred: Credential) {
    r in s.requests && HasCredential(s.requests[r]) && s.requests[r].cred == cred && s.requests[r].purpose.Check? &&
    (s.requests[r].Found? || (s.requests[r].Waiting? && CallOpen(c.status, s.status, r)))
  }

  ghost predicate NonePending(c: Config, s: State, cred: Credential) {
    forall r :: !Pending(c, s, r, cred)
  }

  // ---- Without a pending request there are none ---------------------------------------------------

  ghost predicate Over(c: Config, s: State, cred: Credential) {
    s.login.now == s.status.now && !Stored(s, cred) && NonePending(c, s, cred)
  }

  /** The credential is still over, and no 200 was added for it. */
  ghost predicate StillOver(c: Config, s: State, s': State, cred: Credential) {
    Over(c, s', cred) && s.grants <= s'.grants && forall i :: |s.grants| <= i < |s'.grants| ==> s'.grants[i].cred != cred
  }

  lemma CallStaysShut(c: StatusCache.Config, s: StatusCache.State, a: StatusCache.Action, q: nat)
    requires !CallOpen(c, s, q) && !(a.Ask? && a.q == q)
    ensures !CallOpen(c, StatusCache.Step(c, s, a), q)
  {
  }

  lemma StatusStaysOver(c: Config, s: State, a: StatusCache.Action, cred: Credential)
    requires Over(c, s, cred) && !a.Ask? && !a.Tick?
    ensures StillOver(c, s, WithStatus(c, s, a), cred)
  {
    forall r ensures !Pending(c, WithStatus(c, s, a), r, cred) {
      assert !Pending(c, s, r, cred);
      if !CallOpen(c.status, s.status, r) { CallStaysShut(c.status, s.status, a, r); }
    }
  }

  lemma TickStaysOver(c: Config, s: State, ms: nat, cred: Credential)
    requires Over(c, s, cred)
    ensures StillOver(c, s, Step(c, s, Tick(ms)), cred)
  {
    forall r ensures !Pending(c, Step(c, s, Tick(ms)), r, cred) {
      assert !Pending(c, s, r, cred);
      if !CallOpen(c.status, s.status, r) { CallStaysShut(c.status, s.status, StatusCache.Tick(ms), r); }
    }
  }

  /** Only request r may have moved, the calls stand, and the credential has not come back. */
  lemma MovedStaysOver(c: Config, s: State, s': State, r: nat, cred: Credential)
    requires Over(c, s, cred) && s'.login.now == s.login.now && s'.status == s.status && !Stored(s', cred)
    requires s.grants <= s'.grants && forall i :: |s.grants| <= i < |s'.grants| ==> s'.grants[i].cred != cred
    requires forall k :: k in s'.requests && k != r ==> k in s.requests && s'.requests[k] == s.requests[k]
    requires !Pending(c, s', r, cred)
    ensures StillOver(c, s, s', cred)
  {
    forall k ensures !Pending(c, s', k, cred) {
      assert !Pending(c, s, k, cred);
    }
  }

  lemma ArrivedStaysOver(c: Config, s: State, r: nat, purpose: Purpose, cookie: string, header: string, cred: Credential)
    requires Over(c, s, cred)
    ensures StillOver(c, s, Arrived(s, r, purpose, cookie, header), cred)
  {
    assert !Pending(c, s, r, cred);
    MovedStaysOver(c, s, Arrived(s, r, purpose, cookie, header), r, cred);
  }

  lemma LookedStaysOver(c: Config, s: State, r: nat, cred: Credential)
    requires Over(c, s, cred)
    ensures StillOver(c, s, Looked(s, r), cred)
  {
    assert !Pending(c, s, r, cred);
    MovedStaysOver(c, s, Looked(s, r), r, cred);
  }

  lemma AskedStaysOver(c: Config, s: State, r: nat, cred: Credential)
    requires Over(c, s, cred)
    ensures StillOver(c, s, Asked(c, s, r), cred)
  {
    var s' := Asked(c, s, r);
    if s' != s {
      forall k ensures !Pending(c, s', k, cred) {
        assert !Pending(c, s, k, cred);
        if k != r && !CallOpen(c.status, s.status, k) {
          CallStaysShut(c.status, s.status, StatusCache.Ask(r, s.requests[r].id), k);
        }
      }
    }
  }

  lemma KnownMoves(s: State, r: nat)
    ensures var s' := Known(s, r);
            s'.login == s.login && s'.status == s.status && s'.sessions == s.sessions &&
            s'.store.tokens.Keys == s.store.tokens.Keys &&
            (s' == s || (r in s'.requests && s'.requests == s.requests[r := s'.requests[r]] &&
                         (s'.requests[r].Closed? || s'.requests[r].Ready?)))
    ensures var s' := Known(s, r);
            s'.grants == s.grants ||
            (r in s.requests && s.requests[r].Waiting? && s.requests[r].purpose.Check? && r in s.status.calls &&
             StatusCache.SaysYes(s.status.calls[r]) && s.status.calls[r].at == s.login.now &&
             s'.grants == s.grants + [Grant(s.requests[r].cred, s.requests[r].id, s.requests[r].at, s.login.now)])
  {
  }

  lemma KnownStaysOver(c: Config, s: State, r: nat, cred: Credential)
    requires Over(c, s, cred)
    ensures StillOver(c, s, Known(s, r), cred)
  {
    hide Known;
    KnownMoves(s, r);
    assert !Pending(c, s, r, cred);
    MovedStaysOver(c, s, Known(s, r), r, cred);
  }

  lemma TokenMadeStaysOver(c: Config, s: State, a: Action, cred: Credential)
    requires Over(c, s, cred) && a.CreateToken? && !Reissues(a, cred)
    ensures StillOver(c, s, Step(c, s, a), cred)
  {
    assert !Pending(c, s, a.r, cred);
    MovedStaysOver(c, s, Step(c, s, a), a.r, cred);
  }

  lemma TokenDroppedStaysOver(c: Config, s: State, r: nat, tokenId: string, cred: Credential)
    requires Over(c, s, cred)
    ensures StillOver(c, s, TokenDropped(s, r, tokenId), cred)
  {
    assert !Pending(c, s, r, cred);
    MovedStaysOver(c, s, TokenDropped(s, r, tokenId), r, cred);
  }

  /** Logins, logouts and the sweep move no request. */
  lemma OthersMoveNothing(c: Config, s: State, a: Action, cred: Credential)
    requires a.LoginStep? || a.OpenSession? || a.Logout? || a.Sweep?
    ensures var s' := Step(c, s, a);
            s'.requests == s.requests && s'.status == s.status && s'.grants == s.grants && s'.login.now == s.login.now &&
            (!Stored(s, cred) && !Reissues(a, cred) ==> !Stored(s', cred))
  {
    if a.LoginStep? { LoginGrows(c.login, s.login, a.login); }
    if a.OpenSession? { LoginGrows(c.login, s.login, Login.Open(a.h)); }
    hide Login.Step, StatusCache.Step, Arrived, Looked, Asked, Known, TokenMade, TokenDropped;
  }

  lemma OthersStayOver(c: Config, s: State, a: Action, cred: Credential)
    requires Over(c, s, cred) && !Reissues(a, cred)
    requires a.LoginStep? || a.OpenSession? || a.Logout? || a.Sweep?
    ensures StillOver(c, s, Step(c, s, a), cred)
  {
    hide Step;
    OthersMoveNothing(c, s, a, cred);
    assert !Pending(c, s, 0, cred);
    MovedStaysOver(c, s, Step(c, s, a), 0, cred);
  }

  lemma StepStaysOver(c: Config, s: State, a: Action, cred: Credential)
    requires Over(c, s, cred) && !Reissues(a, cred)
    ensures StillOver(c, s, Step(c, s, a), cred)
  {
    hide Over, StillOver, WithLogin, WithStatus, Opened, LoggedOut, Arrived, Looked, Asked, Known, TokenMade, TokenDropped;
    match a
    case Tick(ms) => TickStaysOver(c, s, ms, cred);
    case StatusStep(b) =>
      if b.Tick? || b.Ask? { StandsOver(c, s, cred); } else { StatusStaysOver(c, s, b, cred); }
    case VerifyArrives(r, cookie, header) => ArrivedStaysOver(c, s, r, Check, cookie, header, cred);
    case LookToken(r) => LookedStaysOver(c, s, r, cred);
    case FormArrives(r, purpose, cookie) =>
      if purpose.Check? { StandsOver(c, s, cred); } else { ArrivedStaysOver(c, s, r, purpose, cookie, "", cred); }
    case AskStatus(r) => AskedStaysOver(c, s, r, cred);
    case StatusKnown(r) => KnownStaysOver(c, s, r, cred);
    case CreateToken(r, _, _, _) => TokenMadeStaysOver(c, s, a, cred);
    case RevokeToken(r, tokenId) => TokenDroppedStaysOver(c, s, r, tokenId, cred);
    case _ => OthersStayOver(c, s, a, cred);
  }

  lemma StandsOver(c: Config, s: State, cred: Credential)
    requires Over(c, s, cred)
    ensures StillOver(c, s, s, cred)
  {
  }

  lemma {:induction false} FromStaysOver(c: Config, s: State, acts: seq<Action>, cred: Credential)
    requires Over(c, s, cred) && NeverReissued(acts, cred)
    ensures StillOver(c, s, From(c, s, acts), cred)
  {
    hide Step, Over;
    if acts == [] {
    } else {
      var front := acts[..|acts| - 1];
      FromStaysOver(c, s, front, cred);
      StepStaysOver(c, From(c, s, front), acts[|acts| - 1], cred);
    }
  }

  // ---- With one there is one more --------------------------------------------------------------------

  /** In some continuation the credential earns a 200. */
  ghost predicate GrantedAfter(c: Config, s: State, acts: seq<Action>, cred: Credential) {
    NeverReissued(acts, cred) && |s.grants| < |From(c, s, acts).grants| && From(c, s, acts).grants[|s.grants|].cred == cred
  }

  lemma GrantedLater(c: Config, s: State, s1: State, first: seq<Action>, second: seq<Action>, cred: Credential)
    requires s1 == From(c, s, first) && s1.grants == s.grants && NeverReissued(first, cred) && GrantedAfter(c, s1, second, cred)
    ensures GrantedAfter(c, s, first + second, cred)
  {
    hide Step;
    FromConcat(c, s, first, second);
  }

  lemma One(c: Config, s: State, a: Action)
    ensures From(c, s, [a]) == Step(c, s, a)
  {
    hide Step;
    assert [a][..0] == [];
  }

  lemma YesGrants(c: Config, s: State, r: nat, cred: Credential)
    requires r in s.requests && s.requests[r].Waiting? && s.requests[r].purpose.Check? && s.requests[r].cred == cred
    requires r in s.status.calls && StatusCache.SaysYes(s.status.calls[r]) && s.status.calls[r].at == s.login.now
    ensures GrantedAfter(c, s, [StatusKnown(r)], cred)
  {
    One(c, s, StatusKnown(r));
  }

  lemma AnswerGrants(c: Config, s: State, r: nat, cred: Credential)
    requires r in s.requests && s.requests[r].Waiting? && s.requests[r].purpose.Check? && s.requests[r].cred == cred
    requires r in s.status.calls && StatusCache.SaysYes(s.status.calls[r]) && s.login.now == s.status.now <= s.status.calls[r].at
    ensures GrantedAfter(c, s, [Tick(s.status.calls[r].at - s.login.now)] + [StatusKnown(r)], cred)
  {
    var tick := Tick(s.status.calls[r].at - s.login.now);
    One(c, s, tick);
    YesGrants(c, Step(c, s, tick), r, cred);
    GrantedLater(c, s, Step(c, s, tick), [tick], [StatusKnown(r)], cred);
  }

  lemma ReplyGrants(c: Config, s: State, r: nat, cred: Credential)
    requires r in s.requests && s.requests[r].Waiting? && s.requests[r].purpose.Check? && s.requests[r].cred == cred
    requires r in s.status.calls && s.status.calls[r].Seen? && s.status.calls[r].active
    requires s.login.now == s.status.now <= s.status.calls[r].at + c.status.delay
    ensures GrantedAfter(c, s, [StatusStep(StatusCache.Reply(r))] + [StatusKnown(r)], cred)
  {
    var reply := StatusStep(StatusCache.Reply(r));
    One(c, s, reply);
    YesGrants(c, Step(c, s, reply), r, cred);
    GrantedLater(c, s, Step(c, s, reply), [reply], [StatusKnown(r)], cred);
  }

  /** The device is (still, or again) active when the verifier looks. */
  lemma LookGrants(c: Config, s: State, r: nat, cred: Credential) returns (acts: seq<Action>)
    requires r in s.requests && s.requests[r].Waiting? && s.requests[r].purpose.Check? && s.requests[r].cred == cred
    requires r in s.status.calls && s.status.calls[r].Sent? && s.login.now == s.status.now
    ensures GrantedAfter(c, s, acts, cred)
  {
    var on, look := StatusStep(StatusCache.SetStatus(s.status.calls[r].id, true)), StatusStep(StatusCache.Look(r));
    Two(c, s, on, look);
    var s2 := Step(c, Step(c, s, on), look);
    assert s2.requests == s.requests && s2.grants == s.grants && s2.login == s.login && s2.status.now == s.status.now;
    assert s2.status.calls[r] == StatusCache.Seen(s.status.calls[r].id, true, s.status.now);
    acts := [StatusStep(StatusCache.Reply(r))] + [StatusKnown(r)];
    ReplyGrants(c, s2, r, cred);
    GrantedLater(c, s, s2, [on, look], acts, cred);
    acts := [on, look] + acts;
  }

  function EntryEnd(cache: map<string, StatusCache.Entry>, id: string): nat {
    if id in cache then cache[id].until else 0
  }

  lemma AskedAfterExpiry(c: Config, s: State, r: nat)
    requires r in s.requests && s.requests[r].Found? && r !in s.status.calls && Ids.IsValidId(s.requests[r].id)
    requires s.login.now == s.status.now
    ensures var s1 := Step(c, s, Tick(EntryEnd(s.status.cache, s.requests[r].id)));
            var s2 := Step(c, s1, AskStatus(r));
            var Found(purpose, cred, id, at) := s.requests[r];
            s2.grants == s.grants && s2.login.now == s2.status.now &&
            s2.status.calls == s.status.calls[r := StatusCache.Sent(id)] &&
            s2.requests == s.requests[r := Waiting(purpose, cred, id, at)]
  {
    var id := s.requests[r].id;
    var s1 := Step(c, s, Tick(EntryEnd(s.status.cache, id)));
    assert s1.requests == s.requests && s1.grants == s.grants && s1.login.now == s1.status.now &&
           s1.status == s.status.(now := s1.status.now);
    assert StatusCache.Hit(s1.status.cache, id, s1.status.now) == None;
    hide Step, StatusCache.Step, Ids.IsValidId, StatusCache.Hit, EntryEnd;
    AskMisses(c, s1, r);
  }

  lemma AskMisses(c: Config, s: State, r: nat)
    requires r in s.requests && s.requests[r].Found? && r !in s.status.calls && Ids.IsValidId(s.requests[r].id)
    requires StatusCache.Hit(s.status.cache, s.requests[r].id, s.status.now) == None
    ensures var s' := Step(c, s, AskStatus(r));
            var Found(purpose, cred, id, at) := s.requests[r];
            s'.grants == s.grants && s'.login == s.login && s'.status.now == s.status.now &&
            s'.status.calls == s.status.calls[r := StatusCache.Sent(id)] &&
            s'.requests == s.requests[r := Waiting(purpose, cred, id, at)]
  {
    hide Ids.IsValidId;
  }

  /** Once the cached answer has expired the verifier is asked. */
  lemma AskGrants(c: Config, s: State, r: nat, cred: Credential) returns (acts: seq<Action>)
    requires r in s.requests && s.requests[r].Found? && s.requests[r].purpose.Check? && s.requests[r].cred == cred
    requires r !in s.status.calls && s.login.now == s.status.now && Ids.IsValidId(s.requests[r].id)
    ensures GrantedAfter(c, s, acts, cred)
  {
    hide Step, EntryEnd, GrantedAfter;
    var tick, ask := Tick(EntryEnd(s.status.cache, s.requests[r].id)), AskStatus(r);
    Two(c, s, tick, ask);
    AskedAfterExpiry(c, s, r);
    var s2 := Step(c, Step(c, s, tick), ask);
    acts := LookGrants(c, s2, r, cred);
    assert NeverReissued([tick, ask], cred);
    GrantedLater(c, s, s2, [tick, ask], acts, cred);
    acts := [tick, ask] + acts;
  }

  lemma FoundIdValid(c: Config, s: State, r: nat)
    requires Inv(c, s) && IdsValid(s.login) && r in s.requests && s.requests[r].Found?
    ensures Ids.IsValidId(s.requests[r].id)
  {
    assert Backed(c, s, r, s.requests[r]);
  }

  lemma PendingGrants(c: Config, s: State, r: nat, cred: Credential) returns (acts: seq<Action>)
    requires Inv(c, s) && CallsStarted(s) && IdsValid(s.login) && Pending(c, s, r, cred)
    ensures GrantedAfter(c, s, acts, cred)
  {
    hide GrantedAfter;
    if s.requests[r].Found? {
      FoundIdValid(c, s, r);
      acts := AskGrants(c, s, r, cred);
    } else {
      match s.status.calls[r]
      case Sent(_) => acts := LookGrants(c, s, r, cred);
      case Seen(_, _, _) =>
        ReplyGrants(c, s, r, cred);
        acts := [StatusStep(StatusCache.Reply(r))] + [StatusKnown(r)];
      case Answered(_, _, at) =>
        AnswerGrants(c, s, r, cred);
        acts := [Tick(at - s.login.now)] + [StatusKnown(r)];
    }
  }

  // ---- Logout and revocation --------------------------------------------------------------------------

  /** A credential that is not stored earns another 200 in some continuation exactly when a request holds it already. */
  lemma GrantsEndExactly(c: Config, acts: seq<Action>, cred: Credential)
    requires !Stored(Run(c, acts), cred)
    ensures NoMoreGrants(c, Run(c, acts), cred) <==> NonePending(c, Run(c, acts), cred)
  {
    var s := Run(c, acts);
    RunInv(c, acts);
    RunStarted(c, acts);
    hide Run, From;
    if NonePending(c, s, cred) {
      forall after, i: nat | NeverReissued(after, cred) && |s.grants| <= i < |From(c, s, after).grants|
        ensures From(c, s, after).grants[i].cred != cred
      {
        FromStaysOver(c, s, after, cred);
      }
    } else {
      var r :| Pending(c, s, r, cred);
      var after := PendingGrants(c, s, r, cred);
      assert From(c, s, after).grants[|s.grants|].cred == cred;
    }
  }

  lemma RunOne(c: Config, before: seq<Action>, a: Action)
    ensures Run(c, before + [a]) == Step(c, Run(c, before), a)
  {
    hide Step;
    assert (before + [a])[..|before|] == before;
  }

  /** After a logout the cookie earns another 200, in any continuation, only through a request that had found it before. */
  lemma LogoutIsFinalExactly(c: Config, before: seq<Action>, token: string)
    requires token != ""
    ensures var s, cred := Run(c, before + [Logout(token)]), Cookie(Sha256(token));
            NoMoreGrants(c, s, cred) <==> NonePending(c, Run(c, before), cred)
  {
    var cred := Cookie(Sha256(token));
    var s0, s := Run(c, before), Run(c, before + [Logout(token)]);
    RunOne(c, before, Logout(token));
    assert !Stored(s, cred);
    GrantsEndExactly(c, before + [Logout(token)], cred);
    assert s.requests == s0.requests && s.status == s0.status;
    SamePending(c, s0, s, cred);
  }

  lemma SamePending(c: Config, s: State, s': State, cred: Credential)
    requires s'.status == s.status
    requires forall r :: Pending(c, s, r, cred) <==> Pending(c, s', r, cred)
    ensures NonePending(c, s, cred) <==> NonePending(c, s', cred)
  {
    if NonePending(c, s, cred) {
      forall r ensures !Pending(c, s', r, cred) { assert !Pending(c, s, r, cred); }
    }
    if NonePending(c, s', cred) {
      forall r ensures !Pending(c, s, r, cred) { assert !Pending(c, s', r, cred); }
    }
  }

  /** The device the token belongs to has passed its guard and sends the form that revokes it. */
  predicate OwnerRevokes(s: State, r: nat, tokenId: string, h: Digest) {
    && r in s.requests && s.requests[r].Ready? && s.requests[r].purpose.Drop?
    && tokenId in s.store.tokenIds && s.store.tokenIds[tokenId] == h
    && h in s.store.tokens && s.store.tokens[h].deviceId == s.requests[r].id
  }

  /** And likewise for a device token, once its owner has revoked it. */
  lemma RevokeIsFinalExactly(c: Config, before: seq<Action>, r: nat, tokenId: string, h: Digest)
    requires OwnerRevokes(Run(c, before), r, tokenId, h)
    ensures var s, cred := Run(c, before + [RevokeToken(r, tokenId)]), DeviceToken(h);
            NoMoreGrants(c, s, cred) <==> NonePending(c, Run(c, before), cred)
  {
    var cred := DeviceToken(h);
    var s0, s := Run(c, before), Run(c, before + [RevokeToken(r, tokenId)]);
    RunOne(c, before, RevokeToken(r, tokenId));
    assert !Stored(s, cred);
    GrantsEndExactly(c, before + [RevokeToken(r, tokenId)], cred);
    assert s.requests == s0.requests[r := Closed] && s.status == s0.status;
    SamePending(c, s0, s, cred);
  }

  // ---- Nothing else takes a credential away --------------------------------------------------------------

  /** The device a stored credential belongs to, and when it expires. */
  function Holder(s: State, cred: Credential): Option<(string, nat)> {
    match cred
    case Cookie(h) => if h in s.sessions then Some((s.sessions[h].deviceId, s.sessions[h].expiresAt)) else None
    case DeviceToken(h) => if h in s.store.tokens then Some((s.store.tokens[h].deviceId, s.store.tokens[h].expiresAt)) else None
  }

  /** A logout with this very cookie, or a revoke of this very token by a request of its own device. */
  predicate Withdraws(s: State, a: Action, cred: Credential) {
    match cred
    case Cookie(h) => a.Logout? && Sha256(a.token) == h
    case DeviceToken(h) => a.RevokeToken? && OwnerRevokes(s, a.r, a.tokenId, h)
  }

  lemma QuietKeepsHolder(c: Config, s: State, a: Action, cred: Credential)
    requires Holder(s, cred).Some? && Accounted(s) && (a.Tick? || a.LoginStep? || a.StatusStep? || a.AskStatus? || a.OpenSession?)
    ensures Holder(Step(c, s, a), cred) == Holder(s, cred)
  {
    hide Login.Step, StatusCache.Step, Arrived, Looked, Known, TokenMade, TokenDropped;
  }

  lemma ArrivedKeepsHolder(s: State, r: nat, purpose: Purpose, cookie: string, header: string, cred: Credential)
    requires Holder(s, cred).Some? && s.login.now < Holder(s, cred).value.1
    ensures Holder(Arrived(s, r, purpose, cookie, header), cred) == Holder(s, cred)
  {
  }

  lemma KnownKeepsHolder(s: State, r: nat, cred: Credential)
    requires Holder(s, cred).Some?
    ensures Holder(Known(s, r), cred) == Holder(s, cred)
  {
  }

  lemma MadeKeepsHolder(c: Config, s: State, r: nat, token: string, tokenId: string, labelText: string, cred: Credential)
    requires Holder(s, cred).Some? && Accounted(s)
    ensures Holder(TokenMade(c, s, r, token, tokenId, labelText), cred) == Holder(s, cred)
  {
  }

  lemma DroppedKeepsHolder(s: State, r: nat, tokenId: string, cred: Credential)
    requires Holder(s, cred).Some? && !Withdraws(s, RevokeToken(r, tokenId), cred)
    ensures Holder(TokenDropped(s, r, tokenId), cred) == Holder(s, cred)
  {
  }

  lemma RemovalKeepsHolder(c: Config, s: State, a: Action, cred: Credential)
    requires Holder(s, cred).Some? && !Withdraws(s, a, cred) && s.login.now < Holder(s, cred).value.1
    requires a.Logout? || a.Sweep?
    ensures Holder(Step(c, s, a), cred) == Holder(s, cred)
  {
  }

  lemma StepKeepsHolder(c: Config, s: State, a: Action, cred: Credential)
    requires Accounted(s) && Holder(s, cred).Some? && !Withdraws(s, a, cred)
    requires s.login.now < Holder(s, cred).value.1
    ensures Holder(Step(c, s, a), cred) == Holder(s, cred)
  {
    if a.Logout? || a.Sweep? {
      RemovalKeepsHolder(c, s, a, cred);
    }
    hide WithLogin, WithStatus, Opened, LoggedOut, Arrived, Asked, Known, TokenMade, TokenDropped, Accounted, Withdraws;
    match a
    case VerifyArrives(r, cookie, header) => ArrivedKeepsHolder(s, r, Check, cookie, header, cred);
    case FormArrives(r, purpose, cookie) => ArrivedKeepsHolder(s, r, purpose, cookie, "", cred);
    case StatusKnown(r) => KnownKeepsHolder(s, r, cred);
    case CreateToken(r, token, tokenId, labelText) => MadeKeepsHolder(c, s, r, token, tokenId, labelText, cred);
    case RevokeToken(r, tokenId) => DroppedKeepsHolder(s, r, tokenId, cred);
    case LookToken(_) =>
    case Logout(_) =>
    case Sweep =>
    case _ => QuietKeepsHolder(c, s, a, cred);
  }

  lemma TimePasses(c: Config, s: State, a: Action)
    ensures s.login.now <= Step(c, s, a).login.now
  {
    match a
    case LoginStep(b) => LoginGrows(c.login, s.login, b);
    case OpenSession(h, _) => LoginGrows(c.login, s.login, Login.Open(h));
    case Tick(_) =>
    case _ => OthersKeepLogin(c, s, a);
  }

  /** At no point of `after` is the credential withdrawn. */
  ghost predicate LeftAlone(c: Config, before: seq<Action>, after: seq<Action>, cred: Credential) {
    forall i :: 0 <= i < |after| ==> !Withdraws(Run(c, before + after[..i]), after[i], cred)
  }

  lemma LeftAloneFront(c: Config, before: seq<Action>, after: seq<Action>, cred: Credential)
    requires LeftAlone(c, before, after, cred) && after != []
    ensures LeftAlone(c, before, after[..|after| - 1], cred)
    ensures !Withdraws(Run(c, before + after[..|after| - 1]), after[|after| - 1], cred)
  {
    hide Withdraws, Run;
    var front := after[..|after| - 1];
    forall i | 0 <= i < |front| ensures !Withdraws(Run(c, before + front[..i]), front[i], cred) {
      assert front[..i] == after[..i] && front[i] == after[i];
    }
  }

  /** A credential stays what it was until it expires, is logged out, or is revoked by its own device. */
  lemma {:induction false} CredentialLasts(c: Config, before: seq<Action>, after: seq<Action>, cred: Credential)
    requires Holder(Run(c, before), cred).Some? && LeftAlone(c, before, after, cred)
    requires Run(c, before + after).login.now < Holder(Run(c, before), cred).value.1
    ensures Holder(Run(c, before + after), cred) == Holder(Run(c, before), cred)
    decreases |after|
  {
    if after == [] {
      assert before + after == before;
    } else {
      var front := after[..|after| - 1];
      LeftAloneFront(c, before, after, cred);
      RunLast(c, before, after);
      var s := Run(c, before + front);
      RunInv(c, before + front);
      InvAccounted(c, s);
      hide Step, Inv, Accounted, Run, Holder, Withdraws;
      TimePasses(c, s, after[|after| - 1]);
      CredentialLasts(c, before, front, cred);
      StepKeepsHolder(c, s, after[|after| - 1], cred);
    }
  }

  // ---- And nothing else adds one ---------------------------------------------------------------------------

  /** A granted login, or a guarded request to mint of this device. */
  predicate Issues(s: State, a: Action, cred: Credential, id: string) {
    match cred
    case Cookie(h) =>
      a.OpenSession? && Sha256(a.token) == h && a.h in s.login.handlers && s.login.handlers[a.h].Granted? &&
      s.login.handlers[a.h].claim < |s.login.claims| && s.login.claims[s.login.handlers[a.h].claim].id == id
    case DeviceToken(h) =>
      a.CreateToken? && Sha256(a.token) == h && a.r in s.requests && s.requests[a.r].Ready? &&
      s.requests[a.r].purpose.Mint? && s.requests[a.r].id == id
  }

  lemma FormIssues(c: Config, s: State, a: Action, cred: Credential)
    requires Holder(s, cred).None? && (a.CreateToken? || a.RevokeToken? || a.StatusKnown?)
    ensures var after := Holder(Step(c, s, a), cred); after.Some? ==> Issues(s, a, cred, after.value.0)
  {
    if a.StatusKnown? { KnownMoves(s, a.r); }
    hide Known;
  }

  lemma OthersIssue(c: Config, s: State, a: Action, cred: Credential)
    requires Holder(s, cred).None? && !a.CreateToken? && !a.RevokeToken? && !a.StatusKnown?
    ensures var after := Holder(Step(c, s, a), cred); after.Some? ==> Issues(s, a, cred, after.value.0)
  {
    hide Login.Step, StatusCache.Step, Known, TokenMade, TokenDropped;
  }

  /** A credential comes into being only through a login that was granted to its device or a token that its device minted. */
  lemma OnlyIssued(c: Config, s: State, a: Action, cred: Credential)
    requires Holder(s, cred).None?
    ensures var after := Holder(Step(c, s, a), cred); after.Some? ==> Issues(s, a, cred, after.value.0)
  {
    hide Step, Holder, Issues;
    if a.CreateToken? || a.RevokeToken? || a.StatusKnown? {
      FormIssues(c, s, a, cred);
    } else {
      OthersIssue(c, s, a, cred);
    }
  }

  // ---- So what was issued serves --------------------------------------------------------------------------

  lemma SessionIssued(c: Config, s: State, h: nat, token: string)
    requires h in s.login.handlers && s.login.handlers[h].Granted? && s.login.handlers[h].claim < |s.login.claims|
    requires CookieShaped(token) && Unused(s, Sha256(token))
    ensures Holder(Step(c, s, OpenSession(h, token)), Cookie(Sha256(token))) ==
            Some((s.login.claims[s.login.handlers[h].claim].id, s.login.now + c.sessionTtlSeconds * 1000))
  {
    hide Login.Step;
  }

  /** A session opened for a granted claim is what /verify goes by until it expires or is logged out. */
  lemma NewSessionServes(c: Config, before: seq<Action>, h: nat, token: string, after: seq<Action>, header: string)
    requires var s0 := Run(c, before);
             h in s0.login.handlers && s0.login.handlers[h].Granted? && CookieShaped(token) && Unused(s0, Sha256(token))
    requires LeftAlone(c, before + [OpenSession(h, token)], after, Cookie(Sha256(token)))
    requires Run(c, before + [OpenSession(h, token)] + after).login.now < Run(c, before).login.now + c.sessionTtlSeconds * 1000
    ensures var s0 := Run(c, before);
            s0.login.handlers[h].claim < |s0.login.claims| &&
            CredentialOf(Run(c, before + [OpenSession(h, token)] + after), token, header) ==
            Some((Cookie(Sha256(token)), s0.login.claims[s0.login.handlers[h].claim].id))
  {
    var s0, opening := Run(c, before), OpenSession(h, token);
    RunUsedOnce(c, before);
    Login.RunSessionsDistinct(c.login, Login.EMPTY_FORGETFUL, s0.trace);
    hide Step, Run, Login.Run, LeftAlone;
    RunOne(c, before, opening);
    SessionIssued(c, s0, h, token);
    CredentialLasts(c, before + [opening], after, Cookie(Sha256(token)));
  }

  /** The tokens of a device that have not expired. */
  function OwnTokens(s: State, id: string): set<Digest> {
    set k | k in s.store.tokens && s.store.tokens[k].deviceId == id && s.login.now < s.store.tokens[k].expiresAt
  }

  /** A guarded request to mint, with room for one more token. */
  predicate CanMint(c: Config, s: State, r: nat, token: string, tokenId: string) {
    && r in s.requests && s.requests[r].Ready? && s.requests[r].purpose.Mint?
    && |OwnTokens(s, s.requests[r].id)| < c.tokens.maxPerDevice
    && TokenShaped(token) && Unused(s, Sha256(token)) && tokenId !in s.store.tokenIds
  }

  lemma TokenIssued(c: Config, s: State, r: nat, token: string, tokenId: string, labelText: string)
    requires CanMint(c, s, r, token, tokenId)
    ensures Holder(Step(c, s, CreateToken(r, token, tokenId, labelText)), DeviceToken(Sha256(token))) ==
            Some((s.requests[r].id, s.login.now + c.tokens.ttlSeconds * 1000))
  {
    assert OwnTokens(s, s.requests[r].id) == Owned(s.store.tokens, s.requests[r].id, s.login.now);
  }

  /** And a token, without a session, until it expires or its device revokes it. */
  lemma NewTokenServes(c: Config, before: seq<Action>, r: nat, token: string, tokenId: string, labelText: string,
                       after: seq<Action>, cookie: string)
    requires CanMint(c, Run(c, before), r, token, tokenId)
    requires LeftAlone(c, before + [CreateToken(r, token, tokenId, labelText)], after, DeviceToken(Sha256(token)))
    requires var s := Run(c, before + [CreateToken(r, token, tokenId, labelText)] + after);
             s.login.now < Run(c, before).login.now + c.tokens.ttlSeconds * 1000 && !SessionLive(s.sessions, cookie, s.login.now)
    ensures CredentialOf(Run(c, before + [CreateToken(r, token, tokenId, labelText)] + after), cookie, token) ==
            Some((DeviceToken(Sha256(token)), Run(c, before).requests[r].id))
  {
    var s0, minting := Run(c, before), CreateToken(r, token, tokenId, labelText);
    hide Step, Run, LeftAlone;
    RunOne(c, before, minting);
    TokenIssued(c, s0, r, token, tokenId, labelText);
    CredentialLasts(c, before + [minting], after, DeviceToken(Sha256(token)));
  }
}
