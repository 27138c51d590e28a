/** Every 200 traces back to a claim, is fresh, and codes still open one session each. */
module GateSafety {
  import opened Numerals
  import opened Tokens
  import opened Gate
  import Ids
  import Limits
  import Login
  import StatusCache

  // ---- What a step that only adds history keeps ------------------------------------------

  lemma GoodLater(c: Config, s: State, s': State, cred: Credential, id: string, at: nat)
    requires Extends(s, s') && Good(c, s, cred, id, at) && at <= s.login.now
    ensures Good(c, s', cred, id, at)
  {
  }

  lemma RequestsLater(c: Config, s: State, s': State, r: nat)
    requires RequestsBacked(c, s) && Extends(s, s')
    requires forall k :: k in s'.requests && k != r ==> k in s.requests && s'.requests[k] == s.requests[k]
    requires r in s'.requests ==> Backed(c, s', r, s'.requests[r])
    ensures RequestsBacked(c, s')
  {
    forall k | k in s'.requests && k != r ensures Backed(c, s', k, s'.requests[k]) {
      var q := s.requests[k];
      assert Backed(c, s, k, q);
      if HasCredential(q) { GoodLater(c, s, s', q.cred, q.id, q.at); }
    }
  }

  lemma GrantLater(c: Config, s: State, s': State, g: Grant)
    requires GrantBacked(c, s, g) && Extends(s, s')
    ensures GrantBacked(c, s', g)
  {
    GoodLater(c, s, s', g.cred, g.id, g.foundAt);
    var e :| e in s.status.seen && e.id == g.id && e.on && e.at <= g.at <= e.at + StatusCache.Age(c.status);
    assert e in s'.status.seen;
  }

  lemma GrantsLater(c: Config, s: State, s': State)
    requires GrantsBacked(c, s) && Extends(s, s')
    requires forall i :: |s.grants| <= i < |s'.grants| ==> GrantBacked(c, s', s'.grants[i])
    requires s.grants <= s'.grants
    ensures GrantsBacked(c, s')
  {
    forall i | 0 <= i < |s.grants| ensures GrantBacked(c, s', s'.grants[i]) {
      assert s'.grants[i] == s.grants[i];
      GrantLater(c, s, s', s.grants[i]);
    }
  }

  /** Sessions and tokens only disappear. */
  ghost predicate CredentialsKept(s: State, s': State) {
    && s'.births == s.births && s'.minted == s.minted
    && (forall h :: h in s'.sessions ==> h in s.sessions && s'.sessions[h] == s.sessions[h] && h !in s'.gone)
    && (forall h :: h in s'.store.tokens ==>
         (h in s.store.tokens && h !in s'.gone &&
          s'.store.tokens[h].deviceId == s.store.tokens[h].deviceId &&
          s'.store.tokens[h].expiresAt == s.store.tokens[h].expiresAt))
    && (forall h :: h in s'.gone && h !in s.gone ==> h in s.births || h in s.minted)
  }

  /** Request r may have moved on; the others stand. */
  ghost predicate RequestsKept(s: State, s': State, r: nat) {
    forall k :: k in s'.requests && k != r ==> k in s.requests && s'.requests[k] == s.requests[k]
  }

  lemma SessionsLater(c: Config, s: State, s': State)
    requires SessionsBorn(c, s) && Extends(s, s') && CredentialsKept(s, s')
    ensures SessionsBorn(c, s')
  {
  }

  lemma TokenLater(c: Config, s: State, s': State, h: Digest)
    requires Extends(s, s') && h in s.store.tokens && TokenBacked(c, s, h) && h in s'.store.tokens && h !in s'.gone
    requires s.minted[h].guardedAt <= s.login.now
    requires s'.store.tokens[h].deviceId == s.store.tokens[h].deviceId
    requires s'.store.tokens[h].expiresAt == s.store.tokens[h].expiresAt
    ensures TokenBacked(c, s', h)
  {
  }

  lemma TokensLater(c: Config, s: State, s': State)
    requires TokensMinted(c, s) && Extends(s, s') && CredentialsKept(s, s') && Indexed(s'.store)
    ensures TokensMinted(c, s')
  {
    forall h | h in s'.store.tokens ensures TokenBacked(c, s', h) {
      TokenLater(c, s, s', h);
    }
  }

  lemma InvLater(c: Config, s: State, s': State, r: nat)
    requires Inv(c, s) && Extends(s, s') && CredentialsKept(s, s') && RequestsKept(s, s', r)
    requires StatusCache.Fresh(c.status, s'.status) && Indexed(s'.store)
    requires r in s'.requests ==> Backed(c, s', r, s'.requests[r])
    requires s.grants <= s'.grants && forall i :: |s.grants| <= i < |s'.grants| ==> GrantBacked(c, s', s'.grants[i])
    ensures Inv(c, s')
  {
    SessionsLater(c, s, s');
    TokensLater(c, s, s');
    RequestsLater(c, s, s', r);
    GrantsLater(c, s, s');
  }

  /** Steps that move no request. */
  lemma StandingInv(c: Config, s: State, s': State)
    requires Inv(c, s) && Extends(s, s') && CredentialsKept(s, s') && s'.requests == s.requests
    requires StatusCache.Fresh(c.status, s'.status) && Indexed(s'.store)
    requires s.grants <= s'.grants && forall i :: |s.grants| <= i < |s'.grants| ==> GrantBacked(c, s', s'.grants[i])
    ensures Inv(c, s')
  {
    if 0 in s.requests { RequestBackedLater(c, s, s', 0); }
    InvLater(c, s, s', 0);
  }

  /** Steps that leave sessions, tokens, requests and grants alone. */
  lemma QuietInv(c: Config, s: State, s': State)
    requires Inv(c, s) && Extends(s, s') && StatusCache.Fresh(c.status, s'.status)
    requires s' == s.(login := s'.login, status := s'.status, trace := s'.trace)
    ensures Inv(c, s')
  {
    StandingInv(c, s, s');
  }

  lemma RequestBackedLater(c: Config, s: State, s': State, r: nat)
    requires RequestsBacked(c, s) && Extends(s, s') && r in s.requests
    ensures Backed(c, s', r, s.requests[r])
  {
    var q := s.requests[r];
    assert Backed(c, s, r, q);
    if HasCredential(q) { GoodLater(c, s, s', q.cred, q.id, q.at); }
  }

  // ---- Each handler's steps ------------------------------------------------------------------

  lemma LoginGrows(c: Login.Config, s: Login.State, a: Login.Action)
    ensures var s' := Login.Step(c, s, a);
            s.claims <= s'.claims && s.now <= s'.now && (!a.Tick? ==> s'.now == s.now) &&
            forall i :: |s.claims| <= i < |s'.claims| ==> s'.claims[i].at <= s'.now
  {
  }

  lemma StatusGrows(c: StatusCache.Config, s: StatusCache.State, a: StatusCache.Action)
    ensures var s' := StatusCache.Step(c, s, a);
            s.seen <= s'.seen && (!a.Tick? ==> s'.now == s.now) &&
            forall q :: q in s.calls ==> q in s'.calls && s'.calls[q].id == s.calls[q].id
  {
  }

  lemma TickInv(c: Config, s: State, ms: nat)
    requires Inv(c, s)
    ensures Inv(c, Step(c, s, Tick(ms)))
  {
    StatusCache.StepFresh(c.status, s.status, StatusCache.Tick(ms));
    QuietInv(c, s, Step(c, s, Tick(ms)));
  }

  lemma LoginStepInv(c: Config, s: State, a: Login.Action)
    requires Inv(c, s) && !a.Tick?
    ensures Inv(c, WithLogin(c, s, a))
  {
    LoginGrows(c.login, s.login, a);
    QuietInv(c, s, WithLogin(c, s, a));
  }

  lemma StatusStepInv(c: Config, s: State, a: StatusCache.Action)
    requires Inv(c, s) && !a.Tick?
    ensures Inv(c, WithStatus(c, s, a))
  {
    StatusGrows(c.status, s.status, a);
    StatusCache.StepFresh(c.status, s.status, a);
    QuietInv(c, s, WithStatus(c, s, a));
  }

  lemma OpenedInv(c: Config, s: State, h: nat, token: string)
    requires Inv(c, s)
    ensures Inv(c, Opened(c, s, h, token))
  {
    var s' := Opened(c, s, h, token);
    if s' != s {
      LoginStepInv(c, s, Login.Open(h));
      var s1 := WithLogin(c, s, Login.Open(h));
      assert s1.login.claims == s.login.claims && Extends(s1, s');
      BornInv(c, s1, s', Sha256(token));
    }
  }

  /** A new session for a claim already made. */
  lemma BornInv(c: Config, s: State, s': State, h: Digest)
    requires Inv(c, s) && Extends(s, s') && Unused(s, h) && h in s'.births && h in s'.sessions
    requires s' == s.(sessions := s.sessions[h := s'.sessions[h]], births := s.births[h := s'.births[h]])
    requires OpenedBy(s'.login.claims, s'.births, h, s'.sessions[h].deviceId) && s'.births[h].createdAt == s.login.now
    requires s'.sessions[h].expiresAt == s'.births[h].createdAt + c.sessionTtlSeconds * 1000
    ensures Inv(c, s')
  {
    forall k | k in s'.store.tokens ensures TokenBacked(c, s', k) {
      TokenLater(c, s, s', k);
    }
    if 0 in s.requests { RequestBackedLater(c, s, s', 0); }
    RequestsLater(c, s, s', 0);
    GrantsLater(c, s, s');
  }

  /** What the invariant says of stored sessions and tokens, without what they rest on. */
  ghost predicate Accounted(s: State) {
    && s.login.now == s.status.now && Indexed(s.store) && s.births.Keys !! s.minted.Keys
    && (forall h :: h in s.sessions ==> h in s.births && h !in s.gone)
    && (forall h :: h in s.store.tokens ==> h in s.minted && h !in s.gone)
  }

  lemma InvAccounted(c: Config, s: State)
    requires Inv(c, s)
    ensures Accounted(s)
  {
    forall h | h in s.store.tokens ensures h in s.minted && h !in s.gone {
      assert TokenBacked(c, s, h);
    }
  }

  lemma LogoutKeeps(s: State, token: string)
    requires Accounted(s)
    ensures Extends(s, LoggedOut(s, token)) && CredentialsKept(s, LoggedOut(s, token))
  {
  }

  lemma LoggedOutInv(c: Config, s: State, token: string)
    requires Inv(c, s)
    ensures Inv(c, LoggedOut(s, token))
  {
    InvAccounted(c, s);
    LogoutKeeps(s, token);
    StandingInv(c, s, LoggedOut(s, token));
  }

  lemma SweepKeeps(c: Config, s: State)
    requires Accounted(s)
    ensures Extends(s, Step(c, s, Sweep)) && CredentialsKept(s, Step(c, s, Sweep))
  {
  }

  lemma SweepInv(c: Config, s: State)
    requires Inv(c, s)
    ensures Inv(c, Step(c, s, Sweep))
  {
    InvAccounted(c, s);
    SweptIndexed(s.store, s.login.now);
    SweepKeeps(c, s);
    StandingInv(c, s, Step(c, s, Sweep));
  }

  lemma ArrivedInv(c: Config, s: State, r: nat, purpose: Purpose, cookie: string, header: string)
    requires Inv(c, s)
    ensures Inv(c, Arrived(s, r, purpose, cookie, header))
  {
    if r !in s.requests {
      var t := s.login.now;
      var s1 := s.(sessions := AfterGet(s.sessions, cookie, t));
      StandingInv(c, s, s1);
      if SessionLive(s.sessions, cookie, t) {
        SessionFound(c, s1, cookie);
        MovedInv(c, s1, r, Found(purpose, Cookie(Sha256(cookie)), s.sessions[Sha256(cookie)].deviceId, t));
      } else {
        MovedInv(c, s1, r, if purpose.Check? && header != "" then Looking(header) else Closed);
      }
    }
  }

  lemma LookedInv(c: Config, s: State, r: nat)
    requires Inv(c, s)
    ensures Inv(c, Looked(s, r))
  {
    if r in s.requests && s.requests[r].Looking? {
      var header := s.requests[r].header;
      match Lookup(s.store, header, s.login.now)
      case Some(record) =>
        TokenFound(c, s, header);
        MovedInv(c, s, r, Found(Check, DeviceToken(Sha256(header)), record.deviceId, s.login.now));
      case None => MovedInv(c, s, r, Closed);
    }
  }

  lemma SessionFound(c: Config, s: State, cookie: string)
    requires Inv(c, s) && SessionLive(s.sessions, cookie, s.login.now)
    ensures Good(c, s, Cookie(Sha256(cookie)), s.sessions[Sha256(cookie)].deviceId, s.login.now)
  {
  }

  lemma TokenFound(c: Config, s: State, header: string)
    requires Inv(c, s) && Lookup(s.store, header, s.login.now).Some?
    ensures Good(c, s, DeviceToken(Sha256(header)), Lookup(s.store, header, s.login.now).value.deviceId, s.login.now)
  {
    var h := Sha256(header);
    assert h in s.store.tokens;
  }

  /** Only request r moves on. */
  lemma MovedInv(c: Config, s: State, r: nat, q: Request)
    requires Inv(c, s) && Backed(c, s, r, q)
    ensures Inv(c, s.(requests := s.requests[r := q]))
  {
    var s' := s.(requests := s.requests[r := q]);
    assert Extends(s, s');
    assert Backed(c, s', r, q);
    InvLater(c, s, s', r);
  }

  lemma AskedInv(c: Config, s: State, r: nat)
    requires Inv(c, s)
    ensures Inv(c, Asked(c, s, r))
  {
    if Asked(c, s, r) != s {
      var q := s.requests[r];
      var a := StatusCache.Ask(r, q.id);
      StatusStepInv(c, s, a);
      assert Backed(c, WithStatus(c, s, a), r, q);
      MovedInv(c, WithStatus(c, s, a), r, Waiting(q.purpose, q.cred, q.id, q.at));
    }
  }

  lemma KnownInv(c: Config, s: State, r: nat)
    requires Inv(c, s)
    ensures Inv(c, Known(s, r))
  {
    if Known(s, r) != s {
      var q := s.requests[r];
      assert Backed(c, s, r, q);
      if !StatusCache.SaysYes(s.status.calls[r]) {
        MovedInv(c, s, r, Closed);
      } else if !q.purpose.Check? {
        MovedInv(c, s, r, Ready(q.purpose, q.cred, q.id, q.at));
      } else {
        MovedInv(c, s, r, Closed);
        GrantedInv(c, s.(requests := s.requests[r := Closed]), Known(s, r));
      }
    }
  }

  /** A 200 is sent and the token that earned it is marked as used. */
  lemma GrantedInv(c: Config, s: State, s': State)
    requires Inv(c, s) && |s'.grants| == |s.grants| + 1 && GrantBacked(c, s, s'.grants[|s.grants|])
    requires s' == s.(store := s'.store, grants := s.grants + [s'.grants[|s.grants|]])
    requires s'.store == s.store || exists id :: s'.store == Touched(s.store, id, s.login.now)
    ensures Inv(c, s')
  {
    InvAccounted(c, s);
    GrantedKeeps(s, s');
    GrantLater(c, s, s', s'.grants[|s.grants|]);
    StandingInv(c, s, s');
  }

  lemma GrantedKeeps(s: State, s': State)
    requires Accounted(s) && s' == s.(store := s'.store, grants := s'.grants)
    requires s'.store == s.store || exists id :: s'.store == Touched(s.store, id, s.login.now)
    ensures Extends(s, s') && CredentialsKept(s, s') && Indexed(s'.store)
  {
  }

  lemma TokenMadeInv(c: Config, s: State, r: nat, token: string, tokenId: string, labelText: string)
    requires Inv(c, s)
    ensures Inv(c, TokenMade(c, s, r, token, tokenId, labelText))
  {
    var s' := TokenMade(c, s, r, token, tokenId, labelText);
    if s' != s {
      var q := s.requests[r];
      assert Backed(c, s, r, q);
      MovedInv(c, s, r, Closed);
      if s'.store != s.store {
        MintedInv(c, s.(requests := s.requests[r := Closed]), q, Sha256(token), NewRecord(c.tokens, tokenId, q.id, labelText, s.login.now));
      }
    }
  }

  /** A new token under a session that stood when its request was guarded. */
  lemma MintedInv(c: Config, s: State, q: Request, h: Digest, record: TokenRecord)
    requires Inv(c, s) && q.Ready? && q.cred.Cookie? && Good(c, s, q.cred, q.id, q.at) && q.at <= s.login.now
    requires Unused(s, h) && record.id !in s.store.tokenIds && record.deviceId == q.id
    requires record.expiresAt == s.login.now + c.tokens.ttlSeconds * 1000
    ensures Inv(c, WithToken(s, q, h, record))
  {
    var s' := WithToken(s, q, h, record);
    assert Extends(s, s');
    NewTokenMinted(c, s, q, h, record);
    if 0 in s.requests { RequestBackedLater(c, s, s', 0); }
    RequestsLater(c, s, s', 0);
    GrantsLater(c, s, s');
  }

  function WithToken(s: State, q: Request, h: Digest, record: TokenRecord): State
    requires HasCredential(q)
  {
    s.(store := TokenStore(s.store.tokens[h := record], s.store.tokenIds[record.id := h]),
       minted := s.minted[h := Minted(q.cred.h, q.at, s.login.now)])
  }

  lemma NewTokenIndexed(store: TokenStore, h: Digest, record: TokenRecord)
    requires Indexed(store) && h !in store.tokens && record.id !in store.tokenIds
    ensures Indexed(TokenStore(store.tokens[h := record], store.tokenIds[record.id := h]))
  {
  }

  lemma OldTokenBacked(c: Config, s: State, q: Request, h: Digest, record: TokenRecord, k: Digest)
    requires TokensMinted(c, s) && HasCredential(q) && Unused(s, h) && k in s.store.tokens
    ensures TokenBacked(c, WithToken(s, q, h, record), k)
  {
    assert TokenBacked(c, s, k);
  }

  lemma NewTokenBacked(c: Config, s: State, q: Request, h: Digest, record: TokenRecord)
    requires q.Ready? && q.cred.Cookie? && Good(c, s, q.cred, q.id, q.at) && h !in s.gone && record.deviceId == q.id
    requires record.expiresAt == s.login.now + c.tokens.ttlSeconds * 1000
    ensures TokenBacked(c, WithToken(s, q, h, record), h)
  {
  }

  lemma UnusedIsNew(c: Config, s: State, h: Digest)
    requires TokensMinted(c, s) && Unused(s, h)
    ensures h !in s.store.tokens && h !in s.gone
  {
    assert h in s.store.tokens ==> TokenBacked(c, s, h);
  }

  lemma NewTokenMinted(c: Config, s: State, q: Request, h: Digest, record: TokenRecord)
    requires TokensMinted(c, s) && q.Ready? && q.cred.Cookie? && Good(c, s, q.cred, q.id, q.at) && q.at <= s.login.now
    requires Unused(s, h) && record.id !in s.store.tokenIds && record.deviceId == q.id
    requires record.expiresAt == s.login.now + c.tokens.ttlSeconds * 1000
    ensures TokensMinted(c, WithToken(s, q, h, record))
  {
    hide Indexed, TokenBacked, Good;
    var s' := WithToken(s, q, h, record);
    UnusedIsNew(c, s, h);
    NewTokenIndexed(s.store, h, record);
    forall k | k in s'.store.tokens ensures TokenBacked(c, s', k) {
      if k == h {
        NewTokenBacked(c, s, q, h, record);
      } else {
        OldTokenBacked(c, s, q, h, record, k);
      }
    }
  }

  lemma TokenDroppedInv(c: Config, s: State, r: nat, tokenId: string)
    requires Inv(c, s)
    ensures Inv(c, TokenDropped(s, r, tokenId))
  {
    var s' := TokenDropped(s, r, tokenId);
    if s' != s {
      MovedInv(c, s, r, Closed);
      DroppedInv(c, s.(requests := s.requests[r := Closed]), s.requests[r].id, tokenId);
    }
  }

  function WithoutToken(s: State, id: string, tokenId: string): State {
    s.(store := Revoked(s.store, id, tokenId),
       gone := if Revocable(s.store, id, tokenId) then s.gone[s.store.tokenIds[tokenId] := s.login.now] else s.gone)
  }

  lemma DroppedKeeps(s: State, id: string, tokenId: string)
    requires Accounted(s)
    ensures Extends(s, WithoutToken(s, id, tokenId)) && CredentialsKept(s, WithoutToken(s, id, tokenId))
    ensures Indexed(WithoutToken(s, id, tokenId).store)
  {
  }

  lemma DroppedInv(c: Config, s: State, id: string, tokenId: string)
    requires Inv(c, s)
    ensures Inv(c, WithoutToken(s, id, tokenId))
  {
    InvAccounted(c, s);
    DroppedKeeps(s, id, tokenId);
    StandingInv(c, s, WithoutToken(s, id, tokenId));
  }

  lemma StepInv(c: Config, s: State, a: Action)
    requires Inv(c, s)
    ensures Inv(c, Step(c, s, a))
  {
    hide Inv, WithLogin, WithStatus, Opened, LoggedOut, Arrived, Looked, Asked, Known, TokenMade, TokenDropped;
    match a
    case Tick(ms) => TickInv(c, s, ms);
    case LoginStep(b) => if !b.Tick? { LoginStepInv(c, s, b); }
    case StatusStep(b) => if !b.Tick? { StatusStepInv(c, s, b); }
    case OpenSession(h, token) => OpenedInv(c, s, h, token);
    case Logout(token) => LoggedOutInv(c, s, token);
    case Sweep => SweepInv(c, s);
    case VerifyArrives(r, cookie, header) => ArrivedInv(c, s, r, Check, cookie, header);
    case LookToken(r) => LookedInv(c, s, r);
    case FormArrives(r, purpose, cookie) => ArrivedInv(c, s, r, purpose, cookie, "");
    case AskStatus(r) => AskedInv(c, s, r);
    case StatusKnown(r) => KnownInv(c, s, r);
    case CreateToken(r, token, tokenId, labelText) => TokenMadeInv(c, s, r, token, tokenId, labelText);
    case RevokeToken(r, tokenId) => TokenDroppedInv(c, s, r, tokenId);
  }

  lemma {:induction false} RunInv(c: Config, acts: seq<Action>)
    ensures Inv(c, Run(c, acts))
  {
    if acts != [] {
      RunInv(c, acts[..|acts| - 1]);
      StepInv(c, Run(c, acts[..|acts| - 1]), acts[|acts| - 1]);
    }
  }

  // ---- The guarantees ---------------------------------------------------------------------------

  /**
   Every 200 was earned by a session, or by a token minted under a session, that was opened
   for a successful claim by the same device and had not expired, been destroyed or been
   revoked when it was looked up; and the verifier saw the device active shortly before.
   */
  lemma EveryGrantIsBacked(c: Config, acts: seq<Action>, i: nat)
    requires i < |Run(c, acts).grants|
    ensures var s := Run(c, acts); GrantBacked(c, s, s.grants[i])
  {
    RunInv(c, acts);
  }

  predicate KeepsRevoked(acts: seq<Action>, id: string) {
    forall i :: 0 <= i < |acts| ==> acts[i] != StatusStep(StatusCache.SetStatus(id, true))
  }

  /** The device is inactive and was last seen active by time r. */
  ghost predicate Silent(s: StatusCache.State, id: string, r: nat) {
    id !in s.active && forall e :: e in s.seen && e.id == id && e.on ==> e.at <= r
  }

  lemma StatusSilent(c: StatusCache.Config, s: StatusCache.State, a: StatusCache.Action, id: string, r: nat)
    requires Silent(s, id, r) && a != StatusCache.SetStatus(id, true)
    ensures Silent(StatusCache.Step(c, s, a), id, r)
  {
  }

  lemma StepSilent(c: Config, s: State, a: Action, id: string, r: nat)
    requires Silent(s.status, id, r) && a != StatusStep(StatusCache.SetStatus(id, true))
    ensures Silent(Step(c, s, a).status, id, r)
  {
    match a
    case Tick(ms) => StatusSilent(c.status, s.status, StatusCache.Tick(ms), id, r);
    case StatusStep(b) => StatusSilent(c.status, s.status, b, id, r);
    case AskStatus(q) =>
      if q in s.requests && s.requests[q].Found? {
        StatusSilent(c.status, s.status, StatusCache.Ask(q, s.requests[q].id), id, r);
      }
    case _ => assert Step(c, s, a).status == s.status;
  }

  lemma SeenIsPast(c: Config, acts: seq<Action>)
    ensures forall e :: e in Run(c, acts).status.seen ==> e.at <= Run(c, acts).login.now
  {
    RunInv(c, acts);
  }

  lemma RunLast(c: Config, before: seq<Action>, after: seq<Action>)
    requires after != []
    ensures Run(c, before + after) == Step(c, Run(c, before + after[..|after| - 1]), after[|after| - 1])
  {
    hide Step;
    assert (before + after)[..|before + after| - 1] == before + after[..|after| - 1];
  }

  lemma {:induction false} NothingSeenAfter(c: Config, before: seq<Action>, after: seq<Action>, id: string)
    requires id !in Run(c, before).status.active && KeepsRevoked(after, id)
    ensures Silent(Run(c, before + after).status, id, Run(c, before).login.now)
    decreases |after|
  {
    if after == [] {
      assert before + after == before;
      SeenIsPast(c, before);
    } else {
      NothingSeenAfter(c, before, after[..|after| - 1], id);
      RunLast(c, before, after);
      StepSilent(c, Run(c, before + after[..|after| - 1]), after[|after| - 1], id, Run(c, before).login.now);
    }
  }

  /** A device revoked at r and kept revoked gets no 200 later than the status bound after r. */
  lemma RevokedDeviceIsShutOut(c: Config, before: seq<Action>, after: seq<Action>, id: string, i: nat)
    requires id !in Run(c, before).status.active && KeepsRevoked(after, id)
    requires var s := Run(c, before + after); i < |s.grants| && s.grants[i].id == id
    ensures Run(c, before + after).grants[i].at <= Run(c, before).login.now + StatusCache.Age(c.status)
  {
    var s := Run(c, before + after);
    RunInv(c, before + after);
    NothingSeenAfter(c, before, after, id);
    var g := s.grants[i];
    assert GrantBacked(c, s, g);
    var e :| e in s.status.seen && e.id == id && e.on && e.at <= g.at <= e.at + StatusCache.Age(c.status);
  }

  // ---- One session per code, in the whole gate --------------------------------------------------

  /** The logins of a gate run are a run of the login protocol, and each session used up its own claim. */
  ghost predicate ClaimsUsedOnce(c: Config, s: State) {
    && s.login == Login.Run(c.login, Login.Start(Login.EMPTY_FORGETFUL), s.trace)
    && (forall h :: h in s.births ==> s.births[h].claim in s.login.sessions)
    && (forall h, k :: h in s.births && k in s.births && h != k ==> s.births[h].claim != s.births[k].claim)
  }

  lemma WithLoginUsedOnce(c: Config, s: State, a: Login.Action)
    requires ClaimsUsedOnce(c, s)
    ensures ClaimsUsedOnce(c, WithLogin(c, s, a))
  {
    Login.RunExtends(c.login, Login.Start(Login.EMPTY_FORGETFUL), s.trace, a);
    assert s.login.sessions <= Login.Step(c.login, s.login, a).sessions;
  }

  lemma OpenedUsedOnce(c: Config, s: State, h: nat, token: string)
    requires ClaimsUsedOnce(c, s)
    ensures ClaimsUsedOnce(c, Opened(c, s, h, token))
  {
    var s' := Opened(c, s, h, token);
    if s' != s {
      WithLoginUsedOnce(c, s, Login.Open(h));
      Login.RunSessionsDistinct(c.login, Login.EMPTY_FORGETFUL, s.trace);
      assert s.login.handlers[h].claim !in s.login.sessions;
      assert s'.login.sessions == s.login.sessions + [s.login.handlers[h].claim];
    }
  }

  lemma OthersKeepLogin(c: Config, s: State, a: Action)
    requires !a.Tick? && !a.LoginStep? && !a.OpenSession?
    ensures SameLogins(s, Step(c, s, a))
  {
  }

  lemma StepUsedOnce(c: Config, s: State, a: Action)
    requires ClaimsUsedOnce(c, s)
    ensures ClaimsUsedOnce(c, Step(c, s, a))
  {
    match a
    case Tick(ms) => WithLoginUsedOnce(c, s, Login.Tick(ms));
    case LoginStep(b) => WithLoginUsedOnce(c, s, b);
    case OpenSession(h, token) => OpenedUsedOnce(c, s, h, token);
    case _ => OthersKeepLogin(c, s, a);
  }

  lemma {:induction false} RunUsedOnce(c: Config, acts: seq<Action>)
    ensures ClaimsUsedOnce(c, Run(c, acts))
  {
    if acts != [] {
      RunUsedOnce(c, acts[..|acts| - 1]);
      StepUsedOnce(c, Run(c, acts[..|acts| - 1]), acts[|acts| - 1]);
    }
  }

  /** No two sessions ever issued by the gate rest on the same device and counter. */
  lemma SessionsHaveTheirOwnCode(c: Config, acts: seq<Action>, h: Digest, k: Digest)
    requires c.login.claimDelay <= Limits.STEP_MS
    requires var s := Run(c, acts); h in s.births && k in s.births && h != k
    ensures var s := Run(c, acts);
            s.births[h].claim < |s.login.claims| && s.births[k].claim < |s.login.claims| &&
            (s.login.claims[s.births[h].claim].id, s.login.claims[s.births[h].claim].counter) !=
            (s.login.claims[s.births[k].claim].id, s.login.claims[s.births[k].claim].counter)
  {
    var s := Run(c, acts);
    RunUsedOnce(c, acts);
    Login.CodeWorksOnce(c.login, s.trace);
    var a, b := s.births[h].claim, s.births[k].claim;
    assert a in s.login.sessions && b in s.login.sessions && a != b;
    assert a < b || b < a;
  }

  // ---- What /verify decides, when nothing comes between ------------------------------------------

  /** The credential /verify goes by: the session if it is live, else the device token in the header. */
  function CredentialOf(s: State, cookie: string, header: string): Option<(Credential, string)> {
    if SessionLive(s.sessions, cookie, s.login.now)
    then Some((Cookie(Sha256(cookie)), s.sessions[Sha256(cookie)].deviceId))
    else
      match Lookup(s.store, header, s.login.now)
      case Some(record) => Some((DeviceToken(Sha256(header)), record.deviceId))
      case None => None
  }

  /** What isActive says: the cached answer while it lasts, else what the verifier sees. */
  predicate SaysActive(s: StatusCache.State, id: string) {
    match StatusCache.Hit(s.cache, id, s.now)
    case Some(yes) => yes
    case None => Ids.IsValidId(id) && id in s.active
  }

  function StatusAsked(c: StatusCache.Config, s: StatusCache.State, r: nat, id: string): StatusCache.State {
    StatusCache.Step(c, StatusCache.Step(c, StatusCache.Step(c, s, StatusCache.Ask(r, id)), StatusCache.Look(r)), StatusCache.Reply(r))
  }

  lemma StatusDecides(c: StatusCache.Config, s: StatusCache.State, r: nat, id: string)
    requires r !in s.calls
    ensures var s' := StatusAsked(c, s, r, id);
            s'.now == s.now && r in s'.calls && s'.calls[r] == StatusCache.Answered(id, SaysActive(s, id), s.now)
  {
  }

  /** From the question to the answer, with the verifier replying at once. */
  function Answered(c: Config, s: State, r: nat): State {
    var s1 := Step(c, s, AskStatus(r));
    var s3 := Step(c, Step(c, s1, StatusStep(StatusCache.Look(r))), StatusStep(StatusCache.Reply(r)));
    Step(c, s3, StatusKnown(r))
  }

  lemma FoundIsAsked(c: Config, s: State, r: nat, purpose: Purpose, cred: Credential, id: string)
    requires r !in s.status.calls && r in s.requests && s.requests[r] == Found(purpose, cred, id, s.login.now)
    ensures Answered(c, s, r) ==
            Known(s.(status := StatusAsked(c.status, s.status, r, id),
                     requests := s.requests[r := Waiting(purpose, cred, id, s.login.now)]), r)
  {
    hide StatusCache.Step;
  }

  lemma AnswerDecides(c: Config, s: State, r: nat, cred: Credential, id: string)
    requires s.login.now == s.status.now && r !in s.status.calls
    requires r in s.requests && s.requests[r] == Found(Check, cred, id, s.login.now)
    ensures Answered(c, s, r).grants ==
            s.grants + if SaysActive(s.status, id) then [Grant(cred, id, s.login.now, s.login.now)] else []
  {
    FoundIsAsked(c, s, r, Check, cred, id);
    StatusDecides(c.status, s.status, r, id);
    hide Answered, SaysActive, StatusAsked;
  }

  lemma ClosedStays(c: Config, s: State, r: nat)
    requires r in s.requests && s.requests[r].Closed? && r !in s.status.calls
    ensures Answered(c, s, r) == s
  {
  }

  /** Both lookups of /verify, one after the other. */
  function LookedUp(c: Config, s: State, r: nat, cookie: string, header: string): State {
    Step(c, Step(c, s, VerifyArrives(r, cookie, header)), LookToken(r))
  }

  lemma SessionLooked(c: Config, s: State, r: nat, cookie: string, header: string)
    requires r !in s.requests
    ensures var s' := Step(c, s, VerifyArrives(r, cookie, header));
            s'.login.now == s.login.now && s'.status == s.status && s'.grants == s.grants && s'.store == s.store &&
            r in s'.requests &&
            s'.requests[r] == if SessionLive(s.sessions, cookie, s.login.now)
                              then Found(Check, Cookie(Sha256(cookie)), s.sessions[Sha256(cookie)].deviceId, s.login.now)
                              else if header != "" then Looking(header) else Closed
  {
  }

  lemma TokenLookedUp(c: Config, s: State, r: nat)
    requires r in s.requests
    ensures var s' := Step(c, s, LookToken(r));
            s'.login.now == s.login.now && s'.status == s.status && s'.grants == s.grants && r in s'.requests &&
            s'.requests[r] == if !s.requests[r].Looking? then s.requests[r]
                              else match Lookup(s.store, s.requests[r].header, s.login.now)
                                case Some(record) => Found(Check, DeviceToken(Sha256(s.requests[r].header)), record.deviceId, s.login.now)
                                case None => Closed
  {
  }

  lemma ArrivalFinds(c: Config, s: State, r: nat, cookie: string, header: string)
    requires r !in s.requests
    ensures var s' := LookedUp(c, s, r, cookie, header);
            s'.login.now == s.login.now && s'.status == s.status && s'.grants == s.grants && r in s'.requests &&
            s'.requests[r] == match CredentialOf(s, cookie, header)
                              case Some((cred, id)) => Found(Check, cred, id, s.login.now)
                              case None => Closed
  {
    hide Step, SessionLive;
    SessionLooked(c, s, r, cookie, header);
    TokenLookedUp(c, Step(c, s, VerifyArrives(r, cookie, header)), r);
  }

  /** 200 exactly for a live session or, without one, a live token, of a device that counts as active. */
  lemma VerifyDecides(c: Config, s: State, r: nat, cookie: string, header: string)
    requires s.login.now == s.status.now && r !in s.requests && r !in s.status.calls
    ensures Answered(c, LookedUp(c, s, r, cookie, header), r).grants ==
            s.grants + match CredentialOf(s, cookie, header)
                       case Some((cred, id)) =>
                         if SaysActive(s.status, id) then [Grant(cred, id, s.login.now, s.login.now)] else []
                       case None => []
  {
    hide Answered, SaysActive, CredentialOf, LookedUp;
    ArrivalFinds(c, s, r, cookie, header);
    var s1 := LookedUp(c, s, r, cookie, header);
    match CredentialOf(s, cookie, header)
    case Some((cred, id)) => AnswerDecides(c, s1, r, cred, id);
    case None => ClosedStays(c, s1, r);
  }

  lemma FormAnswered(c: Config, s: State, r: nat, purpose: Purpose, cred: Credential, id: string)
    requires s.login.now == s.status.now && r !in s.status.calls && !purpose.Check?
    requires r in s.requests && s.requests[r] == Found(purpose, cred, id, s.login.now)
    ensures var s' := Answered(c, s, r);
            s'.grants == s.grants && r in s'.requests &&
            s'.requests[r] == if SaysActive(s.status, id) then Ready(purpose, cred, id, s.login.now) else Closed
  {
    FoundIsAsked(c, s, r, purpose, cred, id);
    StatusDecides(c.status, s.status, r, id);
    hide Answered, SaysActive, StatusAsked;
  }

  lemma FormFinds(c: Config, s: State, r: nat, purpose: Purpose, cookie: string)
    requires r !in s.requests && !purpose.Check?
    ensures var s' := Step(c, s, FormArrives(r, purpose, cookie));
            s'.login == s.login && s'.status == s.status && s'.grants == s.grants && r in s'.requests &&
            s'.requests[r] == if SessionLive(s.sessions, cookie, s.login.now)
                              then Found(purpose, Cookie(Sha256(cookie)), s.sessions[Sha256(cookie)].deviceId, s.login.now)
                              else Closed
  {
  }

  /** A form gets past its guard exactly with a live session of a device that counts as active; a token never does. */
  lemma FormDecides(c: Config, s: State, r: nat, purpose: Purpose, cookie: string)
    requires s.login.now == s.status.now && r !in s.requests && r !in s.status.calls && !purpose.Check?
    ensures var s' := Answered(c, Step(c, s, FormArrives(r, purpose, cookie)), r);
            s'.grants == s.grants && r in s'.requests &&
            s'.requests[r] ==
            if SessionLive(s.sessions, cookie, s.login.now) && SaysActive(s.status, s.sessions[Sha256(cookie)].deviceId)
            then Ready(purpose, Cookie(Sha256(cookie)), s.sessions[Sha256(cookie)].deviceId, s.login.now) else Closed
  {
    hide Answered, SaysActive, Step, SessionLive;
    FormFinds(c, s, r, purpose, cookie);
    var s1 := Step(c, s, FormArrives(r, purpose, cookie));
    if SessionLive(s.sessions, cookie, s.login.now) {
      FormAnswered(c, s1, r, purpose, Cookie(Sha256(cookie)), s1.requests[r].id);
    } else {
      ClosedStays(c, s1, r);
    }
  }
}
