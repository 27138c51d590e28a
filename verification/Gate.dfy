/**
 The whole gate over the in-memory store: logins, sessions, device tokens, the status cache
 and /verify. Handlers interleave between store and verifier calls, each of which is one step
 of that store. What each 200 rests on.
 */
module Gate {
  import opened Tokens
  import Login
  import StatusCache

  datatype Config = Config(login: Login.Config, status: StatusCache.Config, sessionTtlSeconds: nat, tokens: TokenConfig)

  datatype Credential = Cookie(h: Digest) | DeviceToken(h: Digest)

  /** GET /verify, POST /tokens and POST /tokens/revoke. */
  datatype Purpose = Check | Mint | Drop

  /** at is the moment the credential was found in its store; Looking has no session and a token to look up. */
  datatype Request =
    | Looking(header: string)
    | Found(purpose: Purpose, cred: Credential, id: string, at: nat)
    | Waiting(purpose: Purpose, cred: Credential, id: string, at: nat)
    | Ready(purpose: Purpose, cred: Credential, id: string, at: nat)
    | Closed

  predicate HasCredential(q: Request) {
    q.Found? || q.Waiting? || q.Ready?
  }

  /** A 200 from /verify. */
  datatype Grant = Grant(cred: Credential, id: string, foundAt: nat, at: nat)

  /** History: the claim a session was opened for, and the session a token was minted under. */
  datatype Birth = Birth(claim: nat, createdAt: nat)
  datatype Minted = Minted(session: Digest, guardedAt: nat, createdAt: nat)

  datatype State = State(login: Login.State, status: StatusCache.State,
                         sessions: map<Digest, Session>, store: TokenStore, requests: map<nat, Request>,
                         grants: seq<Grant>, births: map<Digest, Birth>, minted: map<Digest, Minted>,
                         gone: map<Digest, nat>, trace: seq<Login.Action>)

  datatype Action =
    | Tick(ms: nat)
    | LoginStep(login: Login.Action)
    | StatusStep(status: StatusCache.Action)
    | OpenSession(h: nat, token: string)
    | Logout(token: string)
    | Sweep
    | VerifyArrives(r: nat, cookie: string, header: string)
    | LookToken(r: nat)
    | FormArrives(r: nat, purpose: Purpose, cookie: string)
    | AskStatus(r: nat)
    | StatusKnown(r: nat)
    | CreateToken(r: nat, token: string, tokenId: string, labelText: string)
    | RevokeToken(r: nat, tokenId: string)

  const START := State(Login.Start(Login.EMPTY_FORGETFUL), StatusCache.START, map[], TokenStore(map[], map[]),
                       map[], [], map[], map[], map[], [])

  function WithLogin(c: Config, s: State, a: Login.Action): State {
    s.(login := Login.Step(c.login, s.login, a), trace := s.trace + [a])
  }

  function WithStatus(c: Config, s: State, a: StatusCache.Action): State {
    s.(status := StatusCache.Step(c.status, s.status, a))
  }

  predicate Unused(s: State, h: Digest) {
    h !in s.births && h !in s.minted
  }

  /** Only logins touch the login protocol and only new sessions add births. */
  predicate SameLogins(s: State, s': State) {
    s'.login == s.login && s'.trace == s.trace && s'.births == s.births
  }

  // ---- One step of each handler ------------------------------------------------------

  function Opened(c: Config, s: State, h: nat, token: string): State {
    if h in s.login.handlers && s.login.handlers[h].Granted? && CookieShaped(token) && Unused(s, Sha256(token))
    then
      var t, claim := s.login.now, s.login.handlers[h].claim;
      if claim < |s.login.claims|
      then
        WithLogin(c, s, Login.Open(h)).(
          sessions := s.sessions[Sha256(token) := Session(s.login.claims[claim].id, t, t + c.sessionTtlSeconds * 1000)],
          births := s.births[Sha256(token) := Birth(claim, t)])
      else s
    else s
  }

  function LoggedOut(s: State, token: string): (s': State)
    ensures SameLogins(s, s')
  {
    if token != "" && Sha256(token) in s.sessions
    then s.(sessions := s.sessions - {Sha256(token)}, gone := s.gone[Sha256(token) := s.login.now])
    else s
  }

  function Arrived(s: State, r: nat, purpose: Purpose, cookie: string, header: string): (s': State)
    ensures SameLogins(s, s')
  {
    if r in s.requests then s
    else
      var t := s.login.now;
      var s1 := s.(sessions := AfterGet(s.sessions, cookie, t));
      if SessionLive(s.sessions, cookie, t)
      then
        s1.(requests := s.requests[r := Found(purpose, Cookie(Sha256(cookie)), s.sessions[Sha256(cookie)].deviceId, t)])
      else s1.(requests := s.requests[r := if purpose.Check? && header != "" then Looking(header) else Closed])
  }

  function Looked(s: State, r: nat): (s': State)
    ensures SameLogins(s, s')
  {
    if r in s.requests && s.requests[r].Looking?
    then
      var header := s.requests[r].header;
      s.(requests := s.requests[r := match Lookup(s.store, header, s.login.now)
                                     case Some(record) => Found(Check, DeviceToken(Sha256(header)), record.deviceId, s.login.now)
                                     case None => Closed])
    else s
  }

  function Asked(c: Config, s: State, r: nat): (s': State)
    ensures SameLogins(s, s')
  {
    if r in s.requests && s.requests[r].Found? && r !in s.status.calls
    then
      var Found(purpose, cred, id, at) := s.requests[r];
      WithStatus(c, s, StatusCache.Ask(r, id)).(requests := s.requests[r := Waiting(purpose, cred, id, at)])
    else s
  }

  /** The await on isActive ends the moment its answer is known. */
  function Known(s: State, r: nat): (s': State)
    ensures SameLogins(s, s')
  {
    if r in s.requests && s.requests[r].Waiting? && r in s.status.calls && StatusCache.Told(s.status.calls[r]) &&
       s.status.calls[r].at == s.login.now
    then
      var Waiting(purpose, cred, id, at) := s.requests[r];
      if !StatusCache.SaysYes(s.status.calls[r]) then s.(requests := s.requests[r := Closed])
      else if !purpose.Check? then s.(requests := s.requests[r := Ready(purpose, cred, id, at)])
      else
        s.(requests := s.requests[r := Closed],
           grants := s.grants + [Grant(cred, id, at, s.login.now)],
           store := if cred.DeviceToken? && cred.h in s.store.tokens
                    then Touched(s.store, s.store.tokens[cred.h].id, s.login.now) else s.store)
    else s
  }

  function TokenMade(c: Config, s: State, r: nat, token: string, tokenId: string, labelText: string): (s': State)
    ensures SameLogins(s, s')
  {
    if r in s.requests && s.requests[r].Ready? && s.requests[r].purpose.Mint? && Unused(s, Sha256(token)) &&
       tokenId !in s.store.tokenIds
    then
      var Ready(_, cred, id, at) := s.requests[r];
      var store := Created(c.tokens, s.store, id, labelText, token, tokenId, s.login.now);
      s.(requests := s.requests[r := Closed], store := store,
         minted := if store == s.store then s.minted else s.minted[Sha256(token) := Minted(cred.h, at, s.login.now)])
    else s
  }

  function TokenDropped(s: State, r: nat, tokenId: string): (s': State)
    ensures SameLogins(s, s')
  {
    if r in s.requests && s.requests[r].Ready? && s.requests[r].purpose.Drop?
    then
      var id := s.requests[r].id;
      s.(requests := s.requests[r := Closed], store := Revoked(s.store, id, tokenId),
         gone := if Revocable(s.store, id, tokenId) then s.gone[s.store.tokenIds[tokenId] := s.login.now] else s.gone)
    else s
  }

  /** An action that is not possible in a state leaves it as it is. */
  function Step(c: Config, s: State, a: Action): State {
    match a
    case Tick(ms) => WithStatus(c, WithLogin(c, s, Login.Tick(ms)), StatusCache.Tick(ms))
    case LoginStep(b) => if b.Tick? || b.Open? then s else WithLogin(c, s, b)
    case StatusStep(b) => if b.Tick? || b.Ask? then s else WithStatus(c, s, b)
    case OpenSession(h, token) => Opened(c, s, h, token)
    case Logout(token) => LoggedOut(s, token)
    case Sweep =>
      s.(sessions := map k | k in s.sessions && s.login.now < s.sessions[k].expiresAt :: s.sessions[k],
         store := Swept(s.store, s.login.now))
    case VerifyArrives(r, cookie, header) => Arrived(s, r, Check, cookie, header)
    case LookToken(r) => Looked(s, r)
    case FormArrives(r, purpose, cookie) => if purpose.Check? then s else Arrived(s, r, purpose, cookie, "")
    case AskStatus(r) => Asked(c, s, r)
    case StatusKnown(r) => Known(s, r)
    case CreateToken(r, token, tokenId, labelText) => TokenMade(c, s, r, token, tokenId, labelText)
    case RevokeToken(r, tokenId) => TokenDropped(s, r, tokenId)
  }

  function Run(c: Config, acts: seq<Action>): State {
    if acts == [] then START else Step(c, Run(c, acts[..|acts| - 1]), acts[|acts| - 1])
  }

  // ---- Provenance -----------------------------------------------------------------------

  /** The session `h` was opened for a successful claim by `id`. */
  predicate OpenedBy(claims: seq<Login.SuccessfulClaim>, births: map<Digest, Birth>, h: Digest, id: string) {
    && h in births && births[h].claim < |claims|
    && claims[births[h].claim].id == id && claims[births[h].claim].at <= births[h].createdAt
  }

  predicate SessionStood(c: Config, s: State, h: Digest, id: string, at: nat) {
    && OpenedBy(s.login.claims, s.births, h, id)
    && s.births[h].createdAt <= at < s.births[h].createdAt + c.sessionTtlSeconds * 1000
  }

  predicate NotGone(gone: map<Digest, nat>, h: Digest, at: nat) {
    h in gone ==> at <= gone[h]
  }

  /**
   At time `at` the credential was good for `id`: a session opened for a claim by `id`, or
   a token minted under such a session that had itself neither expired nor been destroyed
   when the request to mint was guarded; the credential neither expired, destroyed nor revoked.
   */
  predicate Good(c: Config, s: State, cred: Credential, id: string, at: nat) {
    && NotGone(s.gone, cred.h, at)
    && match cred
       case Cookie(h) => SessionStood(c, s, h, id, at)
       case DeviceToken(h) =>
         && h in s.minted
         && SessionStood(c, s, s.minted[h].session, id, s.minted[h].guardedAt)
         && NotGone(s.gone, s.minted[h].session, s.minted[h].guardedAt)
         && s.minted[h].guardedAt <= s.minted[h].createdAt <= at < s.minted[h].createdAt + c.tokens.ttlSeconds * 1000
  }

  ghost predicate SessionsBorn(c: Config, s: State) {
    && (forall h :: h in s.births ==> s.births[h].createdAt <= s.login.now)
    && (forall h :: h in s.sessions ==>
         (h !in s.gone && OpenedBy(s.login.claims, s.births, h, s.sessions[h].deviceId) &&
          s.sessions[h].expiresAt == s.births[h].createdAt + c.sessionTtlSeconds * 1000))
    && (forall i :: 0 <= i < |s.login.claims| ==> s.login.claims[i].at <= s.login.now)
  }

  /** A stored token was minted under a session that stood and was not destroyed, and expires as it was minted. */
  predicate TokenBacked(c: Config, s: State, h: Digest)
    requires h in s.store.tokens
  {
    h !in s.gone && h in s.minted &&
    SessionStood(c, s, s.minted[h].session, s.store.tokens[h].deviceId, s.minted[h].guardedAt) &&
    NotGone(s.gone, s.minted[h].session, s.minted[h].guardedAt) &&
    s.store.tokens[h].expiresAt == s.minted[h].createdAt + c.tokens.ttlSeconds * 1000
  }

  ghost predicate TokensMinted(c: Config, s: State) {
    && Indexed(s.store)
    && (forall h :: h in s.minted ==> s.minted[h].guardedAt <= s.minted[h].createdAt <= s.login.now)
    && (forall h :: h in s.store.tokens ==> TokenBacked(c, s, h))
    && (forall h :: h in s.gone ==> h in s.births || h in s.minted)
  }

  predicate Backed(c: Config, s: State, r: nat, q: Request) {
    HasCredential(q) ==>
    (&& Good(c, s, q.cred, q.id, q.at) && q.at <= s.login.now
     && (!q.purpose.Check? ==> q.cred.Cookie?)
     && (q.Waiting? ==> r in s.status.calls && s.status.calls[r].id == q.id))
  }

  ghost predicate RequestsBacked(c: Config, s: State) {
    forall r :: r in s.requests ==> Backed(c, s, r, s.requests[r])
  }

  ghost predicate GrantBacked(c: Config, s: State, g: Grant) {
    && Good(c, s, g.cred, g.id, g.foundAt) && g.foundAt <= g.at <= s.login.now
    && StatusCache.SeenSince(s.status.seen, g.id, true, g.at, StatusCache.Age(c.status))
  }

  ghost predicate GrantsBacked(c: Config, s: State) {
    forall i :: 0 <= i < |s.grants| ==> GrantBacked(c, s, s.grants[i])
  }

  ghost predicate Inv(c: Config, s: State) {
    && s.login.now == s.status.now && s.births.Keys !! s.minted.Keys
    && StatusCache.Fresh(c.status, s.status)
    && SessionsBorn(c, s) && TokensMinted(c, s) && RequestsBacked(c, s) && GrantsBacked(c, s)
  }

  /** History only grows, and what has newly gone went no earlier than the state before. */
  ghost predicate Extends(s: State, s': State) {
    && s.login.now <= s'.login.now == s'.status.now && s.login.claims <= s'.login.claims && s.status.seen <= s'.status.seen
    && (forall i :: |s.login.claims| <= i < |s'.login.claims| ==> s'.login.claims[i].at <= s'.login.now)
    && (forall q :: q in s.status.calls ==> q in s'.status.calls && s'.status.calls[q].id == s.status.calls[q].id)
    && (forall h :: h in s.births ==> h in s'.births && s'.births[h] == s.births[h])
    && (forall h :: h in s.minted ==> h in s'.minted && s'.minted[h] == s.minted[h])
    && (forall h :: h in s'.gone ==> (h in s.gone && s'.gone[h] == s.gone[h]) || s'.gone[h] == s.login.now)
  }
}
