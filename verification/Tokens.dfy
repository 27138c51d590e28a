/** Sessions and device tokens as values: what one call on the in-memory store does. */
module Tokens {
  import opened Numerals

  /** SHA-256 of a credential; distinct credentials have distinct digests. */
  datatype Digest = Sha256(of: string)

  datatype Session = Session(deviceId: string, createdAt: nat, expiresAt: nat)
  datatype TokenRecord = TokenRecord(id: string, deviceId: string, labelText: string, createdAt: nat,
                                     lastUsedAt: Option<nat>, expiresAt: nat)
  datatype TokenConfig = TokenConfig(ttlSeconds: nat, maxPerDevice: int)

  // ---- Sessions ------------------------------------------------------------------

  predicate CookieShaped(token: string) {
    0 < |token| <= 128
  }

  predicate SessionLive(sessions: map<Digest, Session>, token: string, t: nat) {
    CookieShaped(token) && Sha256(token) in sessions && t < sessions[Sha256(token)].expiresAt
  }

  /** Looking a session up also deletes it when it has expired. */
  function AfterGet(sessions: map<Digest, Session>, token: string, t: nat): map<Digest, Session> {
    if CookieShaped(token) && !SessionLive(sessions, token, t) then sessions - {Sha256(token)} else sessions
  }

  // ---- Tokens --------------------------------------------------------------------

  predicate Base64UrlChar(c: char) {
    'A' <= c <= 'Z' || 'a' <= c <= 'z' || '0' <= c <= '9' || c == '_' || c == '-'
  }

  predicate Base64Url(s: string) {
    forall i :: 0 <= i < |s| ==> Base64UrlChar(s[i])
  }

  predicate TokenShaped(token: string) {
    |token| == 47 && token[..4] == "xat_" && Base64Url(token[4..])
  }

  predicate IdShaped(id: string) {
    |id| == 11 && Base64Url(id)
  }

  datatype TokenStore = TokenStore(tokens: map<Digest, TokenRecord>, tokenIds: map<string, Digest>)

  predicate Live(tokens: map<Digest, TokenRecord>, h: Digest, t: nat) {
    h in tokens && t < tokens[h].expiresAt
  }

  function Owned(tokens: map<Digest, TokenRecord>, deviceId: string, t: nat): set<Digest> {
    set h | h in tokens && tokens[h].deviceId == deviceId && Live(tokens, h, t)
  }

  function NewRecord(c: TokenConfig, id: string, deviceId: string, labelText: string, t: nat): TokenRecord {
    TokenRecord(id, deviceId, labelText, t, None, t + c.ttlSeconds * 1000)
  }

  function Created(c: TokenConfig, s: TokenStore, deviceId: string, labelText: string, token: string, id: string, t: nat): TokenStore {
    if |Owned(s.tokens, deviceId, t)| >= c.maxPerDevice then s
    else TokenStore(s.tokens[Sha256(token) := NewRecord(c, id, deviceId, labelText, t)], s.tokenIds[id := Sha256(token)])
  }

  function Lookup(s: TokenStore, token: string, t: nat): Option<TokenRecord> {
    if TokenShaped(token) && Live(s.tokens, Sha256(token), t) then Some(s.tokens[Sha256(token)]) else None
  }

  function Listed(s: TokenStore, deviceId: string, t: nat): set<TokenRecord> {
    set h | h in Owned(s.tokens, deviceId, t) :: s.tokens[h]
  }

  predicate Revocable(s: TokenStore, deviceId: string, id: string) {
    id in s.tokenIds && s.tokenIds[id] in s.tokens && s.tokens[s.tokenIds[id]].deviceId == deviceId
  }

  function Revoked(s: TokenStore, deviceId: string, id: string): TokenStore {
    if Revocable(s, deviceId, id) then TokenStore(s.tokens - {s.tokenIds[id]}, s.tokenIds - {id}) else s
  }

  predicate UseDue(lastUsedAt: Option<nat>, t: nat) {
    match lastUsedAt
    case None => true
    case Some(last) => t - last > 60_000
  }

  function Touched(s: TokenStore, id: string, t: nat): TokenStore {
    if id in s.tokenIds && s.tokenIds[id] in s.tokens && UseDue(s.tokens[s.tokenIds[id]].lastUsedAt, t)
    then var h := s.tokenIds[id]; s.(tokens := s.tokens[h := s.tokens[h].(lastUsedAt := Some(t))])
    else s
  }

  /** The identifiers of the records that have expired at t. */
  function ExpiredIds(tokens: map<Digest, TokenRecord>, t: nat): set<string> {
    set h | h in tokens && !Live(tokens, h, t) :: tokens[h].id
  }

  function Swept(s: TokenStore, t: nat): TokenStore {
    TokenStore(map h | h in s.tokens && Live(s.tokens, h, t) :: s.tokens[h], s.tokenIds - ExpiredIds(s.tokens, t))
  }

  // ---- What every operation keeps ---------------------------------------------------

  /** The two indexes are inverse to each other. */
  ghost predicate Indexed(s: TokenStore) {
    && (forall h :: h in s.tokens ==> s.tokens[h].id in s.tokenIds && s.tokenIds[s.tokens[h].id] == h)
    && (forall id :: id in s.tokenIds ==> s.tokenIds[id] in s.tokens && s.tokens[s.tokenIds[id]].id == id)
  }

  /** No device has more live tokens than allowed, now or later. */
  ghost predicate WithinLimit(c: TokenConfig, s: TokenStore, now: nat) {
    forall deviceId, t | now <= t :: |Owned(s.tokens, deviceId, t)| > 0 ==> |Owned(s.tokens, deviceId, t)| <= c.maxPerDevice
  }

  lemma SubsetSize<T>(a: set<T>, b: set<T>)
    requires a <= b
    ensures |a| <= |b|
  {
    if a != {} {
      var x :| x in a;
      SubsetSize(a - {x}, b - {x});
    }
  }

  lemma CreatedIndexed(c: TokenConfig, s: TokenStore, deviceId: string, labelText: string, token: string, id: string, t: nat)
    requires Indexed(s) && Sha256(token) !in s.tokens && id !in s.tokenIds
    ensures Indexed(Created(c, s, deviceId, labelText, token, id, t))
  {
  }

  lemma CreatedWithinLimit(c: TokenConfig, s: TokenStore, deviceId: string, labelText: string, token: string, id: string, t: nat)
    requires WithinLimit(c, s, t) && Sha256(token) !in s.tokens
    ensures WithinLimit(c, Created(c, s, deviceId, labelText, token, id, t), t)
  {
    var s' := Created(c, s, deviceId, labelText, token, id, t);
    if s' != s {
      forall d, u | t <= u && |Owned(s'.tokens, d, u)| > 0
        ensures |Owned(s'.tokens, d, u)| <= c.maxPerDevice
      {
        if d == deviceId {
          assert Owned(s'.tokens, d, u) <= Owned(s.tokens, d, t) + {Sha256(token)};
          SubsetSize(Owned(s'.tokens, d, u), Owned(s.tokens, d, t) + {Sha256(token)});
        } else {
          assert Owned(s'.tokens, d, u) == Owned(s.tokens, d, u);
        }
      }
    }
  }

  lemma FewerKeepsLimit(c: TokenConfig, s: TokenStore, s': TokenStore, now: nat)
    requires WithinLimit(c, s, now)
    requires forall h :: h in s'.tokens ==> h in s.tokens && s'.tokens[h].deviceId == s.tokens[h].deviceId &&
                                            s'.tokens[h].expiresAt == s.tokens[h].expiresAt
    ensures WithinLimit(c, s', now)
  {
    forall d, u | now <= u && |Owned(s'.tokens, d, u)| > 0
      ensures |Owned(s'.tokens, d, u)| <= c.maxPerDevice
    {
      assert Owned(s'.tokens, d, u) <= Owned(s.tokens, d, u);
      SubsetSize(Owned(s'.tokens, d, u), Owned(s.tokens, d, u));
    }
  }

  lemma RemovalsKeep(c: TokenConfig, s: TokenStore, deviceId: string, id: string, t: nat)
    requires Indexed(s) && WithinLimit(c, s, t)
    ensures Indexed(Revoked(s, deviceId, id)) && WithinLimit(c, Revoked(s, deviceId, id), t)
    ensures Indexed(Touched(s, id, t)) && WithinLimit(c, Touched(s, id, t), t)
    ensures Indexed(Swept(s, t)) && WithinLimit(c, Swept(s, t), t)
  {
    FewerKeepsLimit(c, s, Revoked(s, deviceId, id), t);
    FewerKeepsLimit(c, s, Touched(s, id, t), t);
    FewerKeepsLimit(c, s, Swept(s, t), t);
    SweptIndexed(s, t);
  }

  lemma SweptIndexed(s: TokenStore, t: nat)
    requires Indexed(s)
    ensures Indexed(Swept(s, t))
  {
    var s' := Swept(s, t);
    forall id | id in s'.tokenIds ensures s'.tokenIds[id] in s'.tokens && s'.tokens[s'.tokenIds[id]].id == id {
      var h := s.tokenIds[id];
      assert id !in ExpiredIds(s.tokens, t) && s.tokens[h].id == id;
    }
  }
}
