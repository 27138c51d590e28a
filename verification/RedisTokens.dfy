/**
 Device tokens in Redis: two keys with a time to live per token, and an index per
 device that has none. Run one call at a time, against the in-memory store.
 */
module RedisTokens {
  import opened Numerals
  import opened Tokens

  datatype Cell<+T> = Cell(value: T, expireAt: nat)

  /** tok:<digest>, tokid:<id> and devtok:<device>. */
  datatype Keys = Keys(tok: map<Digest, Cell<TokenRecord>>, tokid: map<string, Cell<Digest>>, devtok: map<string, set<string>>)

  predicate Readable(r: Keys, h: Digest, t: nat) {
    h in r.tok && t < r.tok[h].expireAt
  }

  /** GET tokid:<id>, then GET tok:<digest>: both must still be there. */
  predicate Resolves(r: Keys, id: string, t: nat) {
    id in r.tokid && t < r.tokid[id].expireAt && Readable(r, r.tokid[id].value, t)
  }

  function Resolve(r: Keys, id: string, t: nat): TokenRecord
    requires Resolves(r, id, t)
  {
    r.tok[r.tokid[id].value].value
  }

  function Members(r: Keys, deviceId: string): set<string> {
    if deviceId in r.devtok then r.devtok[deviceId] else {}
  }

  function Resolved(r: Keys, deviceId: string, t: nat): set<string> {
    set id | id in Members(r, deviceId) && Resolves(r, id, t)
  }

  function RecordSet(r: Keys, deviceId: string, t: nat): set<TokenRecord> {
    set id | id in Resolved(r, deviceId, t) :: Resolve(r, id, t)
  }

  /** recordsFor removes the stale entries of the device's index. */
  function Cleaned(r: Keys, deviceId: string, t: nat): Keys {
    WithMembers(r, deviceId, Resolved(r, deviceId, t))
  }

  function WithMembers(r: Keys, deviceId: string, ids: set<string>): Keys {
    if deviceId in r.devtok then r.(devtok := r.devtok[deviceId := ids]) else r
  }

  lemma WithMembersTwice(r: Keys, deviceId: string, first: set<string>, second: set<string>)
    requires deviceId in r.devtok
    ensures Members(WithMembers(r, deviceId, first), deviceId) == first
    ensures WithMembers(WithMembers(r, deviceId, first), deviceId, second) == WithMembers(r, deviceId, second)
  {
    assert r.devtok[deviceId := first][deviceId := second] == r.devtok[deviceId := second];
  }

  class RedisTokenStore {
    var keys: Keys

    constructor ()
      ensures keys == Keys(map[], map[], map[])
    {
      keys := Keys(map[], map[], map[]);
    }

    method RecordsFor(deviceId: string, t: nat) returns (out: seq<TokenRecord>)
      modifies this
      ensures keys == Cleaned(old(keys), deviceId, t)
      ensures (set r | r in out) == RecordSet(old(keys), deviceId, t)
      ensures |out| == |Resolved(old(keys), deviceId, t)|
    {
      ghost var before, good := keys, Resolved(keys, deviceId, t);
      var todo := Members(keys, deviceId);
      out := [];
      assert good + todo == todo && good - todo == {};
      while todo != {}
        invariant todo <= Members(before, deviceId)
        invariant keys == WithMembers(before, deviceId, good + todo)
        invariant Collected(before, out, good - todo, t)
      {
        var id :| id in todo;
        if Resolves(keys, id, t) {
          KeepOne(before, out, good, todo, id, t);
          out := out + [Resolve(keys, id, t)];
        } else {
          DropOne(before, deviceId, good, todo, id);
          keys := WithMembers(keys, deviceId, Members(keys, deviceId) - {id});
        }
        todo := todo - {id};
      }
      assert good + todo == good && good - todo == good;
    }
  }

  /** out lists the records of the ids in done, each once. */
  ghost predicate Collected(r: Keys, out: seq<TokenRecord>, done: set<string>, t: nat) {
    && (forall id :: id in done ==> Resolves(r, id, t))
    && (set x | x in out) == (set id | id in done :: Resolve(r, id, t))
    && |out| == |done|
  }

  lemma KeepOne(r: Keys, out: seq<TokenRecord>, good: set<string>, todo: set<string>, id: string, t: nat)
    requires id in good && id in todo && Resolves(r, id, t) && Collected(r, out, good - todo, t)
    ensures Collected(r, out + [Resolve(r, id, t)], good - (todo - {id}), t) && good + (todo - {id}) == good + todo
  {
    ResolveOneMore(r, out, good - todo, id, t);
    assert good - (todo - {id}) == good - todo + {id};
  }

  lemma DropOne(r: Keys, deviceId: string, good: set<string>, todo: set<string>, id: string)
    requires id in todo && id !in good && todo <= Members(r, deviceId)
    ensures good - (todo - {id}) == good - todo
    ensures var k := WithMembers(r, deviceId, good + todo);
            WithMembers(k, deviceId, Members(k, deviceId) - {id}) == WithMembers(r, deviceId, good + (todo - {id}))
  {
    assert good + todo - {id} == good + (todo - {id});
    WithMembersTwice(r, deviceId, good + todo, good + todo - {id});
  }

  lemma ResolveOneMore(r: Keys, out: seq<TokenRecord>, kept: set<string>, id: string, t: nat)
    requires Resolves(r, id, t) && forall k :: k in kept ==> Resolves(r, k, t)
    requires (set x | x in out) == set k | k in kept :: Resolve(r, k, t)
    ensures (set x | x in out + [Resolve(r, id, t)]) == set k | k in kept + {id} :: Resolve(r, k, t)
  {
    var more := set x | x in out + [Resolve(r, id, t)];
    assert more == (set x | x in out) + {Resolve(r, id, t)};
    assert (set k | k in kept + {id} :: Resolve(r, k, t)) == (set k | k in kept :: Resolve(r, k, t)) + {Resolve(r, id, t)};
  }

  // ---- One call on either store ------------------------------------------------------

  datatype Op =
    | Create(deviceId: string, labelText: string, token: string, id: string)
    | Find(token: string)
    | List(deviceId: string)
    | Revoke(deviceId: string, id: string)
    | Use(token: string)
    | Sweep

  datatype Answer = Record(record: Option<TokenRecord>) | Records(records: set<TokenRecord>) | Done(ok: bool)

  function OnMemory(c: TokenConfig, s: TokenStore, op: Op, t: nat): (TokenStore, Answer) {
    match op
    case Create(deviceId, labelText, token, id) =>
      (Created(c, s, deviceId, labelText, token, id, t),
       Record(if |Owned(s.tokens, deviceId, t)| >= c.maxPerDevice then None else Some(NewRecord(c, id, deviceId, labelText, t))))
    case Find(token) => (s, Record(Lookup(s, token, t)))
    case List(deviceId) => (s, Records(Listed(s, deviceId, t)))
    case Revoke(deviceId, id) => (Revoked(s, deviceId, id), Done(Revocable(s, deviceId, id)))
    case Use(token) =>
      var found := Lookup(s, token, t);
      (if found.Some? then Touched(s, found.value.id, t) else s, Record(found))
    case Sweep => (Swept(s, t), Done(true))
  }

  function FindByKey(r: Keys, token: string, t: nat): Option<TokenRecord> {
    var h := Sha256(token);
    if TokenShaped(token) && Readable(r, h, t) && t < r.tok[h].value.expiresAt then Some(r.tok[h].value) else None
  }

  /** touch(record): at most once a minute, and KEEPTTL leaves the expiry alone. */
  function Touch(r: Keys, record: TokenRecord, t: nat): Keys {
    if UseDue(record.lastUsedAt, t) && Resolves(r, record.id, t)
    then
      var h := r.tokid[record.id].value;
      r.(tok := r.tok[h := r.tok[h].(value := r.tok[h].value.(lastUsedAt := Some(t)))])
    else r
  }

  predicate RevocableByKey(r: Keys, deviceId: string, id: string, t: nat) {
    IdShaped(id) && Resolves(r, id, t) && Resolve(r, id, t).deviceId == deviceId
  }

  function OnRedis(c: TokenConfig, r: Keys, op: Op, t: nat): (Keys, Answer) {
    match op
    case Create(deviceId, labelText, token, id) =>
      var k := Cleaned(r, deviceId, t);
      if |Resolved(r, deviceId, t)| >= c.maxPerDevice then (k, Record(None))
      else
        var record := NewRecord(c, id, deviceId, labelText, t);
        var until := t + c.ttlSeconds * 1000;
        (Keys(k.tok[Sha256(token) := Cell(record, until)], k.tokid[id := Cell(Sha256(token), until)],
              k.devtok[deviceId := Members(k, deviceId) + {id}]),
         Record(Some(record)))
    case Find(token) => (r, Record(FindByKey(r, token, t)))
    case List(deviceId) => (Cleaned(r, deviceId, t), Records(RecordSet(r, deviceId, t)))
    case Revoke(deviceId, id) =>
      if RevocableByKey(r, deviceId, id, t)
      then (Keys(r.tok - {r.tokid[id].value}, r.tokid - {id}, r.devtok[deviceId := Members(r, deviceId) - {id}]), Done(true))
      else (r, Done(false))
    case Use(token) =>
      var found := FindByKey(r, token, t);
      (if found.Some? then Touch(r, found.value, t) else r, Record(found))
    case Sweep => (r, Done(true))
  }

  // ---- The two stores hold the same live tokens -----------------------------------------

  ghost predicate SameTokens(s: TokenStore, r: Keys, now: nat) {
    && (forall h :: h in r.tok ==> r.tok[h].expireAt == r.tok[h].value.expiresAt)
    && (forall h :: h in r.tok && now < r.tok[h].expireAt ==> h in s.tokens && s.tokens[h] == r.tok[h].value)
    && (forall h :: Live(s.tokens, h, now) ==> h in r.tok && r.tok[h].value == s.tokens[h])
  }

  ghost predicate SameIds(s: TokenStore, r: Keys, now: nat) {
    && (forall h :: Live(s.tokens, h, now) ==>
         (s.tokens[h].id in r.tokid && r.tokid[s.tokens[h].id] == Cell(h, s.tokens[h].expiresAt)))
    && (forall id :: id in r.tokid && now < r.tokid[id].expireAt ==>
         (Live(s.tokens, r.tokid[id].value, now) && s.tokens[r.tokid[id].value].id == id))
  }

  ghost predicate SameIndex(s: TokenStore, r: Keys, now: nat) {
    && (forall h :: Live(s.tokens, h, now) ==> s.tokens[h].id in Members(r, s.tokens[h].deviceId))
    && (forall d, h :: Live(s.tokens, h, now) && s.tokens[h].id in Members(r, d) ==> s.tokens[h].deviceId == d)
  }

  /** Random values never repeat, and token ids have the generator's shape. */
  ghost predicate IssuedOnly(s: TokenStore, r: Keys, tokens: set<string>, ids: set<string>) {
    && (forall h :: h in s.tokens || h in r.tok ==> h.of in tokens)
    && (forall id :: id in s.tokenIds || id in r.tokid ==> id in ids)
    && (forall d, id :: id in Members(r, d) ==> id in ids)
    && (forall id :: id in ids ==> IdShaped(id))
  }

  ghost predicate Simulates(s: TokenStore, r: Keys, now: nat) {
    Indexed(s) && SameTokens(s, r, now) && SameIds(s, r, now) && SameIndex(s, r, now)
  }

  lemma {:induction false} IdsSize(s: TokenStore, hs: set<Digest>)
    requires Indexed(s) && hs <= s.tokens.Keys
    ensures |set h | h in hs :: s.tokens[h].id| == |hs|
  {
    var ids := set h | h in hs :: s.tokens[h].id;
    if hs == {} {
      assert ids == {};
    } else {
      var x :| x in hs;
      IdsSize(s, hs - {x});
      var rest := set h | h in hs - {x} :: s.tokens[h].id;
      assert ids == rest + {s.tokens[x].id};
      assert s.tokens[x].id !in rest;
    }
  }

  lemma ResolvedAreOwned(s: TokenStore, r: Keys, deviceId: string, t: nat)
    requires Simulates(s, r, t)
    ensures Resolved(r, deviceId, t) == set h | h in Owned(s.tokens, deviceId, t) :: s.tokens[h].id
    ensures RecordSet(r, deviceId, t) == Listed(s, deviceId, t)
    ensures |Resolved(r, deviceId, t)| == |Owned(s.tokens, deviceId, t)|
  {
    var owned := Owned(s.tokens, deviceId, t);
    var ids := set h | h in owned :: s.tokens[h].id;
    forall id | id in ids ensures id in Resolved(r, deviceId, t) {
      var h :| h in owned && s.tokens[h].id == id;
      assert Live(s.tokens, h, t);
    }
    forall id | id in Resolved(r, deviceId, t) ensures id in ids {
      var h := r.tokid[id].value;
      assert Live(s.tokens, h, t) && s.tokens[h].id == id;
      assert h in owned;
    }
    IdsSize(s, owned);
    ListsAgree(s, r, deviceId, t);
  }

  lemma ListsAgree(s: TokenStore, r: Keys, deviceId: string, t: nat)
    requires Simulates(s, r, t)
    ensures RecordSet(r, deviceId, t) == Listed(s, deviceId, t)
  {
    forall record | record in RecordSet(r, deviceId, t) ensures record in Listed(s, deviceId, t) {
      var id :| id in Resolved(r, deviceId, t) && Resolve(r, id, t) == record;
      var h := r.tokid[id].value;
      assert Live(s.tokens, h, t) && s.tokens[h] == record;
      assert h in Owned(s.tokens, deviceId, t);
    }
    forall record | record in Listed(s, deviceId, t) ensures record in RecordSet(r, deviceId, t) {
      var h :| h in Owned(s.tokens, deviceId, t) && s.tokens[h] == record;
      assert Live(s.tokens, h, t);
      assert record.id in Resolved(r, deviceId, t) && Resolve(r, record.id, t) == record;
    }
  }

  lemma CleanedSimulates(s: TokenStore, r: Keys, deviceId: string, t: nat)
    requires Simulates(s, r, t)
    ensures Simulates(s, Cleaned(r, deviceId, t), t)
  {
    var k := Cleaned(r, deviceId, t);
    forall h | Live(s.tokens, h, t) ensures s.tokens[h].id in Members(k, s.tokens[h].deviceId) {
      assert s.tokens[h].id in Members(r, s.tokens[h].deviceId);
      assert Resolves(r, s.tokens[h].id, t);
    }
    assert forall d :: Members(k, d) <= Members(r, d);
  }

  function Added(s: TokenStore, h: Digest, record: TokenRecord): TokenStore {
    TokenStore(s.tokens[h := record], s.tokenIds[record.id := h])
  }

  function AddedKeys(r: Keys, h: Digest, record: TokenRecord): Keys {
    Keys(r.tok[h := Cell(record, record.expiresAt)], r.tokid[record.id := Cell(h, record.expiresAt)],
         r.devtok[record.deviceId := Members(r, record.deviceId) + {record.id}])
  }

  lemma AddedSameTokens(s: TokenStore, r: Keys, h: Digest, record: TokenRecord, t: nat)
    requires SameTokens(s, r, t) && SameIds(s, r, t) && Indexed(s)
    requires h !in s.tokens && record.id !in s.tokenIds
    ensures SameTokens(Added(s, h, record), AddedKeys(r, h, record), t)
    ensures SameIds(Added(s, h, record), AddedKeys(r, h, record), t)
  {
    var tokens' := Added(s, h, record).tokens;
    assert forall k :: k != h ==> (Live(tokens', k, t) <==> Live(s.tokens, k, t));
    assert forall k :: Live(s.tokens, k, t) ==> s.tokens[k].id in s.tokenIds;
  }

  lemma AddedSameIndex(s: TokenStore, r: Keys, h: Digest, record: TokenRecord, t: nat)
    requires SameIndex(s, r, t) && Indexed(s)
    requires h !in s.tokens && record.id !in s.tokenIds && forall d :: record.id !in Members(r, d)
    ensures SameIndex(Added(s, h, record), AddedKeys(r, h, record), t)
  {
    var tokens', r' := Added(s, h, record).tokens, AddedKeys(r, h, record);
    assert forall d :: Members(r', d) == Members(r, d) + if d == record.deviceId then {record.id} else {};
    assert forall k :: k != h ==> (Live(tokens', k, t) <==> Live(s.tokens, k, t));
    assert forall k :: Live(s.tokens, k, t) ==> s.tokens[k].id in s.tokenIds;
  }

  lemma CreateIsAdd(c: TokenConfig, s: TokenStore, r: Keys, op: Op, t: nat)
    requires op.Create? && |Owned(s.tokens, op.deviceId, t)| == |Resolved(r, op.deviceId, t)|
    ensures OnMemory(c, s, op, t).1 == OnRedis(c, r, op, t).1
    ensures var h, record := Sha256(op.token), NewRecord(c, op.id, op.deviceId, op.labelText, t);
            var k := Cleaned(r, op.deviceId, t);
            if |Resolved(r, op.deviceId, t)| >= c.maxPerDevice
            then OnMemory(c, s, op, t).0 == s && OnRedis(c, r, op, t).0 == k
            else OnMemory(c, s, op, t).0 == Added(s, h, record) && OnRedis(c, r, op, t).0 == AddedKeys(k, h, record)
  {
  }

  lemma AddedSimulates(s: TokenStore, r: Keys, h: Digest, record: TokenRecord, t: nat)
    requires Simulates(s, r, t)
    requires h !in s.tokens && record.id !in s.tokenIds && forall d :: record.id !in Members(r, d)
    ensures Simulates(Added(s, h, record), AddedKeys(r, h, record), t)
  {
    AddedSameTokens(s, r, h, record, t);
    AddedSameIndex(s, r, h, record, t);
    assert Indexed(Added(s, h, record));
  }

  lemma CreateSimulates(c: TokenConfig, s: TokenStore, r: Keys, op: Op, t: nat)
    requires op.Create? && Simulates(s, r, t)
    requires Sha256(op.token) !in s.tokens && op.id !in s.tokenIds && forall d :: op.id !in Members(r, d)
    ensures OnMemory(c, s, op, t).1 == OnRedis(c, r, op, t).1
    ensures Simulates(OnMemory(c, s, op, t).0, OnRedis(c, r, op, t).0, t)
  {
    ResolvedAreOwned(s, r, op.deviceId, t);
    CleanedSimulates(s, r, op.deviceId, t);
    CreateIsAdd(c, s, r, op, t);
    if |Resolved(r, op.deviceId, t)| < c.maxPerDevice {
      var k := Cleaned(r, op.deviceId, t);
      forall d ensures op.id !in Members(k, d) { CleanedMembers(r, op.deviceId, t, d); }
      AddedSimulates(s, k, Sha256(op.token), NewRecord(c, op.id, op.deviceId, op.labelText, t), t);
    }
  }

  function Removed(s: TokenStore, h: Digest): TokenStore
    requires h in s.tokens
  {
    TokenStore(s.tokens - {h}, s.tokenIds - {s.tokens[h].id})
  }

  function RemovedKeys(r: Keys, h: Digest, id: string, d: string): Keys {
    Keys(r.tok - {h}, r.tokid - {id}, r.devtok[d := Members(r, d) - {id}])
  }

  lemma RemovedSameTokens(s: TokenStore, r: Keys, h: Digest, t: nat)
    requires Indexed(s) && SameTokens(s, r, t) && SameIds(s, r, t) && h in s.tokens
    ensures Indexed(Removed(s, h))
    ensures SameTokens(Removed(s, h), RemovedKeys(r, h, s.tokens[h].id, s.tokens[h].deviceId), t)
    ensures SameIds(Removed(s, h), RemovedKeys(r, h, s.tokens[h].id, s.tokens[h].deviceId), t)
  {
    var tokens' := s.tokens - {h};
    assert forall k :: k in s.tokens && s.tokens[k].id == s.tokens[h].id ==> k == h;
    assert forall k :: Live(tokens', k, t) <==> Live(s.tokens, k, t) && k != h;
  }

  lemma RemovedSameIndex(s: TokenStore, r: Keys, h: Digest, t: nat)
    requires Indexed(s) && SameIndex(s, r, t) && h in s.tokens
    ensures SameIndex(Removed(s, h), RemovedKeys(r, h, s.tokens[h].id, s.tokens[h].deviceId), t)
  {
    var id, d, tokens' := s.tokens[h].id, s.tokens[h].deviceId, s.tokens - {h};
    var r' := RemovedKeys(r, h, id, d);
    assert forall k :: k in s.tokens && s.tokens[k].id == id ==> k == h;
    assert forall k :: Live(tokens', k, t) <==> Live(s.tokens, k, t) && k != h;
    assert forall e :: Members(r', e) == Members(r, e) - if e == d then {id} else {};
  }

  lemma RemovedSimulates(s: TokenStore, r: Keys, h: Digest, t: nat)
    requires Simulates(s, r, t) && Live(s.tokens, h, t)
    ensures Simulates(Removed(s, h), RemovedKeys(r, h, s.tokens[h].id, s.tokens[h].deviceId), t)
  {
    RemovedSameTokens(s, r, h, t);
    RemovedSameIndex(s, r, h, t);
  }

  lemma LapsedSimulates(s: TokenStore, r: Keys, h: Digest, t: nat)
    requires Simulates(s, r, t) && h in s.tokens && !Live(s.tokens, h, t)
    ensures Simulates(TokenStore(s.tokens - {h}, s.tokenIds - {s.tokens[h].id}), r, t)
  {
    var tokens' := s.tokens - {h};
    assert forall k :: Live(tokens', k, t) <==> Live(s.tokens, k, t);
  }

  lemma RevokeSimulates(c: TokenConfig, s: TokenStore, r: Keys, op: Op, t: nat)
    requires op.Revoke? && Simulates(s, r, t) && (op.id in s.tokenIds ==> IdShaped(op.id))
    ensures OnMemory(c, s, op, t).1 == OnRedis(c, r, op, t).1 <==> !Lapsed(s, op, t)
    ensures Simulates(OnMemory(c, s, op, t).0, OnRedis(c, r, op, t).0, t)
  {
    if Revocable(s, op.deviceId, op.id) {
      var h := s.tokenIds[op.id];
      if Live(s.tokens, h, t) {
        assert RevocableByKey(r, op.deviceId, op.id, t) && r.tokid[op.id].value == h;
        RemovedSimulates(s, r, h, t);
      } else {
        LapsedSimulates(s, r, h, t);
      }
    }
  }

  /** Revoking a token that has expired but is not swept yet. */
  predicate Lapsed(s: TokenStore, op: Op, t: nat) {
    op.Revoke? && Revocable(s, op.deviceId, op.id) && !Live(s.tokens, s.tokenIds[op.id], t)
  }

  lemma TouchSimulates(s: TokenStore, r: Keys, h: Digest, t: nat)
    requires Simulates(s, r, t) && Live(s.tokens, h, t)
    ensures Simulates(Touched(s, s.tokens[h].id, t), Touch(r, s.tokens[h], t), t)
  {
    var record := s.tokens[h];
    var s', r' := Touched(s, record.id, t), Touch(r, record, t);
    assert Resolves(r, record.id, t) && r.tokid[record.id].value == h && s.tokenIds[record.id] == h;
    if UseDue(record.lastUsedAt, t) {
      var used := record.(lastUsedAt := Some(t));
      assert s' == Used(s, h, used) && r' == UsedKeys(r, h, used);
      UsedSimulates(s, r, h, used, t);
    }
  }

  function Used(s: TokenStore, h: Digest, used: TokenRecord): TokenStore {
    s.(tokens := s.tokens[h := used])
  }

  function UsedKeys(r: Keys, h: Digest, used: TokenRecord): Keys {
    r.(tok := r.tok[h := Cell(used, used.expiresAt)])
  }

  lemma UsedSameTokens(s: TokenStore, r: Keys, h: Digest, used: TokenRecord, t: nat)
    requires Indexed(s) && SameTokens(s, r, t) && SameIds(s, r, t)
    requires Live(s.tokens, h, t) && used == s.tokens[h].(lastUsedAt := used.lastUsedAt)
    ensures Indexed(Used(s, h, used)) && SameTokens(Used(s, h, used), UsedKeys(r, h, used), t)
    ensures SameIds(Used(s, h, used), UsedKeys(r, h, used), t)
  {
    var tokens' := s.tokens[h := used];
    assert forall k :: k in tokens' ==> tokens'[k].id == s.tokens[k].id && tokens'[k].expiresAt == s.tokens[k].expiresAt;
  }

  lemma UsedSameIndex(s: TokenStore, r: Keys, h: Digest, used: TokenRecord, t: nat)
    requires SameIndex(s, r, t) && Live(s.tokens, h, t) && used == s.tokens[h].(lastUsedAt := used.lastUsedAt)
    ensures SameIndex(Used(s, h, used), UsedKeys(r, h, used), t)
  {
    var tokens', r' := s.tokens[h := used], UsedKeys(r, h, used);
    assert forall k :: Live(tokens', k, t) <==> Live(s.tokens, k, t);
    assert forall k :: k in tokens' ==> tokens'[k].id == s.tokens[k].id && tokens'[k].deviceId == s.tokens[k].deviceId;
    assert forall d :: Members(r', d) == Members(r, d);
  }

  lemma UsedSimulates(s: TokenStore, r: Keys, h: Digest, used: TokenRecord, t: nat)
    requires Simulates(s, r, t) && Live(s.tokens, h, t) && used == s.tokens[h].(lastUsedAt := used.lastUsedAt)
    ensures Simulates(Used(s, h, used), UsedKeys(r, h, used), t)
  {
    UsedSameTokens(s, r, h, used, t);
    UsedSameIndex(s, r, h, used, t);
  }

  lemma UseSimulates(c: TokenConfig, s: TokenStore, r: Keys, op: Op, t: nat)
    requires (op.Use? || op.Find?) && Simulates(s, r, t)
    ensures OnMemory(c, s, op, t).1 == OnRedis(c, r, op, t).1
    ensures Simulates(OnMemory(c, s, op, t).0, OnRedis(c, r, op, t).0, t)
  {
    var h := Sha256(op.token);
    assert Live(s.tokens, h, t) <==> Readable(r, h, t);
    if Lookup(s, op.token, t).Some? { TouchSimulates(s, r, h, t); }
  }

  lemma SweepSimulates(c: TokenConfig, s: TokenStore, r: Keys, t: nat)
    requires Simulates(s, r, t)
    ensures Simulates(OnMemory(c, s, Sweep, t).0, OnRedis(c, r, Sweep, t).0, t)
  {
    SweptIndexed(s, t);
    assert forall k :: Live(Swept(s, t).tokens, k, t) <==> Live(s.tokens, k, t);
  }

  // ---- Whole runs ---------------------------------------------------------------------------

  datatype Exchange = Exchange(memory: Answer, redis: Answer, lapsed: bool)

  datatype Both = Both(now: nat, memory: TokenStore, redis: Keys, tokens: set<string>, ids: set<string>, log: seq<Exchange>)

  const EMPTY := Both(0, TokenStore(map[], map[]), Keys(map[], map[], map[]), {}, {}, [])

  /** The generator never returns a token or an id twice. */
  predicate Possible(b: Both, op: Op) {
    op.Create? ==> op.token !in b.tokens && op.id !in b.ids && IdShaped(op.id)
  }

  /** One call, wait milliseconds after the last: both stores get it, and both answers are logged. */
  predicate Called(c: TokenConfig, b: Both, wait: nat, op: Op, b': Both) {
    var t := b.now + wait;
    if !Possible(b, op) then b' == b
    else
      var memory, redis := OnMemory(c, b.memory, op, t), OnRedis(c, b.redis, op, t);
      b'.now == t && b'.memory == memory.0 && b'.redis == redis.0 &&
      b'.tokens == (if op.Create? then b.tokens + {op.token} else b.tokens) &&
      b'.ids == (if op.Create? then b.ids + {op.id} else b.ids) &&
      b'.log == b.log + [Exchange(memory.1, redis.1, Lapsed(b.memory, op, t))]
  }

  /** The states a sequence of calls leads through, from two empty stores. */
  predicate Run(c: TokenConfig, calls: seq<(nat, Op)>, states: seq<Both>) {
    |states| == |calls| + 1 && states[0] == EMPTY &&
    forall i :: 0 <= i < |calls| ==> Called(c, states[i], calls[i].0, calls[i].1, states[i + 1])
  }

  ghost predicate Good(c: TokenConfig, b: Both) {
    && Simulates(b.memory, b.redis, b.now)
    && IssuedOnly(b.memory, b.redis, b.tokens, b.ids)
    && WithinLimit(c, b.memory, b.now)
    && LogAgrees(b.log)
  }

  ghost predicate LogAgrees(log: seq<Exchange>) {
    forall i :: 0 <= i < |log| ==> (log[i].memory == log[i].redis <==> !log[i].lapsed)
  }

  lemma LaterSimulates(s: TokenStore, r: Keys, now: nat, later: nat)
    requires Simulates(s, r, now) && now <= later
    ensures Simulates(s, r, later)
  {
    assert forall h :: Live(s.tokens, h, later) ==> Live(s.tokens, h, now);
  }

  lemma CallIssued(c: TokenConfig, s: TokenStore, r: Keys, op: Op, t: nat, tokens: set<string>, ids: set<string>)
    requires IssuedOnly(s, r, tokens, ids)
    requires op.Create? ==> op.token in tokens && op.id in ids
    ensures IssuedOnly(OnMemory(c, s, op, t).0, OnRedis(c, r, op, t).0, tokens, ids)
  {
    var s', r' := OnMemory(c, s, op, t).0, OnRedis(c, r, op, t).0;
    assert forall h :: h in s'.tokens ==> h in s.tokens || (op.Create? && h.of == op.token);
    assert forall h :: h in r'.tok ==> h in r.tok || (op.Create? && h.of == op.token);
    assert forall id :: id in s'.tokenIds ==> id in s.tokenIds || (op.Create? && id == op.id);
    assert forall id :: id in r'.tokid ==> id in r.tokid || (op.Create? && id == op.id);
    forall d ensures Members(r', d) <= ids {
      MembersIssued(c, r, op, t, ids, d);
    }
  }

  lemma CleanedMembers(r: Keys, deviceId: string, t: nat, d: string)
    ensures Members(Cleaned(r, deviceId, t), d) <= Members(r, d)
  {
  }

  lemma MembersIssued(c: TokenConfig, r: Keys, op: Op, t: nat, ids: set<string>, d: string)
    requires forall e :: Members(r, e) <= ids
    requires op.Create? ==> op.id in ids
    ensures Members(OnRedis(c, r, op, t).0, d) <= ids
  {
    match op
    case Create(deviceId, labelText, token, id) =>
      CleanedMembers(r, deviceId, t, d);
      CleanedMembers(r, deviceId, t, deviceId);
    case List(deviceId) => CleanedMembers(r, deviceId, t, d);
    case Revoke(deviceId, id) =>
      var fewer := Members(r, deviceId) - {id};
      var devtok := OnRedis(c, r, op, t).0.devtok;
      assert fewer <= ids && (devtok == r.devtok || devtok == r.devtok[deviceId := fewer]);
      assert Members(r, d) <= ids;
    case _ =>
  }

  /** What one call makes of a good pair of stores, with the two results named. */
  lemma CallFacts(c: TokenConfig, b: Both, t: nat, op: Op) returns (memory: (TokenStore, Answer), redis: (Keys, Answer))
    requires Good(c, b) && Possible(b, op) && b.now <= t
    ensures memory == OnMemory(c, b.memory, op, t) && redis == OnRedis(c, b.redis, op, t)
    ensures Simulates(memory.0, redis.0, t) && WithinLimit(c, memory.0, t)
    ensures memory.1 == redis.1 <==> !Lapsed(b.memory, op, t)
    ensures IssuedOnly(memory.0, redis.0, if op.Create? then b.tokens + {op.token} else b.tokens,
                       if op.Create? then b.ids + {op.id} else b.ids)
  {
    memory, redis := OnMemory(c, b.memory, op, t), OnRedis(c, b.redis, op, t);
    LaterSimulates(b.memory, b.redis, b.now, t);
    CallAgrees(c, b, op, t);
    CallLimit(c, b.memory, op, t);
    CallIssued(c, b.memory, b.redis, op, t, if op.Create? then b.tokens + {op.token} else b.tokens,
               if op.Create? then b.ids + {op.id} else b.ids);
  }

  lemma CalledGood(c: TokenConfig, b: Both, wait: nat, op: Op, b': Both)
    requires Good(c, b) && Called(c, b, wait, op, b')
    ensures Good(c, b')
  {
    hide OnMemory, OnRedis, Lapsed, IssuedOnly, Simulates, WithinLimit;
    if Possible(b, op) {
      var memory, redis := CallFacts(c, b, b.now + wait, op);
      assert b'.memory == memory.0 && b'.redis == redis.0;
    }
  }

  lemma EmptyGood(c: TokenConfig)
    ensures Good(c, EMPTY)
  {
    assert forall d, t :: Owned(EMPTY.memory.tokens, d, t) == {};
  }

  lemma CallLimit(c: TokenConfig, s: TokenStore, op: Op, t: nat)
    requires Indexed(s) && WithinLimit(c, s, t) && (op.Create? ==> Sha256(op.token) !in s.tokens)
    ensures WithinLimit(c, OnMemory(c, s, op, t).0, t)
  {
    if op.Create? {
      CreatedWithinLimit(c, s, op.deviceId, op.labelText, op.token, op.id, t);
    } else {
      FewerKeepsLimit(c, s, OnMemory(c, s, op, t).0, t);
    }
  }

  lemma CallAgrees(c: TokenConfig, b: Both, op: Op, t: nat)
    requires Possible(b, op) && Simulates(b.memory, b.redis, t) && IssuedOnly(b.memory, b.redis, b.tokens, b.ids)
    ensures Simulates(OnMemory(c, b.memory, op, t).0, OnRedis(c, b.redis, op, t).0, t)
    ensures OnMemory(c, b.memory, op, t).1 == OnRedis(c, b.redis, op, t).1 <==> !Lapsed(b.memory, op, t)
  {
    match op
    case Create(deviceId, labelText, token, id) =>
      assert Sha256(token).of == token;
      CreateSimulates(c, b.memory, b.redis, op, t);
    case List(deviceId) =>
      ListsAgree(b.memory, b.redis, deviceId, t);
      CleanedSimulates(b.memory, b.redis, deviceId, t);
    case Revoke(_, _) => RevokeSimulates(c, b.memory, b.redis, op, t);
    case Sweep => SweepSimulates(c, b.memory, b.redis, t);
    case _ => UseSimulates(c, b.memory, b.redis, op, t);
  }

  /**
   In every sequential run the two stores answer alike, except when a token that has
   expired is revoked before it was swept, where they always differ. The indexes stay
   inverse and no device exceeds its limit.
   */
  lemma {:induction false} StoresAnswerAlike(c: TokenConfig, calls: seq<(nat, Op)>, states: seq<Both>)
    requires Run(c, calls, states)
    ensures Good(c, states[|calls|])
    decreases |calls|
  {
    if calls == [] {
      EmptyGood(c);
    } else {
      var n := |calls| - 1;
      StoresAnswerAlike(c, calls[..n], states[..n + 1]);
      CalledGood(c, states[n], calls[n].0, calls[n].1, states[n + 1]);
    }
  }

  /** Only its owner's revoke takes a live token away. */
  lemma OnlyOwnerRevokes(c: TokenConfig, s: TokenStore, op: Op, h: Digest, t: nat)
    requires Indexed(s) && Live(s.tokens, h, t) && !Live(OnMemory(c, s, op, t).0.tokens, h, t)
    requires op.Create? ==> Sha256(op.token) != h
    ensures op == Revoke(s.tokens[h].deviceId, s.tokens[h].id)
  {
  }
}
