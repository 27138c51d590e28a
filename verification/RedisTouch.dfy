/**
 Device tokens in Redis, command by command: touch and revoke each read two keys before they
 write, and anything may happen in between. When a token that is gone stays gone.
 */
module RedisTouch {
  import opened Numerals
  import opened Tokens
  import opened RedisTokens

  /** What a call has learnt so far, named after the command it sends next. */
  datatype Call =
    | TouchGetId(id: string)
    | TouchGetToken(h: Digest)
    | TouchSet(h: Digest, record: TokenRecord)
    | RevokeGetId(deviceId: string, id: string)
    | RevokeGetToken(deviceId: string, id: string, h: Digest)
    | RevokeDelete(deviceId: string, id: string, h: Digest)
    | CreateSet(h: Digest, record: TokenRecord)
    | Over(ok: bool)

  /** A key in `lasting` has no time to live: SET with KEEPTTL gives a missing key none. */
  datatype State = State(now: nat, keys: Keys, lasting: set<Digest>, calls: map<nat, Call>)

  datatype Action =
    | Tick(ms: nat)
    | Touch(q: nat, record: TokenRecord)
    | Revoke(q: nat, deviceId: string, id: string)
    | Create(q: nat, deviceId: string, labelText: string, token: string, id: string)
    | List(deviceId: string)
    | Next(q: nat)

  predicate Present(s: State, h: Digest) {
    h in s.keys.tok && (h in s.lasting || s.now < s.keys.tok[h].expireAt)
  }

  function DigestOf(s: State, id: string): Option<Digest> {
    if id in s.keys.tokid && s.now < s.keys.tokid[id].expireAt then Some(s.keys.tokid[id].value) else None
  }

  /** lookup() is a single command. */
  function Found(s: State, token: string): Option<TokenRecord> {
    var h := Sha256(token);
    if TokenShaped(token) && Present(s, h) && s.now < s.keys.tok[h].value.expiresAt then Some(s.keys.tok[h].value) else None
  }

  /** recordsFor(), as the ids it keeps. */
  function Kept(s: State, deviceId: string): set<string> {
    set id | id in Members(s.keys, deviceId) && DigestOf(s, id).Some? && Present(s, DigestOf(s, id).value)
  }

  function With(s: State, q: nat, call: Call): State {
    s.(calls := s.calls[q := call])
  }

  // ---- One command -------------------------------------------------------------------------

  function Written(s: State, h: Digest, record: TokenRecord): State {
    var until := if Present(s, h) then s.keys.tok[h].expireAt else 0;
    s.(keys := s.keys.(tok := s.keys.tok[h := Cell(record, until)]),
       lasting := if Present(s, h) then s.lasting else s.lasting + {h})
  }

  function Deleted(s: State, deviceId: string, id: string, h: Digest): State {
    s.(keys := Keys(s.keys.tok - {h}, s.keys.tokid - {id}, s.keys.devtok[deviceId := Members(s.keys, deviceId) - {id}]),
       lasting := s.lasting - {h})
  }

  function Stored(c: TokenConfig, s: State, h: Digest, record: TokenRecord): State {
    var until := s.now + c.ttlSeconds * 1000;
    s.(keys := Keys(s.keys.tok[h := Cell(record, until)], s.keys.tokid[record.id := Cell(h, until)],
                    s.keys.devtok[record.deviceId := Members(s.keys, record.deviceId) + {record.id}]),
       lasting := s.lasting - {h})
  }

  function Advanced(c: TokenConfig, s: State, q: nat): State
    requires q in s.calls
  {
    match s.calls[q]
    case TouchGetId(id) =>
      With(s, q, match DigestOf(s, id) case Some(h) => TouchGetToken(h) case None => Over(false))
    case TouchGetToken(h) =>
      With(s, q, if Present(s, h) then TouchSet(h, s.keys.tok[h].value.(lastUsedAt := Some(s.now))) else Over(false))
    case TouchSet(h, record) => With(Written(s, h, record), q, Over(true))
    case RevokeGetId(deviceId, id) =>
      With(s, q, match DigestOf(s, id) case Some(h) => RevokeGetToken(deviceId, id, h) case None => Over(false))
    case RevokeGetToken(deviceId, id, h) =>
      With(s, q, if Present(s, h) && s.keys.tok[h].value.deviceId == deviceId then RevokeDelete(deviceId, id, h) else Over(false))
    case RevokeDelete(deviceId, id, h) => With(Deleted(s, deviceId, id, h), q, Over(true))
    case CreateSet(h, record) => With(Stored(c, s, h, record), q, Over(true))
    case Over(_) => s
  }

  /** An action that is not possible in a state leaves it as it is. */
  function Step(c: TokenConfig, s: State, a: Action): State {
    match a
    case Tick(ms) => s.(now := s.now + ms)
    case Touch(q, record) =>
      if q in s.calls then s
      else With(s, q, if UseDue(record.lastUsedAt, s.now) then TouchGetId(record.id) else Over(false))
    case Revoke(q, deviceId, id) =>
      if q in s.calls then s else With(s, q, if IdShaped(id) then RevokeGetId(deviceId, id) else Over(false))
    case Create(q, deviceId, labelText, token, id) =>
      if q in s.calls then s
      else
        var s1 := s.(keys := WithMembers(s.keys, deviceId, Kept(s, deviceId)));
        With(s1, q, if |Kept(s, deviceId)| >= c.maxPerDevice then Over(false)
                    else CreateSet(Sha256(token), NewRecord(c, id, deviceId, labelText, s.now)))
    case List(deviceId) => s.(keys := WithMembers(s.keys, deviceId, Kept(s, deviceId)))
    case Next(q) => if q in s.calls then Advanced(c, s, q) else s
  }

  function Run(c: TokenConfig, s: State, acts: seq<Action>): State {
    if acts == [] then s else Step(c, Run(c, s, acts[..|acts| - 1]), acts[|acts| - 1])
  }

  // ---- Gone for good -------------------------------------------------------------------------

  /** The generator never returns a token twice. */
  predicate NotReissued(acts: seq<Action>, token: string) {
    forall i :: 0 <= i < |acts| && acts[i].Create? ==> acts[i].token != token
  }

  ghost predicate GoneForGood(c: TokenConfig, s: State, token: string) {
    forall acts :: NotReissued(acts, token) ==> Found(Run(c, s, acts), token) == None
  }

  /** No call under way is about to store a record of the token that has not expired. */
  ghost predicate NoneToStore(s: State, token: string) {
    forall q :: q in s.calls && (s.calls[q].TouchSet? || s.calls[q].CreateSet?) && s.calls[q].h == Sha256(token) ==>
      s.calls[q].record.expiresAt <= s.now
  }

  /** As Found == None, whatever the token's shape. */
  predicate Absent(s: State, h: Digest) {
    Present(s, h) ==> s.keys.tok[h].value.expiresAt <= s.now
  }

  lemma NextStaysAbsent(c: TokenConfig, s: State, q: nat, token: string)
    requires q in s.calls && Absent(s, Sha256(token)) && NoneToStore(s, token)
    ensures Absent(Advanced(c, s, q), Sha256(token)) && NoneToStore(Advanced(c, s, q), token)
  {
  }

  lemma StepStaysAbsent(c: TokenConfig, s: State, a: Action, token: string)
    requires Absent(s, Sha256(token)) && NoneToStore(s, token) && (a.Create? ==> a.token != token)
    ensures Absent(Step(c, s, a), Sha256(token)) && NoneToStore(Step(c, s, a), token)
  {
    if a.Next? && a.q in s.calls {
      NextStaysAbsent(c, s, a.q, token);
    }
  }

  lemma {:induction false} RunStaysAbsent(c: TokenConfig, s: State, acts: seq<Action>, token: string)
    requires Absent(s, Sha256(token)) && NoneToStore(s, token) && NotReissued(acts, token)
    ensures Absent(Run(c, s, acts), Sha256(token)) && NoneToStore(Run(c, s, acts), token)
  {
    if acts != [] {
      var before := acts[..|acts| - 1];
      RunStaysAbsent(c, s, before, token);
      StepStaysAbsent(c, Run(c, s, before), acts[|acts| - 1], token);
    }
  }

  lemma OneStep(c: TokenConfig, s: State, a: Action)
    ensures Run(c, s, [a]) == Step(c, s, a)
  {
    assert [a][..0] == [];
  }

  /** A token that cannot be found stays so in every run exactly when no call is about to store it. */
  lemma GoneExactly(c: TokenConfig, s: State, token: string)
    requires c.ttlSeconds > 0 && TokenShaped(token) && Found(s, token) == None
    ensures GoneForGood(c, s, token) <==> NoneToStore(s, token)
  {
    if NoneToStore(s, token) {
      forall acts | NotReissued(acts, token) ensures Found(Run(c, s, acts), token) == None {
        RunStaysAbsent(c, s, acts, token);
      }
    } else {
      var q :| q in s.calls && (s.calls[q].TouchSet? || s.calls[q].CreateSet?) && s.calls[q].h == Sha256(token) &&
               s.now < s.calls[q].record.expiresAt;
      OneStep(c, s, Next(q));
      assert NotReissued([Next(q)], token) && Found(Run(c, s, [Next(q)]), token) == Some(s.calls[q].record);
    }
  }

  /** So a revoke is final exactly when, as it deletes, no touch of the token stands between its reads and its write. */
  lemma RevokeIsFinalExactly(c: TokenConfig, s: State, q: nat, token: string)
    requires c.ttlSeconds > 0 && TokenShaped(token)
    requires q in s.calls && s.calls[q].RevokeDelete? && s.calls[q].h == Sha256(token)
    ensures var s' := Step(c, s, Next(q));
            s'.calls[q] == Over(true) && Found(s', token) == None &&
            (GoneForGood(c, s', token) <==> NoneToStore(s, token))
  {
    var s' := Step(c, s, Next(q));
    GoneExactly(c, s', token);
    assert forall p :: p in s.calls && p != q ==> s'.calls[p] == s.calls[p];
  }

  // ---- A revoke that is not -------------------------------------------------------------------

  lemma {:induction false} RunConcat(c: TokenConfig, s: State, first: seq<Action>, second: seq<Action>)
    ensures Run(c, s, first + second) == Run(c, Run(c, s, first), second)
  {
    hide Step;
    if second == [] {
      assert first + second == first;
    } else {
      var front := second[..|second| - 1];
      RunConcat(c, s, first, front);
      assert (first + second)[..|first + second| - 1] == first + front;
    }
  }

  lemma TwoSteps(c: TokenConfig, s: State, a: Action, b: Action)
    ensures Run(c, s, [a, b]) == Step(c, Step(c, s, a), b)
  {
    hide Step;
    assert [a, b][..1] == [a];
    OneStep(c, s, a);
  }

  function TouchReads(touch: nat, record: TokenRecord): seq<Action> {
    [Touch(touch, record), Next(touch)] + [Next(touch)]
  }

  function WholeRevoke(revoke: nat, record: TokenRecord): seq<Action> {
    [Action.Revoke(revoke, record.deviceId, record.id), Next(revoke)] + [Next(revoke), Next(revoke)]
  }

  /** The touch of a request reads both keys, the whole revoke runs, and the touch writes. */
  function Overlap(touch: nat, revoke: nat, record: TokenRecord): seq<Action> {
    TouchReads(touch, record) + WholeRevoke(revoke, record) + [Next(touch)]
  }

  function Used(record: TokenRecord, t: nat): TokenRecord {
    record.(lastUsedAt := Some(t))
  }

  lemma TouchHasRead(c: TokenConfig, s: State, touch: nat, record: TokenRecord, h: Digest)
    requires touch !in s.calls && UseDue(record.lastUsedAt, s.now)
    requires DigestOf(s, record.id) == Some(h) && Present(s, h) && s.keys.tok[h].value == record
    ensures Run(c, s, TouchReads(touch, record)) == With(s, touch, TouchSet(h, Used(record, s.now)))
  {
    var s1 := Step(c, s, Touch(touch, record));
    assert s1 == With(s, touch, TouchGetId(record.id));
    var s2 := Step(c, s1, Next(touch));
    assert s2 == With(s, touch, TouchGetToken(h));
    var s3 := Step(c, s2, Next(touch));
    assert s3 == With(s, touch, TouchSet(h, Used(record, s.now)));
    hide Step;
    TwoSteps(c, s, Touch(touch, record), Next(touch));
    OneStep(c, s2, Next(touch));
    RunConcat(c, s, [Touch(touch, record), Next(touch)], [Next(touch)]);
  }

  lemma RevokeHasRun(c: TokenConfig, s: State, revoke: nat, record: TokenRecord, h: Digest)
    requires revoke !in s.calls && IdShaped(record.id)
    requires DigestOf(s, record.id) == Some(h) && Present(s, h) && s.keys.tok[h].value == record
    ensures Run(c, s, WholeRevoke(revoke, record)) == With(Deleted(s, record.deviceId, record.id, h), revoke, Over(true))
  {
    var d, id := record.deviceId, record.id;
    var s1 := Step(c, s, Action.Revoke(revoke, d, id));
    assert s1 == With(s, revoke, RevokeGetId(d, id));
    var s2 := Step(c, s1, Next(revoke));
    assert s2 == With(s, revoke, RevokeGetToken(d, id, h));
    var s3 := Step(c, s2, Next(revoke));
    assert s3 == With(s, revoke, RevokeDelete(d, id, h));
    var s4 := Step(c, s3, Next(revoke));
    assert s4 == With(Deleted(s, d, id, h), revoke, Over(true));
    hide Step;
    TwoSteps(c, s, Action.Revoke(revoke, d, id), Next(revoke));
    TwoSteps(c, s2, Next(revoke), Next(revoke));
    RunConcat(c, s, [Action.Revoke(revoke, d, id), Next(revoke)], [Next(revoke), Next(revoke)]);
  }

  /**
   Any live token, due for a touch: its owner's revoke is answered with success, and the token
   can be found again, in no index, with no id to revoke it by, and with no time to live.
   */
  lemma TouchOutlivesRevoke(c: TokenConfig, s: State, token: string, touch: nat, revoke: nat)
    requires Found(s, token).Some?
    requires var record := Found(s, token).value;
             IdShaped(record.id) && DigestOf(s, record.id) == Some(Sha256(token)) && UseDue(record.lastUsedAt, s.now)
    requires touch !in s.calls && revoke !in s.calls && touch != revoke
    ensures var record := Found(s, token).value;
            var s' := Run(c, s, Overlap(touch, revoke, record));
            revoke in s'.calls && s'.calls[revoke] == Over(true) && Found(s', token) == Some(Used(record, s.now)) &&
            DigestOf(s', record.id) == None && record.id !in Members(s'.keys, record.deviceId) && Sha256(token) in s'.lasting
  {
    var record, h := Found(s, token).value, Sha256(token);
    TouchHasRead(c, s, touch, record, h);
    var s3 := With(s, touch, TouchSet(h, Used(record, s.now)));
    RevokeHasRun(c, s3, revoke, record, h);
    var s7 := With(Deleted(s3, record.deviceId, record.id, h), revoke, Over(true));
    OneStep(c, s7, Next(touch));
    var s8 := Step(c, s7, Next(touch));
    assert s8.calls[revoke] == Over(true) && Found(s8, token) == Some(Used(record, s.now));
    hide Run;
    RunConcat(c, s, TouchReads(touch, record), WholeRevoke(revoke, record));
    RunConcat(c, s, TouchReads(touch, record) + WholeRevoke(revoke, record), [Next(touch)]);
  }
}
