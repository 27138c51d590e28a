/** Device tokens in Redis: creates that count first and store later, side by side. */
module RedisCreate {
  import opened Numerals
  import opened Tokens
  import opened RedisTokens

  /** At most `atOnce` creates of one device stand between their count and their MULTI. */
  datatype Config = Config(tokens: TokenConfig, atOnce: nat)

  datatype State = State(now: nat, keys: Keys, pending: map<nat, (Digest, TokenRecord)>)

  datatype Action =
    | Tick(ms: nat)
    | Count(q: nat, deviceId: string, labelText: string, token: string, id: string)
    | Store(q: nat)
    | Revoke(deviceId: string, id: string)
    | List(deviceId: string)

  const START: State := State(0, Keys(map[], map[], map[]), map[])

  function UnderWay(s: State, deviceId: string): set<nat> {
    Creating(s.pending, deviceId)
  }

  function Creating(pending: map<nat, (Digest, TokenRecord)>, deviceId: string): set<nat> {
    set q | q in pending && pending[q].1.deviceId == deviceId
  }

  /** Random values never repeat, neither in a key nor in an index. */
  predicate Unused(r: Keys, h: Digest, id: string) {
    h !in r.tok && id !in r.tokid && (forall d :: d in r.devtok ==> id !in r.devtok[d]) &&
    forall other :: other in r.tokid ==> r.tokid[other].value != h
  }

  function WithToken(r: Keys, h: Digest, record: TokenRecord, until: nat): Keys {
    Keys(r.tok[h := Cell(record, until)], r.tokid[record.id := Cell(h, until)],
         r.devtok[record.deviceId := Members(r, record.deviceId) + {record.id}])
  }

  function Step(c: Config, s: State, a: Action): State {
    match a
    case Tick(ms) => s.(now := s.now + ms)
    case Count(q, deviceId, labelText, token, id) =>
      if q in s.pending || |UnderWay(s, deviceId)| >= c.atOnce then s
      else
        var s1 := s.(keys := Cleaned(s.keys, deviceId, s.now));
        if |Resolved(s.keys, deviceId, s.now)| >= c.tokens.maxPerDevice then s1
        else s1.(pending := s.pending[q := (Sha256(token), NewRecord(c.tokens, id, deviceId, labelText, s.now))])
    case Store(q) =>
      if q in s.pending && Unused(s.keys, s.pending[q].0, s.pending[q].1.id)
      then State(s.now, WithToken(s.keys, s.pending[q].0, s.pending[q].1, s.now + c.tokens.ttlSeconds * 1000), s.pending - {q})
      else s
    case Revoke(deviceId, id) => s.(keys := OnRedis(c.tokens, s.keys, Op.Revoke(deviceId, id), s.now).0)
    case List(deviceId) => s.(keys := Cleaned(s.keys, deviceId, s.now))
  }

  function Run(c: Config, acts: seq<Action>): State {
    if acts == [] then START else Step(c, Run(c, acts[..|acts| - 1]), acts[|acts| - 1])
  }

  function TokensOf(s: State, deviceId: string): nat {
    |Resolved(s.keys, deviceId, s.now)|
  }

  // ---- No more than the limit and those under way ----------------------------------------------

  ghost predicate Within(c: Config, s: State, d: string) {
    |UnderWay(s, d)| <= c.atOnce && TokensOf(s, d) + |UnderWay(s, d)| <= c.tokens.maxPerDevice - 1 + c.atOnce
  }

  lemma Fewer(a: set<string>, b: set<string>)
    requires a <= b
    ensures |a| <= |b|
  {
    assert b == a + (b - a);
  }

  lemma CleanedResolves(r: Keys, deviceId: string, t: nat, d: string)
    ensures Resolved(Cleaned(r, deviceId, t), d, t) == Resolved(r, d, t)
  {
  }

  lemma StoredResolves(r: Keys, h: Digest, record: TokenRecord, until: nat, t: nat, d: string)
    requires Unused(r, h, record.id)
    ensures Resolved(WithToken(r, h, record, until), d, t) ==
            Resolved(r, d, t) + if d == record.deviceId && t < until then {record.id} else {}
    ensures record.id !in Resolved(r, d, t)
  {
    var r' := WithToken(r, h, record, until);
    assert forall id :: id != record.id ==> (Resolves(r', id, t) <==> Resolves(r, id, t));
    assert Members(r', d) == Members(r, d) + if d == record.deviceId then {record.id} else {};
  }

  lemma StoredCounts(r: Keys, h: Digest, record: TokenRecord, until: nat, t: nat, d: string)
    requires Unused(r, h, record.id)
    ensures |Resolved(WithToken(r, h, record, until), d, t)| ==
            |Resolved(r, d, t)| + if d == record.deviceId && t < until then 1 else 0
  {
    hide Resolved, Unused;
    StoredResolves(r, h, record, until, t, d);
  }

  lemma CreatingOneMore(pending: map<nat, (Digest, TokenRecord)>, q: nat, entry: (Digest, TokenRecord), d: string)
    requires q !in pending
    ensures |Creating(pending[q := entry], d)| == |Creating(pending, d)| + if entry.1.deviceId == d then 1 else 0
  {
    assert Creating(pending[q := entry], d) == Creating(pending, d) + if entry.1.deviceId == d then {q} else {};
  }

  lemma CreatingOneLess(pending: map<nat, (Digest, TokenRecord)>, q: nat, d: string)
    requires q in pending
    ensures |Creating(pending - {q}, d)| == |Creating(pending, d)| - if pending[q].1.deviceId == d then 1 else 0
  {
    assert Creating(pending, d) == Creating(pending - {q}, d) + if pending[q].1.deviceId == d then {q} else {};
  }

  lemma CountWithin(c: Config, s: State, q: nat, deviceId: string, labelText: string, token: string, id: string, d: string)
    requires Within(c, s, d)
    ensures Within(c, Step(c, s, Count(q, deviceId, labelText, token, id)), d)
  {
    hide Resolved, Creating, Cleaned;
    CleanedResolves(s.keys, deviceId, s.now, d);
    if q !in s.pending {
      CreatingOneMore(s.pending, q, (Sha256(token), NewRecord(c.tokens, id, deviceId, labelText, s.now)), d);
    }
  }

  lemma StoreWithin(c: Config, s: State, q: nat, d: string)
    requires Within(c, s, d)
    ensures Within(c, Step(c, s, Store(q)), d)
  {
    hide Resolved, Creating, WithToken, Unused;
    if q in s.pending && Unused(s.keys, s.pending[q].0, s.pending[q].1.id) {
      var (h, record) := s.pending[q];
      StoredCounts(s.keys, h, record, s.now + c.tokens.ttlSeconds * 1000, s.now, d);
      CreatingOneLess(s.pending, q, d);
    }
  }

  lemma RevokeWithin(c: Config, s: State, deviceId: string, id: string, d: string)
    requires Within(c, s, d)
    ensures Within(c, Step(c, s, Action.Revoke(deviceId, id)), d)
  {
    var s' := Step(c, s, Action.Revoke(deviceId, id));
    Fewer(Resolved(s'.keys, d, s.now), Resolved(s.keys, d, s.now));
  }

  lemma StepWithin(c: Config, s: State, a: Action, d: string)
    requires Within(c, s, d)
    ensures Within(c, Step(c, s, a), d)
  {
    match a
    case Tick(ms) => Fewer(Resolved(s.keys, d, s.now + ms), Resolved(s.keys, d, s.now));
    case Count(q, deviceId, labelText, token, id) => CountWithin(c, s, q, deviceId, labelText, token, id, d);
    case Store(q) => StoreWithin(c, s, q, d);
    case Revoke(deviceId, id) => RevokeWithin(c, s, deviceId, id, d);
    case List(deviceId) => CleanedResolves(s.keys, deviceId, s.now, d);
  }

  lemma {:induction false} RunWithin(c: Config, acts: seq<Action>, d: string)
    requires c.tokens.maxPerDevice >= 1
    ensures Within(c, Run(c, acts), d)
  {
    if acts == [] {
      assert UnderWay(START, d) == {} && Resolved(START.keys, d, 0) == {};
    } else {
      RunWithin(c, acts[..|acts| - 1], d);
      StepWithin(c, Run(c, acts[..|acts| - 1]), acts[|acts| - 1], d);
    }
  }

  // ---- And that many are reached -------------------------------------------------------------------

  function CountOf(i: nat): Action {
    Count(i, "TEST", "", Print(i), Print(i))
  }

  /** m creates one after the other. */
  function Filling(m: nat): seq<Action> {
    if m == 0 then [] else Filling(m - 1) + [CountOf(m - 1)] + [Store(m - 1)]
  }

  /** Then k that have all counted. */
  function Counting(m: nat, k: nat): seq<Action> {
    if k == 0 then Filling(m) else Counting(m, k - 1) + [CountOf(m + k - 1)]
  }

  /** Then j of these stored. */
  function Storing(m: nat, k: nat, j: nat): seq<Action> {
    if j == 0 then Counting(m, k) else Storing(m, k, j - 1) + [Store(m + j - 1)]
  }

  function Names(n: nat): set<string> {
    set i | 0 <= i < n :: Print(i)
  }

  /** Keys and indexes hold only the first n numbers. */
  ghost predicate Named(r: Keys, n: nat) {
    (forall h :: h in r.tok ==> h.of in Names(n)) &&
    (forall id :: id in r.tokid ==> id in Names(n) && r.tokid[id].value.of in Names(n)) &&
    (forall d :: d in r.devtok ==> r.devtok[d] <= Names(n))
  }

  function Entry(c: Config, q: nat): (Digest, TokenRecord) {
    (Sha256(Print(q)), NewRecord(c.tokens, Print(q), "TEST", "", 0))
  }

  function Entries(c: Config, n: nat, end: nat): map<nat, (Digest, TokenRecord)> {
    map q: nat | n <= q < end :: Entry(c, q)
  }

  /** The first n numbers are in use, and those from there up to `end` are under way. */
  ghost predicate Filled(c: Config, s: State, n: nat, end: nat) {
    s.now == 0 && n <= end && Named(s.keys, n) && s.pending == Entries(c, n, end) && TokensOf(s, "TEST") == n
  }

  lemma NewName(n: nat)
    ensures Print(n) !in Names(n) && Names(n + 1) == Names(n) + {Print(n)}
  {
    forall i | 0 <= i < n ensures Print(i) != Print(n) {
      ParsePrint(i);
      ParsePrint(n);
    }
  }

  lemma RunLast(c: Config, acts: seq<Action>, a: Action)
    ensures Run(c, acts + [a]) == Step(c, Run(c, acts), a)
  {
    hide Step;
    assert (acts + [a])[..|acts|] == acts;
  }

  lemma {:induction false} EntriesSize(c: Config, n: nat, end: nat)
    requires n <= end
    ensures |Creating(Entries(c, n, end), "TEST")| == end - n
    decreases end
  {
    if n == end {
      assert Creating(Entries(c, n, end), "TEST") == {};
    } else {
      EntriesSize(c, n, end - 1);
      CreatingOneMore(Entries(c, n, end - 1), end - 1, Entry(c, end - 1), "TEST");
      assert Entries(c, n, end) == Entries(c, n, end - 1)[end - 1 := Entry(c, end - 1)];
    }
  }

  lemma CleanedNamed(r: Keys, deviceId: string, t: nat, n: nat)
    requires Named(r, n)
    ensures Named(Cleaned(r, deviceId, t), n)
  {
  }

  lemma StoredNamed(c: Config, r: Keys, n: nat, until: nat)
    requires Named(r, n)
    ensures Unused(r, Entry(c, n).0, Print(n)) && Named(WithToken(r, Entry(c, n).0, Entry(c, n).1, until), n + 1)
  {
    NewName(n);
    hide Names;
  }

  lemma CountFills(c: Config, s: State, n: nat, end: nat)
    requires Filled(c, s, n, end) && n < c.tokens.maxPerDevice && end - n < c.atOnce
    ensures Filled(c, Step(c, s, CountOf(end)), n, end + 1)
  {
    assert Entries(c, n, end)[end := Entry(c, end)] == Entries(c, n, end + 1) && end !in Entries(c, n, end);
    EntriesSize(c, n, end);
    CleanedResolves(s.keys, "TEST", 0, "TEST");
    CleanedNamed(s.keys, "TEST", 0, n);
    hide Named, Entries, Resolved, Creating, Cleaned;
  }

  lemma FirstEntry(c: Config, n: nat, end: nat)
    requires n < end
    ensures n in Entries(c, n, end) && Entries(c, n, end)[n] == Entry(c, n)
    ensures Entries(c, n, end) - {n} == Entries(c, n + 1, end)
  {
  }

  lemma StoreFills(c: Config, s: State, n: nat, end: nat)
    requires Filled(c, s, n, end) && n < end && c.tokens.ttlSeconds > 0
    ensures Filled(c, Step(c, s, Store(n)), n + 1, end)
  {
    hide Named, Entries, Resolved, WithToken, Unused;
    FirstEntry(c, n, end);
    var until := c.tokens.ttlSeconds * 1000;
    StoredNamed(c, s.keys, n, until);
    StoredCounts(s.keys, Entry(c, n).0, Entry(c, n).1, until, 0, "TEST");
  }

  lemma {:induction false} FillingFills(c: Config, m: nat)
    requires m < c.tokens.maxPerDevice && c.atOnce >= 1 && c.tokens.ttlSeconds > 0
    ensures Filled(c, Run(c, Filling(m)), m, m)
  {
    if m == 0 {
      assert Resolved(START.keys, "TEST", 0) == {};
    } else {
      hide Filled, Step, Run;
      FillingFills(c, m - 1);
      var s := Run(c, Filling(m - 1));
      CountFills(c, s, m - 1, m - 1);
      StoreFills(c, Step(c, s, CountOf(m - 1)), m - 1, m);
      RunLast(c, Filling(m - 1), CountOf(m - 1));
      RunLast(c, Filling(m - 1) + [CountOf(m - 1)], Store(m - 1));
    }
  }

  lemma {:induction false} CountingFills(c: Config, m: nat, k: nat)
    requires m < c.tokens.maxPerDevice && 1 <= c.atOnce && k <= c.atOnce && c.tokens.ttlSeconds > 0
    ensures Filled(c, Run(c, Counting(m, k)), m, m + k)
  {
    hide Filled, Step, Run;
    if k == 0 {
      FillingFills(c, m);
    } else {
      CountingFills(c, m, k - 1);
      CountFills(c, Run(c, Counting(m, k - 1)), m, m + k - 1);
      RunLast(c, Counting(m, k - 1), CountOf(m + k - 1));
    }
  }

  lemma {:induction false} StoringFills(c: Config, m: nat, k: nat, j: nat)
    requires m < c.tokens.maxPerDevice && 1 <= c.atOnce && j <= k <= c.atOnce && c.tokens.ttlSeconds > 0
    ensures Filled(c, Run(c, Storing(m, k, j)), m + j, m + k)
  {
    hide Filled, Step, Run;
    if j == 0 {
      CountingFills(c, m, k);
    } else {
      StoringFills(c, m, k, j - 1);
      StoreFills(c, Run(c, Storing(m, k, j - 1)), m + j - 1, m + k);
      RunLast(c, Storing(m, k, j - 1), Store(m + j - 1));
    }
  }

  ghost predicate NeverMoreThan(c: Config, bound: int) {
    forall acts, d :: TokensOf(Run(c, acts), d) <= bound
  }

  /** With k creates of a device at once, a bound on its tokens holds in all runs exactly from limit + k - 1 on. */
  lemma CreateBoundExact(c: Config, bound: int)
    requires c.tokens.maxPerDevice >= 1 && c.atOnce >= 1 && c.tokens.ttlSeconds > 0
    ensures NeverMoreThan(c, bound) <==> c.tokens.maxPerDevice + c.atOnce - 1 <= bound
  {
    var m := c.tokens.maxPerDevice - 1;
    if m + c.atOnce <= bound {
      forall acts, d ensures TokensOf(Run(c, acts), d) <= bound { RunWithin(c, acts, d); }
    } else {
      StoringFills(c, m, c.atOnce, c.atOnce);
      assert TokensOf(Run(c, Storing(m, c.atOnce, c.atOnce)), "TEST") == m + c.atOnce;
    }
  }
}
