/**
 The Redis limiter: counters and claims are keys with a time to live, and each
 script runs as one step on the server. A key set with EX n is readable for
 n seconds and gone afterwards. The families "ip:", "dev:" and "used:" are kept
 apart, as their prefixes keep them apart on the server.
 */
module RedisLimiter {
  import opened Limits

  datatype Cell = Cell(value: nat, expireAt: nat)
  type Family = map<string, Cell>
  datatype Keyspace = Keyspace(ip: Family, dev: Family, used: Family)

  predicate Live(keys: Family, key: string, t: nat) {
    key in keys && t < keys[key].expireAt
  }

  // ---- The two scripts ---------------------------------------------------------

  /** INCR; the expiry is set on first use only. */
  function IncrExpire(keys: Family, key: string, seconds: nat, t: nat): Family {
    if Live(keys, key, t)
    then keys[key := Cell(keys[key].value + 1, keys[key].expireAt)]
    else keys[key := Cell(1, t + seconds * 1000)]
  }

  function ClaimScript(keys: Family, key: string, counter: nat, seconds: nat, t: nat): (Family, nat) {
    var last: int := if Live(keys, key, t) then keys[key].value else -1;
    if counter <= last then (keys, 0) else (keys[key := Cell(counter, t + seconds * 1000)], 1)
  }

  // ---- What the keyspace means -------------------------------------------------

  function Counters(keys: Family, t: nat): map<string, nat> {
    map key | key in keys && Live(keys, key, t) :: keys[key].value
  }

  function Claims(keys: Family, t: nat): map<string, Claim> {
    map key | key in keys && Live(keys, key, t) :: Claim(keys[key].value, keys[key].expireAt)
  }

  /** The forgetful limiter that the readable keys amount to at time t. */
  function View(keys: Keyspace, t: nat): Limiter {
    Forgetful(Claims(keys.used, t), Counters(keys.dev, t), Counters(keys.ip, t))
  }

  predicate OutlivesSlot(key: string, cell: Cell, length: nat) {
    match Suffix(key)
    case Some(slot) => slot * length + length + length <= cell.expireAt
    case None => false
  }

  /** Every counter outlives its slot by one slot length: the TTL is two lengths. */
  predicate LongLived(keys: Family, length: nat) {
    forall key :: key in keys ==> OutlivesSlot(key, keys[key], length)
  }

  predicate Valid(keys: Keyspace) {
    LongLived(keys.dev, STEP_MS) && LongLived(keys.ip, MINUTE_MS)
  }

  // ---- Each script is one step of the forgetful limiter --------------------------

  lemma NewKeyOutlivesSlot(who: string, slot: nat, length: nat, ttl: nat, t: nat)
    requires slot * length <= t && ttl * 1000 == length + length
    ensures OutlivesSlot(AttemptKey(who, slot), Cell(1, t + ttl * 1000), length)
  {
    SuffixOfKey(who, slot);
  }

  lemma CountersPut(keys: Family, key: string, cell: Cell, t: nat)
    requires t < cell.expireAt
    ensures Counters(keys[key := cell], t) == Counters(keys, t)[key := cell.value]
  {
  }

  lemma LongLivedPut(keys: Family, key: string, cell: Cell, length: nat)
    requires LongLived(keys, length) && OutlivesSlot(key, cell, length)
    ensures LongLived(keys[key := cell], length)
  {
  }

  lemma IncrIsBump(keys: Family, key: string, length: nat, ttl: nat, t: nat)
    requires LongLived(keys, length) && ttl > 0
    requires OutlivesSlot(key, Cell(1, t + ttl * 1000), length)
    ensures var after := IncrExpire(keys, key, ttl, t);
            LongLived(after, length) && Live(after, key, t) &&
            Counters(after, t) == Bumped(Counters(keys, t), key)
  {
    var cell := IncrExpire(keys, key, ttl, t)[key];
    if Live(keys, key, t) {
      assert OutlivesSlot(key, keys[key], length);
    }
    CountersPut(keys, key, cell, t);
    LongLivedPut(keys, key, cell, length);
  }

  lemma ClaimIsClaim(keys: Family, id: string, counter: nat, t: nat)
    ensures var (after, answer) := ClaimScript(keys, id, counter, STEP_SECONDS * 4, t);
            (answer == 1 <==> ClaimAccepted(Claims(keys, t), id, counter, t)) &&
            Claims(after, t) == Claimed(Claims(keys, t), id, counter, t)
  {
  }

  function Expired(keys: Family, t: nat, later: nat): set<string> {
    set key | key in keys && Live(keys, key, t) && !Live(keys, key, later)
  }

  lemma CountersExpire(keys: Family, length: nat, t: nat, later: nat, delay: nat)
    requires LongLived(keys, length) && t <= later && delay <= length
    ensures Counters(keys, later) == Counters(keys, t) - Expired(keys, t, later)
    ensures forall key :: key in Expired(keys, t, later) ==> SlotOver(key, length, later, delay)
  {
    forall key | key in Expired(keys, t, later) ensures SlotOver(key, length, later, delay) {
      assert OutlivesSlot(key, keys[key], length);
    }
  }

  lemma ClaimsExpire(keys: Family, t: nat, later: nat)
    requires t <= later
    ensures Claims(keys, later) == Claims(keys, t) - Expired(keys, t, later)
    ensures forall id :: id in Expired(keys, t, later) ==> Claims(keys, t)[id].expiresAt <= later
  {
  }

  /**
   As time passes Redis only drops what the forgetful limiter may drop, for any
   command delay up to one minute.
   */
  lemma ExpiryIsForgetting(keys: Keyspace, t: nat, later: nat, delay: nat)
    requires Valid(keys) && t <= later && delay <= MINUTE_MS
    ensures exists drop :: MayForget(View(keys, t), drop, later, delay) &&
                           View(keys, later) == Forgot(View(keys, t), drop)
  {
    var drop := Dropped(Expired(keys.used, t, later), Expired(keys.dev, t, later), Expired(keys.ip, t, later));
    ClaimsExpire(keys.used, t, later);
    CountersExpire(keys.dev, STEP_MS, t, later, delay);
    CountersExpire(keys.ip, MINUTE_MS, t, later, delay);
    assert MayForget(View(keys, t), drop, later, delay);
  }

  // ---- The store -----------------------------------------------------------------

  class RedisLimiter {
    var keys: Keyspace
    const attemptsPerWindow: int
    const ipAttemptsPerMinute: int

    constructor (attemptsPerWindow: int, ipAttemptsPerMinute: int)
      ensures keys == Keyspace(map[], map[], map[]) && Valid(keys)
      ensures this.attemptsPerWindow == attemptsPerWindow && this.ipAttemptsPerMinute == ipAttemptsPerMinute
    {
      keys := Keyspace(map[], map[], map[]);
      this.attemptsPerWindow := attemptsPerWindow;
      this.ipAttemptsPerMinute := ipAttemptsPerMinute;
    }

    /** The minute is read at askedAt by the web tier; the script runs on the server at t. */
    method AllowIp(ip: string, askedAt: nat, t: nat) returns (ok: bool)
      requires Valid(keys) && askedAt <= t
      modifies this
      ensures Valid(keys)
      ensures (View(keys, t), ok) == Limits.AllowIp(View(old(keys), t), ip, MinuteOf(askedAt), ipAttemptsPerMinute)
      ensures ok <==> Count(View(old(keys), t).ips, AttemptKey(ip, askedAt / 60_000)) < ipAttemptsPerMinute
      ensures Count(View(keys, t).ips, AttemptKey(ip, askedAt / 60_000)) ==
              Count(View(old(keys), t).ips, AttemptKey(ip, askedAt / 60_000)) + 1
    {
      var key := AttemptKey(ip, MinuteOf(askedAt));
      NewKeyOutlivesSlot(ip, MinuteOf(askedAt), MINUTE_MS, 120, t);
      IncrIsBump(keys.ip, key, MINUTE_MS, 120, t);
      keys := keys.(ip := IncrExpire(keys.ip, key, 120, t));
      ok := keys.ip[key].value <= ipAttemptsPerMinute;
      assert Counters(keys.ip, t)[key] == keys.ip[key].value;
    }

    method AllowDevice(id: string, askedAt: nat, t: nat) returns (ok: bool)
      requires Valid(keys) && askedAt <= t
      modifies this
      ensures Valid(keys)
      ensures (View(keys, t), ok) == Limits.AllowDevice(View(old(keys), t), id, WindowOf(askedAt), attemptsPerWindow)
      ensures ok <==> Count(View(old(keys), t).devices, AttemptKey(id, askedAt / 90_000)) < attemptsPerWindow
      ensures Count(View(keys, t).devices, AttemptKey(id, askedAt / 90_000)) ==
              Count(View(old(keys), t).devices, AttemptKey(id, askedAt / 90_000)) + 1
    {
      var key := AttemptKey(id, WindowOf(askedAt));
      NewKeyOutlivesSlot(id, WindowOf(askedAt), STEP_MS, STEP_SECONDS * 2, t);
      IncrIsBump(keys.dev, key, STEP_MS, STEP_SECONDS * 2, t);
      keys := keys.(dev := IncrExpire(keys.dev, key, STEP_SECONDS * 2, t));
      ok := keys.dev[key].value <= attemptsPerWindow;
      assert Counters(keys.dev, t)[key] == keys.dev[key].value;
    }

    method Claim(id: string, counter: nat, t: nat) returns (ok: bool)
      requires Valid(keys)
      modifies this
      ensures Valid(keys)
      ensures (View(keys, t), ok) == ClaimCounter(View(old(keys), t), id, counter, t)
    {
      ClaimIsClaim(keys.used, id, counter, t);
      var (after, answer) := ClaimScript(keys.used, id, counter, STEP_SECONDS * 4, t);
      keys := keys.(used := after);
      ok := answer == 1;
    }
  }
}
