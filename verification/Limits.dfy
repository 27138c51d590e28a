/**
 The attempt budgets and the replay claims, in three forms:
 - Forgetful, which may drop records that are old enough (what both real stores are),
 - Perfect, which never drops anything (the specification),
 - Redis keys with a time to live.
 Times are milliseconds since the epoch.
 */
module Limits {
  import opened Numerals

  const STEP_SECONDS: nat := 90
  const STEP_MS: nat := 90_000
  const MINUTE_MS: nat := 60_000
  const CLAIM_TTL_MS: nat := STEP_SECONDS * 4 * 1000

  function WindowOf(ms: nat): nat {
    ms / STEP_MS
  }

  function MinuteOf(ms: nat): nat {
    ms / MINUTE_MS
  }

  // ---- Keys: "<who>:<slot>" -------------------------------------------------

  function AttemptKey(who: string, slot: nat): string {
    who + ":" + Print(slot)
  }

  /** Index of the last occurrence of c, or -1. */
  function LastIndexOf(s: string, c: char): (i: int)
    ensures -1 <= i < |s|
    ensures i >= 0 ==> s[i] == c
    ensures forall j :: i < j < |s| ==> s[j] != c
  {
    if s == "" then -1
    else if s[|s| - 1] == c then |s| - 1
    else LastIndexOf(s[..|s| - 1], c)
  }

  /** Number(text) for the texts that occur here; None stands for NaN. */
  function ToNumber(text: string): Option<nat> {
    if AllDigits(text) then Some(Parse(text)) else None
  }

  function Suffix(key: string): Option<nat> {
    ToNumber(key[LastIndexOf(key, ':') + 1..])
  }

  /** The slot is read back whatever the name contains, IPv6 colons included. */
  lemma SuffixOfKey(who: string, slot: nat)
    ensures Suffix(AttemptKey(who, slot)) == Some(slot)
  {
    ParsePrint(slot);
    var key := AttemptKey(who, slot);
    var i := LastIndexOf(key, ':');
    assert key[|who|] == ':';
    assert forall j :: |who| < j < |key| ==> key[j] == Print(slot)[j - |who| - 1];
    assert i == |who|;
    assert key[i + 1..] == Print(slot);
  }

  lemma KeyInjective(who1: string, slot1: nat, who2: string, slot2: nat)
    requires AttemptKey(who1, slot1) == AttemptKey(who2, slot2)
    ensures who1 == who2 && slot1 == slot2
  {
    SuffixOfKey(who1, slot1);
    SuffixOfKey(who2, slot2);
    var key := AttemptKey(who1, slot1);
    assert key[..|key| - |":" + Print(slot1)|] == who1;
    assert key[..|key| - |":" + Print(slot2)|] == who2;
  }

  // ---- The operations --------------------------------------------------------

  datatype Claim = Claim(counter: nat, expiresAt: nat)

  datatype Limiter =
    | Forgetful(claims: map<string, Claim>, devices: map<string, nat>, ips: map<string, nat>)
    | Perfect(best: map<string, nat>, devices: map<string, nat>, ips: map<string, nat>)

  function Count(attempts: map<string, nat>, key: string): nat {
    if key in attempts then attempts[key] else 0
  }

  function Bumped(attempts: map<string, nat>, key: string): map<string, nat> {
    attempts[key := Count(attempts, key) + 1]
  }

  /** Whether an expiring claim table accepts `counter` at time t. */
  predicate ClaimAccepted(claims: map<string, Claim>, id: string, counter: nat, t: nat) {
    !(id in claims && claims[id].expiresAt > t && counter <= claims[id].counter)
  }

  function Claimed(claims: map<string, Claim>, id: string, counter: nat, t: nat): map<string, Claim> {
    if ClaimAccepted(claims, id, counter, t)
    then claims[id := Claim(counter, t + CLAIM_TTL_MS)]
    else claims
  }

  function AllowIp(l: Limiter, ip: string, minute: nat, limit: int): (Limiter, bool) {
    var ips := Bumped(l.ips, AttemptKey(ip, minute));
    (l.(ips := ips), ips[AttemptKey(ip, minute)] <= limit)
  }

  function AllowDevice(l: Limiter, id: string, window: nat, limit: int): (Limiter, bool) {
    var devices := Bumped(l.devices, AttemptKey(id, window));
    (l.(devices := devices), devices[AttemptKey(id, window)] <= limit)
  }

  function ClaimCounter(l: Limiter, id: string, counter: nat, t: nat): (Limiter, bool) {
    match l
    case Forgetful(claims, _, _) =>
      (l.(claims := Claimed(claims, id, counter, t)), ClaimAccepted(claims, id, counter, t))
    case Perfect(best, _, _) =>
      if id in best && counter <= best[id] then (l, false)
      else (l.(best := best[id := counter]), true)
  }

  // ---- Forgetting ------------------------------------------------------------

  datatype Dropped = Dropped(claims: set<string>, devices: set<string>, ips: set<string>)

  /** The slot ended at least `delay` ms ago, so no command about it can still arrive. */
  predicate SlotOver(key: string, length: nat, now: nat, delay: nat) {
    match Suffix(key)
    case Some(slot) => slot * length + length + delay <= now
    case None => false
  }

  predicate MayForget(l: Limiter, drop: Dropped, now: nat, delay: nat) {
    && (l.Forgetful? ==> forall id :: id in drop.claims && id in l.claims ==> l.claims[id].expiresAt <= now)
    && (forall k :: k in drop.devices && k in l.devices ==> SlotOver(k, STEP_MS, now, delay))
    && (forall k :: k in drop.ips && k in l.ips ==> SlotOver(k, MINUTE_MS, now, delay))
  }

  /** The perfect limiter ignores every request to forget. */
  function Forgot(l: Limiter, drop: Dropped): Limiter {
    match l
    case Forgetful(claims, devices, ips) =>
      Forgetful(claims - drop.claims, devices - drop.devices, ips - drop.ips)
    case Perfect(_, _, _) => l
  }

  /** The counter lies in the verifier's window of one step either side of t. */
  predicate InWindow(counter: nat, t: nat) {
    WindowOf(t) <= counter + 1 && counter <= WindowOf(t) + 1
  }

  // ---- Forgetful and Perfect agree -------------------------------------------

  ghost predicate SameCounts(f: map<string, nat>, p: map<string, nat>, length: nat, now: nat, delay: nat) {
    forall k :: k in f || k in p ==> SlotOver(k, length, now, delay) || Count(f, k) == Count(p, k)
  }

  /**
   Either the forgetful table still holds the best counter, or that counter is at
   least three steps old: 270 000 ms is the TTL less one step of window tolerance.
   */
  ghost predicate SameClaims(f: map<string, Claim>, best: map<string, nat>, now: nat) {
    && (forall id :: id in f ==> id in best && best[id] == f[id].counter)
    && (forall id :: id in best ==>
         best[id] * STEP_MS + 3 * STEP_MS <= if id in f then f[id].expiresAt else now)
  }

  ghost predicate Agree(f: Limiter, p: Limiter, now: nat, delay: nat) {
    && f.Forgetful? && p.Perfect?
    && SameClaims(f.claims, p.best, now)
    && SameCounts(f.devices, p.devices, STEP_MS, now, delay)
    && SameCounts(f.ips, p.ips, MINUTE_MS, now, delay)
  }

  lemma AgreeLater(f: Limiter, p: Limiter, now: nat, later: nat, delay: nat)
    requires Agree(f, p, now, delay) && now <= later
    ensures Agree(f, p, later, delay)
  {
  }

  lemma AgreeForget(f: Limiter, p: Limiter, drop: Dropped, now: nat, delay: nat)
    requires Agree(f, p, now, delay) && MayForget(f, drop, now, delay)
    ensures Agree(Forgot(f, drop), p, now, delay)
  {
    var g := Forgot(f, drop);
    forall k | k in g.devices || k in p.devices
      ensures SlotOver(k, STEP_MS, now, delay) || Count(g.devices, k) == Count(p.devices, k)
    {
      if k in drop.devices && k in f.devices { assert SlotOver(k, STEP_MS, now, delay); }
    }
    forall k | k in g.ips || k in p.ips
      ensures SlotOver(k, MINUTE_MS, now, delay) || Count(g.ips, k) == Count(p.ips, k)
    {
      if k in drop.ips && k in f.ips { assert SlotOver(k, MINUTE_MS, now, delay); }
    }
  }

  /** A command about the slot that was current when it was sent finds the true count. */
  lemma BumpAgrees(f: map<string, nat>, p: map<string, nat>, who: string, slot: nat, length: nat, now: nat, delay: nat)
    requires now < slot * length + length + delay
    requires SameCounts(f, p, length, now, delay)
    ensures var key := AttemptKey(who, slot);
            Bumped(f, key)[key] == Bumped(p, key)[key] &&
            SameCounts(Bumped(f, key), Bumped(p, key), length, now, delay)
  {
    var key := AttemptKey(who, slot);
    SuffixOfKey(who, slot);
    assert !SlotOver(key, length, now, delay);
  }

  /** A claim of a counter matched at most one step ago is answered as if nothing were forgotten. */
  lemma ClaimAgrees(f: Limiter, p: Limiter, id: string, counter: nat, matchedAt: nat, now: nat, delay: nat)
    requires Agree(f, p, now, delay)
    requires matchedAt <= now <= matchedAt + STEP_MS && InWindow(counter, matchedAt)
    ensures ClaimCounter(f, id, counter, now).1 == ClaimCounter(p, id, counter, now).1
    ensures Agree(ClaimCounter(f, id, counter, now).0, ClaimCounter(p, id, counter, now).0, now, delay)
  {
  }
}
