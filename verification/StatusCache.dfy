/**
 Whether a device is still active, as the web tier sees it: a short-lived cache over
 a verifier that answers later, wrongly ordered, or not at all.
 */
module StatusCache {
  import opened Numerals
  import opened Ids

  datatype Entry = Entry(active: bool, until: nat)

  /** What the verifier client reports: a yes, a no, or any failure. */
  datatype Status = Active | Inactive | Error

  // ---- The cache, step by step ---------------------------------------------------

  function Hit(cache: map<string, Entry>, id: string, t: nat): Option<bool> {
    if id in cache && t < cache[id].until then Some(cache[id].active) else None
  }

  function Settled(cache: map<string, Entry>, id: string, status: Status, t: nat, ttl: nat): map<string, Entry> {
    if status.Error? then cache - {id} else cache[id := Entry(status.Active?, t + ttl)]
  }

  class StatusChecker {
    var cache: map<string, Entry>
    const ttlMs: nat

    constructor (ttlMs: nat)
      ensures cache == map[] && this.ttlMs == ttlMs
    {
      cache := map[];
      this.ttlMs := ttlMs;
    }

    /** isActive up to its await. */
    method Begin(id: string, t: nat) returns (hit: Option<bool>)
      ensures hit == Hit(cache, id, t)
      ensures hit == Some(true) ==> id in cache && cache[id].active && t < cache[id].until
    {
      if id in cache && cache[id].until > t {
        return Some(cache[id].active);
      }
      return None;
    }

    /** isActive from its await on. */
    method Finish(id: string, status: Status, t: nat) returns (yes: bool)
      modifies this
      ensures cache == Settled(old(cache), id, status, t, ttlMs)
      ensures yes == status.Active?
      ensures status.Error? ==> id !in cache
    {
      if status.Error? {
        cache := cache - {id};
        return false;
      }
      cache := cache[id := Entry(status.Active?, t + ttlMs)];
      return status.Active?;
    }
  }

  // ---- All callers together --------------------------------------------------------

  /** delay bounds the time from the verifier's look at the keystore to the end of the await. */
  datatype Config = Config(ttl: nat, delay: nat)

  datatype Call =
    | Sent(id: string)
    | Seen(id: string, active: bool, at: nat)
    | Answered(id: string, yes: bool, at: nat)
    | Failed(id: string, at: nat)

  /** A failed call answers no as well. */
  predicate Told(call: Call) {
    call.Answered? || call.Failed?
  }

  predicate SaysYes(call: Call) {
    call.Answered? && call.yes
  }

  /** The verifier looked at the keystore and found the device active, or not. */
  datatype Sighting = Sighting(id: string, on: bool, at: nat)

  datatype State = State(now: nat, active: set<string>, cache: map<string, Entry>, calls: map<nat, Call>,
                         seen: set<Sighting>)

  datatype Action =
    | Tick(ms: nat)
    | SetStatus(id: string, on: bool)
    | Ask(q: nat, id: string)
    | Look(q: nat)
    | Reply(q: nat)
    | Fail(q: nat)

  const START := State(0, {}, map[], map[], {})

  /** An action that is not possible in a state leaves it as it is. */
  function Step(c: Config, s: State, a: Action): State {
    match a
    case Tick(ms) => s.(now := s.now + ms)
    case SetStatus(id, on) => s.(active := if on then s.active + {id} else s.active - {id})
    case Ask(q, id) =>
      if q in s.calls then s
      else
        (match Hit(s.cache, id, s.now)
         case Some(yes) => s.(calls := s.calls[q := Answered(id, yes, s.now)])
         case None =>
           if IsValidId(id) then s.(calls := s.calls[q := Sent(id)])
           else s.(calls := s.calls[q := Answered(id, false, s.now)], cache := Settled(s.cache, id, Inactive, s.now, c.ttl)))
    case Look(q) =>
      if q in s.calls && s.calls[q].Sent?
      then
        var id := s.calls[q].id;
        s.(calls := s.calls[q := Seen(id, id in s.active, s.now)],
           seen := s.seen + {Sighting(id, id in s.active, s.now)})
      else s
    case Reply(q) =>
      if q in s.calls && s.calls[q].Seen? && s.now <= s.calls[q].at + c.delay
      then
        var Seen(id, active, at) := s.calls[q];
        s.(calls := s.calls[q := Answered(id, active, s.now)],
           cache := Settled(s.cache, id, if active then Active else Inactive, s.now, c.ttl))
      else s
    case Fail(q) =>
      if q in s.calls && !Told(s.calls[q])
      then s.(calls := s.calls[q := Failed(s.calls[q].id, s.now)],
              cache := Settled(s.cache, s.calls[q].id, Error, s.now, c.ttl))
      else s
  }

  function Run(c: Config, s: State, acts: seq<Action>): State {
    if acts == [] then s else Step(c, Run(c, s, acts[..|acts| - 1]), acts[|acts| - 1])
  }

  // ---- Every answer is fresh ------------------------------------------------------------

  /** The verifier found `id` active (or not) within the last `age` ms. */
  ghost predicate SeenSince(seen: set<Sighting>, id: string, on: bool, t: nat, age: nat) {
    exists e :: e in seen && e.id == id && e.on == on && e.at <= t <= e.at + age
  }

  /** ttl + delay, less the millisecond at which a cached answer is no longer used. */
  function Age(c: Config): nat {
    if c.ttl == 0 then c.delay else c.ttl + c.delay - 1
  }

  ghost predicate CacheFresh(c: Config, s: State, id: string)
    requires id in s.cache
  {
    if IsValidId(id)
    then exists e :: e in s.seen && e.id == id && e.on == s.cache[id].active && s.cache[id].until <= e.at + c.delay + c.ttl
    else !s.cache[id].active
  }

  ghost predicate CallFresh(c: Config, s: State, call: Call) {
    match call
    case Sent(id) => IsValidId(id)
    case Seen(id, active, at) => IsValidId(id) && Sighting(id, active, at) in s.seen
    case Answered(id, yes, at) => if IsValidId(id) then SeenSince(s.seen, id, yes, at, Age(c)) else !yes
    case Failed(_, _) => true
  }

  ghost predicate Fresh(c: Config, s: State) {
    && (forall e :: e in s.seen ==> e.at <= s.now)
    && (forall id :: id in s.cache ==> CacheFresh(c, s, id))
    && (forall q :: q in s.calls ==> CallFresh(c, s, s.calls[q]))
  }

  lemma CallLater(c: Config, s: State, s': State, call: Call)
    requires CallFresh(c, s, call) && s.seen <= s'.seen
    ensures CallFresh(c, s', call)
  {
    if call.Answered? && IsValidId(call.id) {
      var e :| e in s.seen && e.id == call.id && e.on == call.yes && e.at <= call.at <= e.at + Age(c);
      assert e in s'.seen;
    }
  }

  lemma EntryLater(c: Config, s: State, s': State, id: string)
    requires id in s.cache && CacheFresh(c, s, id) && s.seen <= s'.seen
    requires id in s'.cache && s'.cache[id] == s.cache[id]
    ensures CacheFresh(c, s', id)
  {
    if IsValidId(id) {
      var e :| e in s.seen && e.id == id && e.on == s.cache[id].active && s.cache[id].until <= e.at + c.delay + c.ttl;
      assert e in s'.seen;
    }
  }

  /** Call q has moved on and the entry of its device may have changed; everything else stands. */
  lemma MovedFresh(c: Config, s: State, s': State, q: nat, id: string)
    requires Fresh(c, s) && s.seen <= s'.seen && s'.now >= s.now && forall e :: e in s'.seen ==> e.at <= s'.now
    requires forall p :: p in s'.calls && p != q ==> p in s.calls && s'.calls[p] == s.calls[p]
    requires q in s'.calls ==> CallFresh(c, s', s'.calls[q])
    requires forall other :: other in s'.cache && other != id ==> other in s.cache && s'.cache[other] == s.cache[other]
    requires id in s'.cache ==> CacheFresh(c, s', id)
    ensures Fresh(c, s')
  {
    forall p | p in s'.calls ensures CallFresh(c, s', s'.calls[p]) {
      if p != q { CallLater(c, s, s', s.calls[p]); }
    }
    forall other | other in s'.cache ensures CacheFresh(c, s', other) {
      if other != id { EntryLater(c, s, s', other); }
    }
  }

  lemma AskFresh(c: Config, s: State, q: nat, id: string)
    requires Fresh(c, s)
    ensures Fresh(c, Step(c, s, Ask(q, id)))
  {
    var s' := Step(c, s, Ask(q, id));
    if q !in s.calls {
      var hit := Hit(s.cache, id, s.now);
      if hit.Some? {
        assert CacheFresh(c, s, id);
        if IsValidId(id) {
          var e :| e in s.seen && e.id == id && e.on == s.cache[id].active && s.cache[id].until <= e.at + c.delay + c.ttl;
          assert SeenSince(s'.seen, id, hit.value, s.now, Age(c));
        }
      }
      MovedFresh(c, s, s', q, id);
    }
  }

  lemma LookFresh(c: Config, s: State, q: nat)
    requires Fresh(c, s) && q in s.calls && s.calls[q].Sent?
    ensures Fresh(c, Step(c, s, Look(q)))
  {
    var s', id := Step(c, s, Look(q)), s.calls[q].id;
    assert CallFresh(c, s, s.calls[q]);
    if id in s.cache { EntryLater(c, s, s', id); }
    MovedFresh(c, s, s', q, id);
  }

  lemma ReplyFresh(c: Config, s: State, q: nat)
    requires Fresh(c, s) && q in s.calls && s.calls[q].Seen? && s.now <= s.calls[q].at + c.delay
    ensures Fresh(c, Step(c, s, Reply(q)))
  {
    var Seen(id, active, at) := s.calls[q];
    assert CallFresh(c, s, s.calls[q]);
    var e := Sighting(id, active, at);
    assert e in s.seen && e.id == id && e.on == active && e.at == at;
    MovedFresh(c, s, Step(c, s, Reply(q)), q, id);
  }

  lemma StepFresh(c: Config, s: State, a: Action)
    requires Fresh(c, s)
    ensures Fresh(c, Step(c, s, a))
  {
    var s' := Step(c, s, a);
    match a
    case Ask(q, id) => AskFresh(c, s, q, id);
    case Look(q) => if q in s.calls && s.calls[q].Sent? { LookFresh(c, s, q); }
    case Reply(q) => if q in s.calls && s.calls[q].Seen? && s.now <= s.calls[q].at + c.delay { ReplyFresh(c, s, q); }
    case Fail(q) => if q in s.calls && !Told(s.calls[q]) { MovedFresh(c, s, s', q, s.calls[q].id); }
    case _ => StandsFresh(c, s, s');
  }

  lemma StandsFresh(c: Config, s: State, s': State)
    requires Fresh(c, s) && s'.now >= s.now && s'.seen == s.seen && s'.calls == s.calls && s'.cache == s.cache
    ensures Fresh(c, s')
  {
    forall q | q in s'.calls ensures CallFresh(c, s', s'.calls[q]) { CallLater(c, s, s', s.calls[q]); }
    forall id | id in s'.cache ensures CacheFresh(c, s', id) { EntryLater(c, s, s', id); }
  }

  lemma {:induction false} RunFresh(c: Config, acts: seq<Action>)
    ensures Fresh(c, Run(c, START, acts))
  {
    if acts != [] {
      RunFresh(c, acts[..|acts| - 1]);
      StepFresh(c, Run(c, START, acts[..|acts| - 1]), acts[|acts| - 1]);
    }
  }

  /** Under any interleaving, a yes means the verifier saw the device active no longer ago than ttl + delay. */
  lemma YesIsFresh(c: Config, acts: seq<Action>, q: nat)
    requires var s := Run(c, START, acts); q in s.calls && SaysYes(s.calls[q])
    ensures var s := Run(c, START, acts); SeenSince(s.seen, s.calls[q].id, true, s.calls[q].at, Age(c))
  {
    RunFresh(c, acts);
    var s := Run(c, START, acts);
    assert CallFresh(c, s, s.calls[q]);
  }

  /** And a no about a valid ID is a failed call, or means that it was seen inactive no longer ago than that. */
  lemma NoIsFresh(c: Config, acts: seq<Action>, q: nat)
    requires var s := Run(c, START, acts);
             q in s.calls && Told(s.calls[q]) && !SaysYes(s.calls[q]) && IsValidId(s.calls[q].id)
    ensures var s := Run(c, START, acts);
            s.calls[q].Failed? || SeenSince(s.seen, s.calls[q].id, false, s.calls[q].at, Age(c))
  {
    RunFresh(c, acts);
    var s := Run(c, START, acts);
    assert CallFresh(c, s, s.calls[q]);
  }

  // ---- Revocation and activation ------------------------------------------------------------

  predicate KeepsStatus(acts: seq<Action>, id: string, on: bool) {
    forall i :: 0 <= i < |acts| ==> acts[i] != SetStatus(id, !on)
  }

  predicate KeepsRevoked(acts: seq<Action>, id: string) {
    KeepsStatus(acts, id, false)
  }

  /** After a change at r the device is not seen in its old status again. */
  lemma {:induction false} NothingSeenAfter(c: Config, s: State, acts: seq<Action>, id: string, on: bool)
    requires (id in s.active <==> on) && KeepsStatus(acts, id, on) && forall e :: e in s.seen ==> e.at <= s.now
    ensures var s' := Run(c, s, acts);
            (id in s'.active <==> on) && forall e :: e in s'.seen && e.id == id && e.on != on ==> e.at <= s.now
  {
    if acts != [] {
      NothingSeenAfter(c, s, acts[..|acts| - 1], id, on);
      assert acts[|acts| - 1] != SetStatus(id, !on);
    }
  }

  lemma {:induction false} RunConcat(c: Config, s: State, first: seq<Action>, second: seq<Action>)
    ensures Run(c, s, first + second) == Run(c, Run(c, s, first), second)
  {
    hide Step;
    if second == [] {
      assert first + second == first;
    } else {
      var front := second[..|second| - 1];
      RunConcat(c, s, first, front);
      assert (first + second)[..|first + second| - 1] == first + front;
    }
  }

  /** Call q answers that the device is not in the status it was given. */
  predicate Outdated(s: State, q: nat, id: string, on: bool) {
    q in s.calls && s.calls[q].Answered? && s.calls[q].id == id && s.calls[q].yes != on
  }

  /** A device changed at r and left so gets no answer to the contrary later than r + ttl + delay - 1 (r + delay without a cache). */
  lemma ChangeTakesEffect(c: Config, before: seq<Action>, after: seq<Action>, id: string, on: bool, q: nat)
    requires IsValidId(id) && (id in Run(c, START, before).active <==> on) && KeepsStatus(after, id, on)
    requires Outdated(Run(c, START, before + after), q, id, on)
    ensures Run(c, START, before + after).calls[q].at <= Run(c, START, before).now + Age(c)
  {
    var r, s := Run(c, START, before), Run(c, START, before + after);
    RunConcat(c, START, before, after);
    RunFresh(c, before);
    RunFresh(c, before + after);
    NothingSeenAfter(c, r, after, id, on);
    assert CallFresh(c, s, s.calls[q]);
    var e :| e in s.seen && e.id == id && e.on == !on && e.at <= s.calls[q].at <= e.at + Age(c);
  }

  /** So a revoked device gets no later yes. */
  lemma RevocationTakesEffect(c: Config, before: seq<Action>, after: seq<Action>, id: string, q: nat)
    requires id !in Run(c, START, before).active && KeepsRevoked(after, id)
    requires var s := Run(c, START, before + after); q in s.calls && SaysYes(s.calls[q]) && s.calls[q].id == id
    ensures Run(c, START, before + after).calls[q].at <= Run(c, START, before).now + Age(c)
  {
    RunFresh(c, before + after);
    assert CallFresh(c, Run(c, START, before + after), Run(c, START, before + after).calls[q]);
    ChangeTakesEffect(c, before, after, id, false, q);
  }

  /** And an activated one, while its calls do not fail, no later no. */
  lemma ActivationTakesEffect(c: Config, before: seq<Action>, after: seq<Action>, id: string, q: nat)
    requires IsValidId(id) && id in Run(c, START, before).active && KeepsStatus(after, id, true)
    requires var s := Run(c, START, before + after);
             q in s.calls && Told(s.calls[q]) && !SaysYes(s.calls[q]) && s.calls[q].id == id && !s.calls[q].Failed?
    ensures Run(c, START, before + after).calls[q].at <= Run(c, START, before).now + Age(c)
  {
    ChangeTakesEffect(c, before, after, id, true, q);
  }

  // ---- How late an outdated answer can be -------------------------------------------------------

  function Steps(c: Config, s: State, acts: seq<Action>): State
    decreases |acts|
  {
    if acts == [] then s else Steps(c, Step(c, s, acts[0]), acts[1..])
  }

  lemma {:induction false} RunIsSteps(c: Config, s: State, acts: seq<Action>)
    ensures Run(c, s, acts) == Steps(c, s, acts)
    decreases |acts|
  {
    hide Step;
    if acts != [] {
      RunIsSteps(c, Step(c, s, acts[0]), acts[1..]);
      assert [acts[0]] + acts[1..] == acts && [acts[0]][..0] == [];
      RunConcat(c, s, [acts[0]], acts[1..]);
      assert Run(c, s, [acts[0]]) == Step(c, s, acts[0]);
    }
  }

  lemma FourSteps(c: Config, s: State, a1: Action, a2: Action, a3: Action, a4: Action)
    ensures Run(c, s, [a1, a2, a3, a4]) == Step(c, Step(c, Step(c, Step(c, s, a1), a2), a3), a4)
  {
    hide Step;
    RunIsSteps(c, s, [a1, a2, a3, a4]);
    var s1 := Step(c, s, a1);
    var s2 := Step(c, s1, a2);
    var s3 := Step(c, s2, a3);
    assert [a1, a2, a3, a4][1..] == [a2, a3, a4] && [a2, a3, a4][1..] == [a3, a4] && [a3, a4][1..] == [a4] && [a4][1..] == [];
    assert Steps(c, Step(c, s3, a4), []) == Step(c, s3, a4);
    assert Steps(c, s3, [a4]) == Step(c, s3, a4);
    assert Steps(c, s2, [a3, a4]) == Step(c, s3, a4);
    assert Steps(c, s1, [a2, a3, a4]) == Step(c, s3, a4);
  }

  /** The status is changed while an answer about the old one is on its way. */
  function ChangedInFlight(on: bool): seq<Action> {
    [SetStatus("TEST", !on), Ask(0, "TEST"), Look(0), SetStatus("TEST", on)]
  }

  function LateAnswer(c: Config): seq<Action> {
    [Tick(c.delay), Reply(0), Tick(if c.ttl == 0 then 0 else c.ttl - 1), Ask(1, "TEST")]
  }

  function OnlyIf(on: bool): set<string> {
    if on then {"TEST"} else {}
  }

  /** The outdated answer to call q, if there is one, is at most `bound` after the change. */
  ghost predicate InBound(c: Config, before: seq<Action>, after: seq<Action>, id: string, on: bool, q: nat, bound: nat) {
    var r, s := Run(c, START, before), Run(c, START, before + after);
    (IsValidId(id) && (id in r.active <==> on) && KeepsStatus(after, id, on) && Outdated(s, q, id, on)) ==>
      s.calls[q].at <= r.now + bound
  }

  lemma InFlight(c: Config, on: bool)
    ensures Run(c, START, ChangedInFlight(on)) ==
            State(0, OnlyIf(on), map[], map[0 := Seen("TEST", !on, 0)], {Sighting("TEST", !on, 0)})
  {
    var acts := ChangedInFlight(on);
    FourSteps(c, START, acts[0], acts[1], acts[2], acts[3]);
    var s1 := Step(c, START, acts[0]);
    assert s1.active == OnlyIf(!on);
    var s2 := Step(c, s1, acts[1]);
    assert s2 == s1.(calls := map[0 := Sent("TEST")]);
    var s3 := Step(c, s2, acts[2]);
    assert s3.calls == map[0 := Seen("TEST", !on, 0)] && s3.seen == {Sighting("TEST", !on, 0)};
    assert Step(c, s3, acts[3]).active == OnlyIf(on);
  }

  lemma LateAnswerReached(c: Config, on: bool, bound: nat)
    requires bound < Age(c)
    ensures !InBound(c, ChangedInFlight(on), LateAnswer(c), "TEST", on, if c.ttl == 0 then 0 else 1, bound)
  {
    hide Run;
    InFlight(c, on);
    var r, acts := Run(c, START, ChangedInFlight(on)), LateAnswer(c);
    RunConcat(c, START, ChangedInFlight(on), acts);
    FourSteps(c, r, acts[0], acts[1], acts[2], acts[3]);
    var s2 := Step(c, Step(c, r, acts[0]), acts[1]);
    assert s2.calls[0] == Answered("TEST", !on, c.delay) && s2.cache["TEST"] == Entry(!on, c.delay + c.ttl) && s2.now == c.delay;
    var s4 := Step(c, Step(c, s2, acts[2]), acts[3]);
    var q := if c.ttl == 0 then 0 else 1;
    assert s4.calls[q] == Answered("TEST", !on, Age(c));
  }

  lemma ChangeBoundExact(c: Config, on: bool, bound: nat)
    ensures (forall before, after, id, q: nat :: InBound(c, before, after, id, on, q, bound)) <==> Age(c) <= bound
  {
    if Age(c) <= bound {
      forall before, after, id, q: nat ensures InBound(c, before, after, id, on, q, bound) {
        if IsValidId(id) && (id in Run(c, START, before).active <==> on) && KeepsStatus(after, id, on) &&
           Outdated(Run(c, START, before + after), q, id, on)
        {
          ChangeTakesEffect(c, before, after, id, on, q);
        }
      }
    } else {
      LateAnswerReached(c, on, bound);
    }
  }

  /** The bound on a yes after a revocation is exact: the cache's TTL alone, without the verifier's delay, is not one. */
  lemma RevocationBoundExact(c: Config, bound: nat)
    ensures (forall before, after, id, q: nat :: InBound(c, before, after, id, false, q, bound)) <==> Age(c) <= bound
  {
    ChangeBoundExact(c, false, bound);
  }

  /** And so is the one on a no after an activation. */
  lemma ActivationBoundExact(c: Config, bound: nat)
    ensures (forall before, after, id, q: nat :: InBound(c, before, after, id, true, q, bound)) <==> Age(c) <= bound
  {
    ChangeBoundExact(c, true, bound);
  }

  const NO_THEN_YES := [Ask(1, "TEST"), Look(1), Reply(1), Reply(0), Ask(2, "TEST")]

  lemma FiveSteps(c: Config, s: State, a1: Action, a2: Action, a3: Action, a4: Action, a5: Action)
    ensures Run(c, s, [a1, a2, a3, a4, a5]) == Step(c, Step(c, Step(c, Step(c, Step(c, s, a1), a2), a3), a4), a5)
  {
    hide Step;
    RunIsSteps(c, s, [a1, a2, a3, a4, a5]);
    var s1 := Step(c, s, a1);
    var s2 := Step(c, s1, a2);
    var s3 := Step(c, s2, a3);
    var s4 := Step(c, s3, a4);
    assert [a1, a2, a3, a4, a5][1..] == [a2, a3, a4, a5] && [a2, a3, a4, a5][1..] == [a3, a4, a5];
    assert [a3, a4, a5][1..] == [a4, a5] && [a4, a5][1..] == [a5] && [a5][1..] == [];
    assert Steps(c, Step(c, s4, a5), []) == Step(c, s4, a5);
    assert Steps(c, s4, [a5]) == Step(c, s4, a5);
    assert Steps(c, s3, [a4, a5]) == Step(c, s4, a5);
    assert Steps(c, s2, [a3, a4, a5]) == Step(c, s4, a5);
    assert Steps(c, s1, [a2, a3, a4, a5]) == Step(c, s4, a5);
  }

  /** Answers are not monotone: an overtaken reply turns a no back into a cached yes. */
  lemma NoCanBeFollowedByYes(c: Config)
    requires c.ttl > 0
    ensures var s := Run(c, START, ChangedInFlight(false) + NO_THEN_YES);
            1 in s.calls && 2 in s.calls &&
            s.calls[1] == Answered("TEST", false, 0) && s.calls[2] == Answered("TEST", true, 0)
  {
    hide Run;
    InFlight(c, false);
    RunConcat(c, START, ChangedInFlight(false), NO_THEN_YES);
    var r := Run(c, START, ChangedInFlight(false));
    FiveSteps(c, r, Ask(1, "TEST"), Look(1), Reply(1), Reply(0), Ask(2, "TEST"));
    var s1 := Step(c, r, Ask(1, "TEST"));
    assert s1 == r.(calls := r.calls[1 := Sent("TEST")]);
    var s3 := Step(c, Step(c, s1, Look(1)), Reply(1));
    assert s3.calls == map[0 := Seen("TEST", true, 0), 1 := Answered("TEST", false, 0)] && s3.now == 0;
    var s4 := Step(c, s3, Reply(0));
    assert s4.calls[1] == Answered("TEST", false, 0) && s4.cache["TEST"] == Entry(true, c.ttl);
  }

  // ---- When a no is final ---------------------------------------------------------------------

  predicate SaidYes(s: State, q: nat, id: string) {
    q in s.calls && SaysYes(s.calls[q]) && s.calls[q].id == id
  }

  /** No call that is not answered yet will be told yes about `id`, as long as it is kept revoked. */
  ghost predicate NoMoreYes(c: Config, s: State, id: string) {
    forall acts, q :: KeepsRevoked(acts, id) && SaidYes(Run(c, s, acts), q, id) ==> SaidYes(s, q, id)
  }

  /** Neither the cache nor a reply still in time holds a yes. */
  ghost predicate YesIsSpent(c: Config, s: State, id: string) {
    Hit(s.cache, id, s.now) != Some(true) &&
    forall q :: q in s.calls && s.calls[q].Seen? && s.calls[q].id == id && s.calls[q].active ==> s.calls[q].at + c.delay < s.now
  }

  lemma StepStaysSpent(c: Config, s: State, a: Action, id: string)
    requires id !in s.active && YesIsSpent(c, s, id) && a != SetStatus(id, true)
    ensures id !in Step(c, s, a).active && YesIsSpent(c, Step(c, s, a), id)
    ensures forall q :: SaidYes(Step(c, s, a), q, id) ==> SaidYes(s, q, id)
  {
  }

  lemma {:induction false} RunStaysSpent(c: Config, s: State, acts: seq<Action>, id: string)
    requires id !in s.active && YesIsSpent(c, s, id) && KeepsRevoked(acts, id)
    ensures id !in Run(c, s, acts).active && YesIsSpent(c, Run(c, s, acts), id)
    ensures forall q :: SaidYes(Run(c, s, acts), q, id) ==> SaidYes(s, q, id)
  {
    if acts != [] {
      var before := acts[..|acts| - 1];
      RunStaysSpent(c, s, before, id);
      assert acts[|acts| - 1] != SetStatus(id, true);
      StepStaysSpent(c, Run(c, s, before), acts[|acts| - 1], id);
    }
  }

  lemma {:induction false} FreshCall(used: set<nat>) returns (q: nat)
    ensures q !in used && forall p :: p in used ==> p < q
    decreases |used|
  {
    if used == {} {
      return 0;
    }
    var p :| p in used;
    var above := FreshCall(used - {p});
    q := if p < above then above else p + 1;
    assert forall r :: r in used ==> r == p || r in used - {p};
  }

  lemma OneStep(c: Config, s: State, a: Action)
    ensures Run(c, s, [a]) == Step(c, s, a)
  {
    assert [a][..0] == [];
  }

  /** For a revoked device a no is final exactly when no cached yes is left and no positive reply can still arrive. */
  lemma NoIsFinalExactly(c: Config, s: State, id: string)
    requires id !in s.active
    ensures NoMoreYes(c, s, id) <==> YesIsSpent(c, s, id)
  {
    if YesIsSpent(c, s, id) {
      forall acts, q | KeepsRevoked(acts, id) && SaidYes(Run(c, s, acts), q, id) ensures SaidYes(s, q, id) {
        RunStaysSpent(c, s, acts, id);
      }
    } else if Hit(s.cache, id, s.now) == Some(true) {
      var q := FreshCall(s.calls.Keys);
      OneStep(c, s, Ask(q, id));
      assert KeepsRevoked([Ask(q, id)], id) && SaidYes(Run(c, s, [Ask(q, id)]), q, id) && !SaidYes(s, q, id);
    } else {
      var q :| q in s.calls && s.calls[q].Seen? && s.calls[q].id == id && s.calls[q].active && s.now <= s.calls[q].at + c.delay;
      OneStep(c, s, Reply(q));
      assert KeepsRevoked([Reply(q)], id) && SaidYes(Run(c, s, [Reply(q)]), q, id) && !SaidYes(s, q, id);
    }
  }
}
