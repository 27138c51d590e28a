/** Alerts about devices under attack, at most one per device and kind and twenty in all per hour. */
module Alerts {

  const HOUR_MS: nat := 3_600_000
  const GLOBAL_PER_HOUR: nat := 20

  datatype Kind = BudgetExhausted | RepeatedFailures
  datatype Key = Key(kind: Kind, device: string)
  datatype Tally = Tally(hour: nat, count: nat)

  function HourOf(ms: nat): nat {
    ms / HOUR_MS
  }

  // ---- What the alerter remembers --------------------------------------------------------

  datatype Memory = Memory(failures: map<string, Tally>, lastAlert: map<Key, nat>, globalHour: int, globalCount: nat)

  const START: Memory := Memory(map[], map[], -1, 0)

  function Alerted(m: Memory, key: Key, h: nat): (Memory, bool) {
    if key in m.lastAlert && m.lastAlert[key] == h then (m, false)
    else
      var m' := if m.globalHour != h then m.(globalHour := h, globalCount := 0) else m;
      if m'.globalCount >= GLOBAL_PER_HOUR then (m', false)
      else (m'.(lastAlert := m'.lastAlert[key := h], globalCount := m'.globalCount + 1), true)
  }

  function Tallied(failures: map<string, Tally>, device: string, h: nat): nat {
    if device in failures && failures[device].hour == h then failures[device].count else 0
  }

  function Failed(m: Memory, device: string, h: nat, limit: int): (Memory, bool) {
    var count := Tallied(m.failures, device, h) + 1;
    var m' := m.(failures := m.failures[device := Tally(h, count)]);
    if count >= limit then Alerted(m', Key(RepeatedFailures, device), h) else (m', false)
  }

  function Swept(m: Memory, h: nat): Memory {
    m.(failures := map d | d in m.failures && m.failures[d].hour >= h :: m.failures[d],
       lastAlert := map k | k in m.lastAlert && m.lastAlert[k] >= h :: m.lastAlert[k])
  }

  class Alerter {
    var failures: map<string, Tally>
    var lastAlert: map<Key, nat>
    var globalHour: int
    var globalCount: nat
    const failuresPerHour: int

    constructor (failuresPerHour: int)
      ensures View() == START && this.failuresPerHour == failuresPerHour
    {
      failures, lastAlert, globalHour, globalCount := map[], map[], -1, 0;
      this.failuresPerHour := failuresPerHour;
    }

    function View(): Memory
      reads this
    {
      Memory(failures, lastAlert, globalHour, globalCount)
    }

    method Alert(kind: Kind, device: string, now: nat) returns (sent: bool)
      modifies this
      ensures (View(), sent) == Alerted(old(View()), Key(kind, device), HourOf(now))
    {
      var h, key := HourOf(now), Key(kind, device);
      if key in lastAlert && lastAlert[key] == h {
        return false;
      }
      if globalHour != h {
        globalHour, globalCount := h, 0;
      }
      if globalCount >= GLOBAL_PER_HOUR {
        return false;
      }
      lastAlert := lastAlert[key := h];
      globalCount := globalCount + 1;
      return true;
    }

    method Failure(device: string, now: nat) returns (sent: bool)
      modifies this
      ensures (View(), sent) == Failed(old(View()), device, HourOf(now), failuresPerHour)
    {
      var h := HourOf(now);
      var entry := if device in failures && failures[device].hour == h then failures[device] else Tally(h, 0);
      entry := entry.(count := entry.count + 1);
      failures := failures[device := entry];
      sent := false;
      if entry.count >= failuresPerHour {
        sent := Alert(RepeatedFailures, device, now);
      }
    }

    method SweepFailures(h: nat)
      modifies `failures
      ensures failures == map d | d in old(failures) && old(failures)[d].hour >= h :: old(failures)[d]
    {
      var todo := failures.Keys;
      while todo != {}
        invariant todo <= old(failures).Keys
        invariant forall d :: d in failures <==> d in old(failures) && (d in todo || old(failures)[d].hour >= h)
        invariant forall d :: d in failures ==> failures[d] == old(failures)[d]
        decreases |todo|
      {
        var d :| d in todo;
        if failures[d].hour < h {
          failures := failures - {d};
        }
        todo := todo - {d};
      }
    }

    method SweepAlerts(h: nat)
      modifies `lastAlert
      ensures lastAlert == map k | k in old(lastAlert) && old(lastAlert)[k] >= h :: old(lastAlert)[k]
    {
      var todo := lastAlert.Keys;
      while todo != {}
        invariant todo <= old(lastAlert).Keys
        invariant forall k :: k in lastAlert <==> k in old(lastAlert) && (k in todo || old(lastAlert)[k] >= h)
        invariant forall k :: k in lastAlert ==> lastAlert[k] == old(lastAlert)[k]
        decreases |todo|
      {
        var k :| k in todo;
        if lastAlert[k] < h {
          lastAlert := lastAlert - {k};
        }
        todo := todo - {k};
      }
    }

    method Sweep(now: nat)
      modifies this
      ensures View() == Swept(old(View()), HourOf(now))
    {
      SweepFailures(HourOf(now));
      SweepAlerts(HourOf(now));
    }
  }

  // ---- The rule, stated over everything that has happened -----------------------------------------

  datatype Sent = Sent(key: Key, hour: nat)
  datatype Miss = Miss(device: string, hour: nat)
  datatype History = History(sent: seq<Sent>, misses: seq<Miss>)

  function SentIn(sent: seq<Sent>, h: nat): nat {
    if sent == [] then 0 else SentIn(sent[..|sent| - 1], h) + if sent[|sent| - 1].hour == h then 1 else 0
  }

  function MissesIn(misses: seq<Miss>, device: string, h: nat): nat {
    if misses == [] then 0
    else MissesIn(misses[..|misses| - 1], device, h) + if misses[|misses| - 1] == Miss(device, h) then 1 else 0
  }

  /** An alert goes out unless it would repeat itself this hour or be the twenty-first this hour. */
  predicate Due(sent: seq<Sent>, key: Key, h: nat) {
    Sent(key, h) !in sent && SentIn(sent, h) < GLOBAL_PER_HOUR
  }

  datatype Event = Raise(kind: Kind, device: string) | Fail(device: string) | Sweep

  datatype Timed = Timed(event: Event, at: nat)

  function Recorded(p: History, key: Key, h: nat): (History, bool) {
    if Due(p.sent, key, h) then (p.(sent := p.sent + [Sent(key, h)]), true) else (p, false)
  }

  function Rule(p: History, e: Timed, limit: int): (History, bool) {
    var h := HourOf(e.at);
    match e.event
    case Raise(kind, device) => Recorded(p, Key(kind, device), h)
    case Fail(device) =>
      var p' := p.(misses := p.misses + [Miss(device, h)]);
      if MissesIn(p'.misses, device, h) >= limit then Recorded(p', Key(RepeatedFailures, device), h) else (p', false)
    case Sweep => (p, false)
  }

  function Step(m: Memory, e: Timed, limit: int): (Memory, bool) {
    var h := HourOf(e.at);
    match e.event
    case Raise(kind, device) => Alerted(m, Key(kind, device), h)
    case Fail(device) => Failed(m, device, h, limit)
    case Sweep => (Swept(m, h), false)
  }

  predicate Monotone(events: seq<Timed>, from: nat) {
    events != [] ==> from <= events[0].at && Monotone(events[1..], events[0].at)
  }

  /** Which of the events send an alert. */
  function Run(m: Memory, events: seq<Timed>, limit: int): seq<bool>
    decreases |events|
  {
    if events == [] then []
    else
      var (m', sent) := Step(m, events[0], limit);
      [sent] + Run(m', events[1..], limit)
  }

  function RuleRun(p: History, events: seq<Timed>, limit: int): (r: (History, seq<bool>))
    decreases |events|
  {
    if events == [] then (p, [])
    else
      var (p', sent) := Rule(p, events[0], limit);
      var (end, rest) := RuleRun(p', events[1..], limit);
      (end, [sent] + rest)
  }

  // ---- The maps remember enough ---------------------------------------------------------------------

  /** What the maps say about hour h and later is what the history says. */
  ghost predicate Faithful(m: Memory, p: History, h: nat) {
    AlertsFaithful(m.lastAlert, m.globalHour, m.globalCount, p.sent, h) && FailuresFaithful(m.failures, p.misses, h)
  }

  ghost predicate AlertsFaithful(lastAlert: map<Key, nat>, globalHour: int, globalCount: nat, sent: seq<Sent>, h: nat) {
    globalHour <= h &&
    (forall s :: s in sent ==> s.hour <= globalHour) &&
    (globalHour >= 0 ==> SentIn(sent, globalHour) == globalCount) &&
    (forall k :: k in lastAlert ==> lastAlert[k] <= h) &&
    (forall k :: Sent(k, h) in sent <==> k in lastAlert && lastAlert[k] == h)
  }

  ghost predicate FailuresFaithful(failures: map<string, Tally>, misses: seq<Miss>, h: nat) {
    (forall x :: x in misses ==> x.hour <= h) &&
    (forall d :: d in failures ==> failures[d].hour <= h) &&
    (forall d :: MissesIn(misses, d, h) == Tallied(failures, d, h))
  }

  lemma {:induction false} NoneSentIn(sent: seq<Sent>, h: nat)
    requires forall s :: s in sent ==> s.hour != h
    ensures SentIn(sent, h) == 0
  {
    if sent != [] {
      assert sent[|sent| - 1] in sent;
      NoneSentIn(sent[..|sent| - 1], h);
    }
  }

  lemma {:induction false} NoMissesIn(misses: seq<Miss>, device: string, h: nat)
    requires forall x :: x in misses ==> x.hour != h
    ensures MissesIn(misses, device, h) == 0
  {
    if misses != [] {
      assert misses[|misses| - 1] in misses;
      NoMissesIn(misses[..|misses| - 1], device, h);
    }
  }

  /** Time passing keeps the maps faithful: entries of earlier hours no longer matter. */
  lemma FaithfulLater(m: Memory, p: History, h: nat, h': nat)
    requires Faithful(m, p, h) && h <= h'
    ensures Faithful(m, p, h')
  {
    if h < h' {
      forall d ensures MissesIn(p.misses, d, h') == 0 {
        NoMissesIn(p.misses, d, h');
      }
    }
  }

  lemma AlertIsRule(m: Memory, p: History, key: Key, h: nat)
    requires Faithful(m, p, h)
    ensures Alerted(m, key, h).1 == Recorded(p, key, h).1
    ensures Faithful(Alerted(m, key, h).0, Recorded(p, key, h).0, h)
  {
    assert Sent(key, h) in p.sent <==> key in m.lastAlert && m.lastAlert[key] == h;
    if m.globalHour != h {
      NoneSentIn(p.sent, h);
    }
    if Due(p.sent, key, h) {
      AlertSent(m.lastAlert, p.sent, key, h, SentIn(p.sent, h));
    }
  }

  lemma AlertSent(lastAlert: map<Key, nat>, sent: seq<Sent>, key: Key, h: nat, count: nat)
    requires (forall s :: s in sent ==> s.hour <= h) && SentIn(sent, h) == count
    requires forall k :: k in lastAlert ==> lastAlert[k] <= h
    requires forall k :: Sent(k, h) in sent <==> k in lastAlert && lastAlert[k] == h
    ensures AlertsFaithful(lastAlert[key := h], h, count + 1, sent + [Sent(key, h)], h)
  {
    var after := sent + [Sent(key, h)];
    assert after[..|after| - 1] == sent;
  }

  lemma MissIsCounted(failures: map<string, Tally>, misses: seq<Miss>, device: string, h: nat)
    requires FailuresFaithful(failures, misses, h)
    ensures var count := Tallied(failures, device, h) + 1;
            MissesIn(misses + [Miss(device, h)], device, h) == count &&
            FailuresFaithful(failures[device := Tally(h, count)], misses + [Miss(device, h)], h)
  {
    var after := misses + [Miss(device, h)];
    assert after[..|after| - 1] == misses;
    var failures' := failures[device := Tally(h, Tallied(failures, device, h) + 1)];
    forall d ensures MissesIn(after, d, h) == Tallied(failures', d, h) {
      assert MissesIn(misses, d, h) == Tallied(failures, d, h);
    }
  }

  lemma FailIsRule(m: Memory, p: History, device: string, at: nat, limit: int)
    requires Faithful(m, p, HourOf(at))
    ensures Failed(m, device, HourOf(at), limit).1 == Rule(p, Timed(Fail(device), at), limit).1
    ensures Faithful(Failed(m, device, HourOf(at), limit).0, Rule(p, Timed(Fail(device), at), limit).0, HourOf(at))
  {
    var h := HourOf(at);
    MissIsCounted(m.failures, p.misses, device, h);
    var count := Tallied(m.failures, device, h) + 1;
    var m' := m.(failures := m.failures[device := Tally(h, count)]);
    var p' := p.(misses := p.misses + [Miss(device, h)]);
    assert Faithful(m', p', h) && MissesIn(p'.misses, device, h) == count;
    FailedIs(m, device, h, limit, m', count);
    if count >= limit {
      AlertIsRule(m', p', Key(RepeatedFailures, device), h);
    }
  }

  lemma FailedIs(m: Memory, device: string, h: nat, limit: int, m': Memory, count: nat)
    requires count == Tallied(m.failures, device, h) + 1 && m' == m.(failures := m.failures[device := Tally(h, count)])
    ensures Failed(m, device, h, limit) == if count >= limit then Alerted(m', Key(RepeatedFailures, device), h) else (m', false)
  {
  }

  lemma SweepIsInvisible(m: Memory, p: History, h: nat)
    requires Faithful(m, p, h)
    ensures Faithful(Swept(m, h), p, h)
  {
  }

  lemma StepIsRule(m: Memory, p: History, e: Timed, limit: int)
    requires Faithful(m, p, HourOf(e.at))
    ensures Step(m, e, limit).1 == Rule(p, e, limit).1
    ensures Faithful(Step(m, e, limit).0, Rule(p, e, limit).0, HourOf(e.at))
  {
    var h := HourOf(e.at);
    match e.event
    case Raise(kind, device) => AlertIsRule(m, p, Key(kind, device), h);
    case Fail(device) => FailIsRule(m, p, device, e.at, limit);
    case Sweep => SweepIsInvisible(m, p, h);
  }

  lemma HoursGrow(a: nat, b: nat)
    requires a <= b
    ensures HourOf(a) <= HourOf(b)
  {
  }

  lemma {:induction false} RunIsRule(m: Memory, p: History, events: seq<Timed>, from: nat, limit: int)
    requires Faithful(m, p, HourOf(from)) && Monotone(events, from)
    ensures Run(m, events, limit) == RuleRun(p, events, limit).1
    decreases |events|
  {
    if events != [] {
      var e := events[0];
      HoursGrow(from, e.at);
      FaithfulLater(m, p, HourOf(from), HourOf(e.at));
      StepIsRule(m, p, e, limit);
      RunIsRule(Step(m, e, limit).0, Rule(p, e, limit).0, events[1..], e.at, limit);
    }
  }

  /**
   From start-up, on a clock that does not go back: exactly the events the rule names send an
   alert, wherever the sweeps fall.
   */
  lemma AlertsFollowTheRule(events: seq<Timed>, limit: int)
    requires Monotone(events, 0)
    ensures Run(START, events, limit) == RuleRun(History([], []), events, limit).1
  {
    RunIsRule(START, History([], []), events, 0, limit);
  }

  // ---- What the rule guarantees -----------------------------------------------------------------------

  ghost predicate Bounded(sent: seq<Sent>) {
    forall h :: SentIn(sent, h) <= GLOBAL_PER_HOUR
  }

  lemma RecordedBounded(p: History, key: Key, h: nat)
    requires Bounded(p.sent)
    ensures Bounded(Recorded(p, key, h).0.sent)
  {
    var after := p.sent + [Sent(key, h)];
    assert after[..|after| - 1] == p.sent;
    forall x ensures Due(p.sent, key, h) ==> SentIn(after, x) <= GLOBAL_PER_HOUR {
      assert SentIn(after, x) == SentIn(p.sent, x) + if x == h then 1 else 0;
    }
  }

  lemma {:induction false} RunBounded(p: History, events: seq<Timed>, limit: int)
    requires Bounded(p.sent)
    ensures Bounded(RuleRun(p, events, limit).0.sent)
    decreases |events|
  {
    if events != [] {
      var e := events[0];
      var h := HourOf(e.at);
      match e.event {
        case Raise(kind, device) => RecordedBounded(p, Key(kind, device), h);
        case Fail(device) => RecordedBounded(p.(misses := p.misses + [Miss(device, h)]), Key(RepeatedFailures, device), h);
        case Sweep =>
      }
      RunBounded(Rule(p, e, limit).0, events[1..], limit);
    }
  }

  // ---- What that means for the alerts that go out ------------------------------------------------------

  function KeyOf(e: Event): Key
    requires !e.Sweep?
  {
    if e.Raise? then Key(e.kind, e.device) else Key(RepeatedFailures, e.device)
  }

  /** How many of the events flagged as sent fall into hour h. */
  function SentDuring(events: seq<Timed>, flags: seq<bool>, h: nat): nat
    requires |flags| == |events|
    decreases |events|
  {
    if events == [] then 0
    else (if flags[0] && HourOf(events[0].at) == h then 1 else 0) + SentDuring(events[1..], flags[1..], h)
  }

  lemma RuleTail(p: History, events: seq<Timed>, limit: int)
    requires events != []
    ensures var (p', sent) := Rule(p, events[0], limit);
            var (end, flags) := RuleRun(p, events, limit);
            end == RuleRun(p', events[1..], limit).0 && flags == [sent] + flags[1..] &&
            flags[1..] == RuleRun(p', events[1..], limit).1
  {
  }

  lemma RuleLogs(p: History, e: Timed, limit: int)
    ensures var (p', sent) := Rule(p, e, limit);
            (sent ==> !e.event.Sweep? && Sent(KeyOf(e.event), HourOf(e.at)) !in p.sent) &&
            p'.sent == p.sent + if sent then [Sent(KeyOf(e.event), HourOf(e.at))] else []
  {
  }

  lemma {:induction false} RunFlags(p: History, events: seq<Timed>, limit: int)
    ensures |RuleRun(p, events, limit).1| == |events|
    decreases |events|
  {
    if events != [] {
      RunFlags(Rule(p, events[0], limit).0, events[1..], limit);
    }
  }

  lemma LoggedOne(sent: seq<Sent>, s: Sent, h: nat)
    ensures SentIn(sent + [s], h) == SentIn(sent, h) + if s.hour == h then 1 else 0
  {
    assert (sent + [s])[..|sent|] == sent;
  }

  /** The log counts, hour by hour, the alerts that went out. */
  lemma {:induction false} LogCountsSent(p: History, events: seq<Timed>, limit: int, h: nat)
    ensures var (end, flags) := RuleRun(p, events, limit);
            |flags| == |events| && SentIn(end.sent, h) == SentIn(p.sent, h) + SentDuring(events, flags, h)
    decreases |events|
  {
    RunFlags(p, events, limit);
    if events != [] {
      var (p', sent) := Rule(p, events[0], limit);
      RuleTail(p, events, limit);
      RuleLogs(p, events[0], limit);
      LogCountsSent(p', events[1..], limit, h);
      if sent {
        LoggedOne(p.sent, Sent(KeyOf(events[0].event), HourOf(events[0].at)), h);
      } else {
        assert p.sent + [] == p.sent;
      }
    }
  }

  /** What goes out has not gone out before in its hour. */
  lemma {:induction false} SentIsNew(p: History, events: seq<Timed>, limit: int, j: nat)
    requires j < |events| && |RuleRun(p, events, limit).1| == |events| && RuleRun(p, events, limit).1[j]
    ensures !events[j].event.Sweep? && Sent(KeyOf(events[j].event), HourOf(events[j].at)) !in p.sent
    decreases |events|
  {
    RuleTail(p, events, limit);
    RuleLogs(p, events[0], limit);
    if j > 0 {
      SentIsNew(Rule(p, events[0], limit).0, events[1..], limit, j - 1);
    }
  }

  lemma {:induction false} NeverTwice(p: History, events: seq<Timed>, limit: int, i: nat, j: nat)
    requires i < j < |events| && |RuleRun(p, events, limit).1| == |events|
    requires RuleRun(p, events, limit).1[i] && RuleRun(p, events, limit).1[j]
    ensures !events[i].event.Sweep? && !events[j].event.Sweep?
    ensures HourOf(events[i].at) == HourOf(events[j].at) ==> KeyOf(events[i].event) != KeyOf(events[j].event)
    decreases |events|
  {
    var p' := Rule(p, events[0], limit).0;
    RuleTail(p, events, limit);
    RuleLogs(p, events[0], limit);
    SentIsNew(p, events, limit, j);
    if i == 0 {
      assert Sent(KeyOf(events[0].event), HourOf(events[0].at)) in p'.sent;
      SentIsNew(p', events[1..], limit, j - 1);
    } else {
      NeverTwice(p', events[1..], limit, i - 1, j - 1);
    }
  }

  /** In every run, of the alerts that go out, at most twenty fall into one hour and no two of an hour are the same. */
  lemma AlertRate(events: seq<Timed>, limit: int)
    requires Monotone(events, 0)
    ensures var flags := Run(START, events, limit);
            |flags| == |events| &&
            (forall h :: SentDuring(events, flags, h) <= 20) &&
            forall i, j :: 0 <= i < j < |events| && flags[i] && flags[j] && HourOf(events[i].at) == HourOf(events[j].at) ==>
              !events[i].event.Sweep? && !events[j].event.Sweep? && KeyOf(events[i].event) != KeyOf(events[j].event)
  {
    var p := History([], []);
    var flags := Run(START, events, limit);
    AlertsFollowTheRule(events, limit);
    RunFlags(p, events, limit);
    RunBounded(p, events, limit);
    forall h ensures SentDuring(events, flags, h) <= GLOBAL_PER_HOUR {
      LogCountsSent(p, events, limit, h);
    }
    forall i, j | 0 <= i < j < |events| && flags[i] && flags[j] && HourOf(events[i].at) == HourOf(events[j].at)
      ensures !events[i].event.Sweep? && !events[j].event.Sweep? && KeyOf(events[i].event) != KeyOf(events[j].event)
    {
      NeverTwice(p, events, limit, i, j);
    }
  }

  // ---- Exactly which alerts go out, in terms of the events alone -----------------------------------------

  /** Failures of the device in hour h. */
  function Failures(events: seq<Timed>, device: string, h: nat): nat
    decreases |events|
  {
    if events == [] then 0
    else (if events[0].event == Fail(device) && events[0].at / 3_600_000 == h then 1 else 0) + Failures(events[1..], device, h)
  }

  /** Event i is raised as an alert, or is a failure that brings its device to the limit, `before` having come earlier. */
  predicate Asks(events: seq<Timed>, limit: int, i: nat, before: nat)
    requires i < |events|
  {
    match events[i].event
    case Raise(_, _) => true
    case Fail(device) => before + Failures(events[..i + 1], device, events[i].at / 3_600_000) >= limit
    case Sweep => false
  }

  /** Event j is sent and is about the same thing in the same hour as event i. */
  predicate Repeats(events: seq<Timed>, flags: seq<bool>, i: nat, j: nat)
    requires i < |events| == |flags| && j < |events|
  {
    flags[j] && !events[i].event.Sweep? && !events[j].event.Sweep? &&
    KeyOf(events[j].event) == KeyOf(events[i].event) && events[j].at / 3_600_000 == events[i].at / 3_600_000
  }

  predicate IsFirst(events: seq<Timed>, flags: seq<bool>, i: nat)
    requires i < |events| == |flags|
  {
    forall j: nat :: j < i ==> !Repeats(events, flags, i, j)
  }

  function Missed(p: History, e: Timed): nat {
    if e.event.Fail? then MissesIn(p.misses, e.event.device, HourOf(e.at)) else 0
  }

  ghost predicate SentExactly(p: History, events: seq<Timed>, flags: seq<bool>, limit: int, i: nat)
    requires i < |events| == |flags|
  {
    var h := events[i].at / 3_600_000;
    flags[i] <==>
      (Asks(events, limit, i, Missed(p, events[i])) && Sent(KeyOf(events[i].event), h) !in p.sent &&
       IsFirst(events, flags, i) &&
       SentIn(p.sent, h) + SentDuring(events[..i], flags[..i], h) < 20)
  }

  lemma FirstSentExactly(p: History, events: seq<Timed>, limit: int)
    requires events != [] && |RuleRun(p, events, limit).1| == |events|
    ensures SentExactly(p, events, RuleRun(p, events, limit).1, limit, 0)
  {
    var e, h := events[0], HourOf(events[0].at);
    RuleTail(p, events, limit);
    assert events[..1] == [e] && [e][1..] == [];
    if e.event.Fail? {
      var after := p.misses + [Miss(e.event.device, h)];
      assert after[..|after| - 1] == p.misses;
      assert Failures([e], e.event.device, h) == 1;
    }
  }

  lemma MissCounted(misses: seq<Miss>, miss: Miss, device: string, h: nat)
    ensures MissesIn(misses + [miss], device, h) == MissesIn(misses, device, h) + if miss == Miss(device, h) then 1 else 0
  {
    assert (misses + [miss])[..|misses|] == misses;
  }

  lemma RuleMisses(p: History, e: Timed, limit: int)
    ensures Rule(p, e, limit).0.misses ==
            if e.event.Fail? then p.misses + [Miss(e.event.device, HourOf(e.at))] else p.misses
  {
    hide MissesIn;
  }

  /** The first event's part in what is asked of a later one. */
  lemma TailAsks(p: History, events: seq<Timed>, limit: int, i: nat)
    requires 0 < i < |events|
    ensures var p' := Rule(p, events[0], limit).0;
            Asks(events, limit, i, Missed(p, events[i])) == Asks(events[1..], limit, i - 1, Missed(p', events[i]))
  {
    assert events[..i + 1][1..] == events[1..][..i];
    var first := events[0];
    RuleMisses(p, first, limit);
    if events[i].event.Fail? && first.event.Fail? {
      MissCounted(p.misses, Miss(first.event.device, HourOf(first.at)), events[i].event.device, HourOf(events[i].at));
    }
  }

  lemma TailCounts(p: History, events: seq<Timed>, flags: seq<bool>, limit: int, i: nat)
    requires 0 < i < |events| == |flags| && flags[0] == Rule(p, events[0], limit).1
    ensures var h := events[i].at / 3_600_000;
            SentIn(p.sent, h) + SentDuring(events[..i], flags[..i], h) ==
            SentIn(Rule(p, events[0], limit).0.sent, h) + SentDuring(events[1..][..i - 1], flags[1..][..i - 1], h)
  {
    var h := events[i].at / 3_600_000;
    assert events[..i][1..] == events[1..][..i - 1] && flags[..i][1..] == flags[1..][..i - 1];
    RuleLogs(p, events[0], limit);
    if flags[0] {
      LoggedOne(p.sent, Sent(KeyOf(events[0].event), HourOf(events[0].at)), h);
    } else {
      assert p.sent + [] == p.sent;
    }
  }

  lemma TailRepeats(p: History, events: seq<Timed>, flags: seq<bool>, limit: int, i: nat)
    requires 0 < i < |events| == |flags| && flags[0] == Rule(p, events[0], limit).1 && !events[i].event.Sweep?
    ensures var p', sent := Rule(p, events[0], limit).0, Sent(KeyOf(events[i].event), events[i].at / 3_600_000);
            (sent !in p.sent && IsFirst(events, flags, i)) <==>
            (sent !in p'.sent && IsFirst(events[1..], flags[1..], i - 1))
  {
    RuleLogs(p, events[0], limit);
    var p' := Rule(p, events[0], limit).0;
    var sent := Sent(KeyOf(events[i].event), events[i].at / 3_600_000);
    assert sent in p'.sent <==> sent in p.sent || Repeats(events, flags, i, 0);
    var rest, tail, k := events[1..], flags[1..], i - 1;
    if IsFirst(events, flags, i) {
      forall j: nat | j < k ensures !Repeats(rest, tail, k, j) {
        assert !Repeats(events, flags, i, j + 1);
      }
    }
    if IsFirst(rest, tail, k) {
      forall j: nat | 0 < j < i ensures !Repeats(events, flags, i, j) {
        assert !Repeats(rest, tail, k, j - 1);
      }
    }
  }

  lemma {:induction false} RuleExactly(p: History, events: seq<Timed>, limit: int, i: nat)
    requires i < |events| == |RuleRun(p, events, limit).1|
    ensures SentExactly(p, events, RuleRun(p, events, limit).1, limit, i)
    decreases |events|
  {
    var flags := RuleRun(p, events, limit).1;
    if i == 0 {
      FirstSentExactly(p, events, limit);
    } else {
      RuleTail(p, events, limit);
      var p' := Rule(p, events[0], limit).0;
      RuleExactly(p', events[1..], limit, i - 1);
      hide RuleRun, Rule, Asks, IsFirst, SentDuring, SentIn;
      TailAsks(p, events, limit, i);
      TailCounts(p, events, flags, limit, i);
      if events[i].event.Sweep? {
        NoSweepAsks(events, limit, i);
      } else {
        TailRepeats(p, events, flags, limit, i);
      }
    }
  }

  lemma NoSweepAsks(events: seq<Timed>, limit: int, i: nat)
    requires i < |events| && events[i].event.Sweep?
    ensures forall before :: !Asks(events, limit, i, before)
  {
  }

  /**
   In every run on a clock that does not go back an event sends an alert exactly when it asks for one (it is raised,
   or the device's failures of the hour reach the limit with it), none like it was sent that hour, and fewer than
   twenty were.
   */
  lemma AlertsExactly(events: seq<Timed>, limit: int, i: nat)
    requires Monotone(events, 0) && i < |events|
    ensures var flags, h := Run(START, events, limit), events[i].at / 3_600_000;
            |flags| == |events| &&
            (flags[i] <==>
               Asks(events, limit, i, 0) && (forall j: nat :: j < i ==> !Repeats(events, flags, i, j)) &&
               SentDuring(events[..i], flags[..i], h) < 20)
  {
    var p := History([], []);
    AlertsFollowTheRule(events, limit);
    RunFlags(p, events, limit);
    RuleExactly(p, events, limit, i);
    hide Run, RuleRun;
  }
}
