/** What the keychain's clock guarantees over any life: reboots, jumps, sets and power cuts. */
module KeychainSafety {
  import opened Keychain

  datatype Device = Device(clock: Clock, panel: Panel)

  /**
   Disturb leaves the RTC in any state at all, battery pulls included, and inside a pass it
   may move before each reading. CutSet loses power inside a set, after the RTC was written
   (stage 1) or after the flag was (stage 2), and boots with the set's sample.
   */
  datatype Event =
    | Pass(syncs: seq<Sync>, reading: U32)
    | Reboot
    | Disturb(rtc: Rtc)
    | CutSet(sync: Sync, stage: nat)

  const FRESH := Panel(0, NoRtc, Splash)

  function Booted(k: Clock, build: U32): Device {
    Device(Begun(k, build), FRESH)
  }

  function Cut(k: Clock, sync: Sync, stage: nat, build: U32): Clock {
    var k0 := At(k, sync.before);
    var k1 := if !SetAdmitted(k0, sync.epoch, build) || stage == 0 then k0
              else if stage == 1 then Adjusted(k0, sync.epoch)
              else Provisioned(Adjusted(k0, sync.epoch));
    k1.(rtc := sync.sample)
  }

  function After(d: Device, e: Event, build: U32): Device {
    match e
    case Pass(syncs, reading) => var (k, p) := AfterLoop(d.clock, d.panel, syncs, reading, build); Device(k, p)
    case Reboot => Booted(d.clock, build)
    case Disturb(rtc) => d.(clock := d.clock.(rtc := rtc))
    case CutSet(sync, stage) => Booted(Cut(d.clock, sync, stage, build), build)
  }

  /** The time of the code a pass draws, if it draws one. */
  function Shown(d: Device, e: Event, build: U32): seq<U32> {
    if e.Pass? then
      var d' := After(d, e, build);
      if d'.panel != d.panel && d'.panel.screen.Code? then [d'.panel.screen.time] else []
    else []
  }

  function Run(d: Device, events: seq<Event>, build: U32): Device {
    if events == [] then d else After(Run(d, events[..|events| - 1], build), events[|events| - 1], build)
  }

  /** The times of all codes drawn, in order. */
  function Codes(d: Device, events: seq<Event>, build: U32): seq<U32> {
    if events == [] then []
    else
      var before := events[..|events| - 1];
      Codes(d, before, build) + Shown(Run(d, before, build), events[|events| - 1], build)
  }

  function Mark(d: Device): U32 {
    d.clock.nvs.lastSeen
  }

  /** What the panel should show for a reading and a state. */
  function Wanted(now: U32, s: ClockState): Screen {
    if s.Ok? then Code(now) else Status(s)
  }

  /** RAM and flash hold the same high-water mark, and the last panel draw is remembered. */
  predicate InSync(d: Device) {
    && d.clock.lastSeen == d.clock.nvs.lastSeen
    && (d.clock.state.Ok? ==> d.clock.nvs.provisioned)
    && (d.panel == FRESH || d.panel.screen == Wanted(d.panel.lastDrawn, d.panel.lastState))
  }

  // ---- The mark ---------------------------------------------------------------------------

  lemma {:induction false} AppliedAllMark(k: Clock, syncs: seq<Sync>, build: U32)
    requires k.lastSeen == k.nvs.lastSeen && (k.state.Ok? ==> k.nvs.provisioned)
    ensures var k' := AppliedAll(k, syncs, build);
            k'.lastSeen == k'.nvs.lastSeen >= k.lastSeen && (k'.state.Ok? ==> k'.nvs.provisioned) &&
            (k.nvs.provisioned ==> k'.nvs.provisioned) && (k.state.NoRtc? ==> k' == k.(rtc := k'.rtc)) &&
            (k'.nvs.provisioned ==> k.nvs.provisioned || build <= k'.lastSeen)
  {
    if syncs != [] {
      AppliedAllMark(k, syncs[..|syncs| - 1], build);
    }
  }

  /** A code's time is at least the mark before it is drawn, and at most 6 h above the mark after. */
  lemma StepMark(d: Device, e: Event, build: U32)
    requires InSync(d)
    ensures var d' := After(d, e, build);
            InSync(d') && Mark(d) <= Mark(d') &&
            forall t :: t in Shown(d, e, build) ==> Mark(d) <= t <= Mark(d') + HIGH_WATER_INTERVAL
  {
    if e.Pass? { AppliedAllMark(d.clock, e.syncs, build); }
  }

  lemma {:induction false} RunMark(d: Device, events: seq<Event>, build: U32)
    requires InSync(d)
    ensures var d' := Run(d, events, build); InSync(d') && Mark(d) <= Mark(d')
    ensures forall t :: t in Codes(d, events, build) ==>
              Mark(d) <= t <= Mark(Run(d, events, build)) + HIGH_WATER_INTERVAL
  {
    if events != [] {
      var before := events[..|events| - 1];
      RunMark(d, before, build);
      StepMark(Run(d, before, build), events[|events| - 1], build);
    }
  }

  /** No code is more than `bound` seconds older than one drawn before it. */
  ghost predicate WithinOf(codes: seq<U32>, bound: int) {
    forall i, j :: 0 <= i < j < |codes| ==> codes[i] <= codes[j] + bound
  }

  lemma WithinAppend(codes: seq<U32>, last: seq<U32>, mark: int, bound: int)
    requires WithinOf(codes, bound) && |last| <= 1
    requires forall t :: t in codes ==> t <= mark + bound
    requires forall t :: t in last ==> mark <= t
    ensures WithinOf(codes + last, bound)
  {
    forall i, j | 0 <= i < j < |codes + last| ensures (codes + last)[i] <= (codes + last)[j] + bound {
      if |codes| <= j {
        assert codes[i] in codes && last[j - |codes|] in last;
      } else {
        assert (codes + last)[i] == codes[i] && (codes + last)[j] == codes[j];
      }
    }
  }

  /** Whatever happens to the device, a later code is never more than 6 h older than an earlier one. */
  lemma {:induction false} CodesNeverFallBack(d: Device, events: seq<Event>, build: U32)
    requires InSync(d)
    ensures WithinOf(Codes(d, events, build), 21_600)
  {
    if events != [] {
      var before := events[..|events| - 1];
      CodesNeverFallBack(d, before, build);
      RunMark(d, before, build);
      var d' := Run(d, before, build);
      StepMark(d', events[|events| - 1], build);
      WithinAppend(Codes(d, before, build), Shown(d', events[|events| - 1], build), Mark(d'), HIGH_WATER_INTERVAL);
    }
  }

  ghost predicate FallsBackAtMost(build: U32, bound: int) {
    forall d, events | InSync(d) :: WithinOf(Codes(d, events, build), bound)
  }

  function AtRest(build: U32): Device
    requires build <= MAX_EPOCH
  {
    Device(Clock(Rtc(true, false, build + HIGH_WATER_INTERVAL), Nvs(true, build), Ok, build), FRESH)
  }

  function SixHoursBack(build: U32): seq<Event>
    requires build <= MAX_EPOCH
  {
    [Pass([], build + HIGH_WATER_INTERVAL), Pass([], build)]
  }

  lemma FallBackReached(build: U32)
    requires build <= MAX_EPOCH
    ensures Codes(AtRest(build), SixHoursBack(build), build) == [build + HIGH_WATER_INTERVAL, build]
  {
    var d, events := AtRest(build), SixHoursBack(build);
    var first := events[..1];
    assert first[..0] == [];
    var d1 := After(d, first[0], build);
    assert d1.panel.screen == Code(build + HIGH_WATER_INTERVAL) && d1.clock.lastSeen == build;
    assert Run(d, first, build) == d1 && Codes(d, first, build) == [build + HIGH_WATER_INTERVAL];
    assert After(d1, events[1], build).panel.screen == Code(build);
  }

  /** Six hours is exact: no smaller bound holds. */
  lemma FallBackExact(build: U32, bound: int)
    requires build <= MAX_EPOCH
    ensures FallsBackAtMost(build, bound) <==> 21_600 <= bound
  {
    if HIGH_WATER_INTERVAL <= bound {
      forall d, events | InSync(d) ensures WithinOf(Codes(d, events, build), bound) {
        CodesNeverFallBack(d, events, build);
      }
    } else {
      FallBackReached(build);
      var codes := Codes(AtRest(build), SixHoursBack(build), build);
      assert !(codes[0] <= codes[1] + bound);
      assert InSync(AtRest(build)) && !WithinOf(codes, bound);
    }
  }

  // ---- Set times are floors -----------------------------------------------------------------

  lemma Regroup<T>(a: seq<T>, b: seq<T>, c: seq<T>)
    ensures a + (b + c) == a + b + c
  {
  }

  lemma {:induction false} RunConcat(d: Device, first: seq<Event>, second: seq<Event>, build: U32)
    ensures Run(d, first + second, build) == Run(Run(d, first, build), second, build)
    ensures Codes(d, first + second, build) == Codes(d, first, build) + Codes(Run(d, first, build), second, build)
  {
    hide After, Shown;
    if second == [] {
      assert first + second == first;
    } else {
      var front := second[..|second| - 1];
      RunConcat(d, first, front, build);
      assert (first + second)[..|first + second| - 1] == first + front;
      Regroup(Codes(d, first, build), Codes(Run(d, first, build), front, build),
              Shown(Run(d, first + front, build), second[|second| - 1], build));
    }
  }

  lemma {:induction false} AppliedAllConcat(k: Clock, first: seq<Sync>, second: seq<Sync>, build: U32)
    ensures AppliedAll(k, first + second, build) == AppliedAll(AppliedAll(k, first, build), second, build)
  {
    if second == [] {
      assert first + second == first;
    } else {
      AppliedAllConcat(k, first, second[..|second| - 1], build);
      assert (first + second)[..|first + second| - 1] == first + second[..|second| - 1];
    }
  }

  /** A set that reaches the RTC, wherever it stands in its pass, leaves the mark at its time or later. */
  lemma SetRaisesMark(k: Clock, earlier: seq<Sync>, sync: Sync, rest: seq<Sync>, build: U32)
    requires k.lastSeen == k.nvs.lastSeen && (k.state.Ok? ==> k.nvs.provisioned)
    requires Admitted(AppliedAll(k, earlier, build), sync, build)
    ensures sync.epoch <= AppliedAll(k, earlier + [sync] + rest, build).lastSeen
  {
    AppliedAllMark(k, earlier, build);
    var k1 := AppliedAll(k, earlier, build);
    assert (earlier + [sync])[..|earlier|] == earlier;
    assert AppliedAll(k, earlier + [sync], build) == Applied(k1, sync, build);
    AppliedAllMark(Applied(k1, sync, build), rest, build);
    AppliedAllConcat(k, earlier + [sync], rest, build);
  }

  /** A pass shows nothing older than the mark its sets have left. */
  lemma PassAboveMark(d: Device, e: Event, build: U32)
    requires InSync(d) && e.Pass?
    ensures var mark := AppliedAll(d.clock, e.syncs, build).lastSeen;
            mark <= Mark(After(d, e, build)) && forall t :: t in Shown(d, e, build) ==> mark <= t
  {
    AppliedAllMark(d.clock, e.syncs, build);
  }

  lemma AfterFirst(d: Device, e: Event, later: seq<Event>, build: U32)
    ensures Codes(d, [e] + later, build) == Shown(d, e, build) + Codes(After(d, e, build), later, build)
  {
    hide After, Shown;
    var first := [e];
    assert first[..0] == [] && Run(d, [], build) == d && Codes(d, [], build) == [];
    assert Run(d, first, build) == After(d, e, build);
    assert Codes(d, first, build) == [] + Shown(d, e, build) == Shown(d, e, build);
    RunConcat(d, first, later, build);
  }

  /** Once a whole set has reached the RTC, no code for an earlier time is ever drawn again. */
  lemma SetTimeIsAFloor(d: Device, earlier: seq<Sync>, sync: Sync, rest: seq<Sync>, reading: U32, later: seq<Event>, build: U32)
    requires InSync(d) && Admitted(AppliedAll(d.clock, earlier, build), sync, build)
    ensures forall t :: t in Codes(d, [Pass(earlier + [sync] + rest, reading)] + later, build) ==> sync.epoch <= t
  {
    var e := Pass(earlier + [sync] + rest, reading);
    SetRaisesMark(d.clock, earlier, sync, rest, build);
    PassAboveMark(d, e, build);
    StepMark(d, e, build);
    RunMark(After(d, e, build), later, build);
    AfterFirst(d, e, later, build);
  }

  ghost predicate FloorAfterCut(d: Device, sync: Sync, stage: nat, build: U32) {
    forall later, t :: t in Codes(d, [CutSet(sync, stage)] + later, build) ==> sync.epoch <= t
  }

  /** The battery is pulled and the clock set again, to the mark. */
  function BackToMark(mark: U32): seq<Event> {
    [Disturb(Rtc(true, true, mark)), Reboot, Pass([Calm(mark, mark)], mark)]
  }

  lemma MarkShown(d: Device, build: U32)
    requires InSync(d) && build <= Mark(d)
    ensures Mark(d) in Codes(d, BackToMark(Mark(d)), build)
  {
    var e := BackToMark(Mark(d));
    assert e[..2][..1] == e[..1] && e[..1][..0] == [];
    var d1 := After(d, e[0], build);
    assert Run(d, e[..1], build) == d1;
    var d2 := After(d1, e[1], build);
    assert Run(d, e[..2], build) == d2 && d2.clock.state == Stopped;
    var syncs := e[2].syncs;
    assert syncs[..0] == [] && AppliedAll(d2.clock, [], build) == d2.clock;
    assert AppliedAll(d2.clock, syncs, build) == Applied(d2.clock, syncs[0], build);
    assert Shown(d2, e[2], build) == [Mark(d)];
  }

  /** If power fails between the RTC write and the mark, the time set is a floor exactly when the mark had already reached it. */
  lemma CutFloorExact(d: Device, sync: Sync, stage: nat, build: U32)
    requires InSync(d) && Admitted(d.clock, sync, build) && stage >= 1
    ensures FloorAfterCut(d, sync, stage, build) <==> sync.epoch <= Mark(d)
  {
    var e := CutSet(sync, stage);
    var d1 := After(d, e, build);
    StepMark(d, e, build);
    assert Mark(d1) == Mark(d) && Shown(d, e, build) == [];
    if sync.epoch <= Mark(d) {
      forall later, t | t in Codes(d, [e] + later, build) ensures sync.epoch <= t {
        AfterFirst(d, e, later, build);
        RunMark(d1, later, build);
      }
    } else {
      var later := if build <= Mark(d) then BackToMark(Mark(d)) else OldCode(d1, build);
      if build <= Mark(d) {
        MarkShown(d1, build);
      } else {
        CutShowsOldCode(d1, build);
      }
      AfterFirst(d, e, later, build);
      assert Mark(d) in Codes(d, [e] + later, build);
    }
  }

  /**
   On a clock that behaves, a set that gets past the guards changes the RTC and is reported
   as refused exactly when it is below the mark, by at most 300 s.
   */
  lemma RefusedButApplied(k: Clock, epoch: U32, now: U32, build: U32)
    requires Admitted(k, Calm(epoch, now), build)
    ensures var k' := Applied(k, Calm(epoch, now), build);
            k'.rtc.time == epoch && (k'.state == Ok <==> k.lastSeen <= epoch) &&
            (k'.state == Ok || (k'.state == WentBackwards && k.lastSeen - MAX_NUDGE_SECONDS <= epoch < k.lastSeen))
  {
  }

  // ---- 32 bits are enough --------------------------------------------------------------------

  predicate SyncInRange(sync: Sync) {
    sync.epoch <= MAX_EPOCH && sync.before <= MAX_EPOCH && sync.sample.time <= MAX_EPOCH
  }

  predicate InRange(e: Event) {
    match e
    case Pass(syncs, reading) => reading <= MAX_EPOCH && forall i :: 0 <= i < |syncs| ==> SyncInRange(syncs[i])
    case Reboot => true
    case Disturb(rtc) => rtc.time <= MAX_EPOCH
    case CutSet(sync, _) => SyncInRange(sync)
  }

  predicate Bounded(k: Clock) {
    k.rtc.time <= MAX_EPOCH && k.lastSeen <= MAX_EPOCH && k.nvs.lastSeen <= MAX_EPOCH
  }

  lemma {:induction false} AppliedAllBounded(k: Clock, syncs: seq<Sync>, build: U32)
    requires Bounded(k) && forall i :: 0 <= i < |syncs| ==> SyncInRange(syncs[i])
    ensures Bounded(AppliedAll(k, syncs, build))
  {
    if syncs != [] {
      AppliedAllBounded(k, syncs[..|syncs| - 1], build);
    }
  }

  /** Times up to 2100 keep the mark there, so adding the interval to it never wraps. */
  lemma {:induction false} MarkNeverWraps(d: Device, events: seq<Event>, build: U32)
    requires Bounded(d.clock) && forall i :: 0 <= i < |events| ==> InRange(events[i])
    ensures var k := Run(d, events, build).clock;
            Bounded(k) && (k.lastSeen + HIGH_WATER_INTERVAL) % 0x1_0000_0000 == k.lastSeen + HIGH_WATER_INTERVAL
  {
    if events != [] {
      var before, e := events[..|events| - 1], events[|events| - 1];
      MarkNeverWraps(d, before, build);
      assert InRange(e);
      if e.Pass? { AppliedAllBounded(Run(d, before, build).clock, e.syncs, build); }
    }
  }

  // ---- The build floor -------------------------------------------------------------------------

  predicate CutAfterFlag(e: Event) {
    e.CutSet? && e.stage >= 2
  }

  lemma {:induction false} ProvisionedMeansMarked(d: Device, events: seq<Event>, build: U32)
    requires InSync(d) && (d.clock.nvs.provisioned ==> build <= Mark(d))
    requires forall i :: 0 <= i < |events| ==> !CutAfterFlag(events[i])
    ensures var d' := Run(d, events, build); InSync(d') && (d'.clock.nvs.provisioned ==> build <= Mark(d'))
    ensures forall t :: t in Codes(d, events, build) ==> build <= t
  {
    if events != [] {
      var before, e := events[..|events| - 1], events[|events| - 1];
      ProvisionedMeansMarked(d, before, build);
      var d1 := Run(d, before, build);
      StepMark(d1, e, build);
      assert !CutAfterFlag(e);
      if e.Pass? { AppliedAllMark(d1.clock, e.syncs, build); }
    }
  }

  /** One firmware build from the factory on, with no power cut between the flag and the mark: no code is older than the build. */
  lemma CodesNotBeforeBuild(rtc: Rtc, events: seq<Event>, build: U32)
    requires forall i :: 0 <= i < |events| ==> !CutAfterFlag(events[i])
    ensures forall t :: t in Codes(Booted(Clock(rtc, Nvs(false, 0), NoRtc, 0), build), events, build) ==> build <= t
  {
    ProvisionedMeansMarked(Booted(Clock(rtc, Nvs(false, 0), NoRtc, 0), build), events, build);
  }

  ghost predicate NeverBeforeBuildUncut(d: Device, build: U32) {
    forall events, t :: (forall i :: 0 <= i < |events| ==> !CutAfterFlag(events[i])) && t in Codes(d, events, build) ==> build <= t
  }

  /** The clock is right at boot and falls back to the mark afterwards. */
  function Reflashed(mark: U32, build: U32): seq<Event> {
    [Disturb(Rtc(true, false, build)), Reboot, Pass([], mark)]
  }

  lemma ReflashShowsMark(d: Device, build: U32)
    requires InSync(d) && d.clock.nvs.provisioned && Mark(d) < build
    ensures Mark(d) in Codes(d, Reflashed(Mark(d), build), build)
  {
    var e := Reflashed(Mark(d), build);
    assert e[..2][..1] == e[..1] && e[..1][..0] == [];
    var d1 := After(d, e[0], build);
    assert Run(d, e[..1], build) == d1;
    var d2 := After(d1, e[1], build);
    assert Run(d, e[..2], build) == d2 && d2.clock.state == Ok;
    assert Shown(d2, e[2], build) == [Mark(d)];
  }

  /** Without such cuts the floor holds exactly when the keychain was not set under an older build or its mark has passed this one. */
  lemma UncutFloorExact(d: Device, build: U32)
    requires InSync(d)
    ensures NeverBeforeBuildUncut(d, build) <==> (d.clock.nvs.provisioned ==> build <= Mark(d))
  {
    if d.clock.nvs.provisioned && Mark(d) < build {
      ReflashShowsMark(d, build);
      var events := Reflashed(Mark(d), build);
      assert forall i :: 0 <= i < |events| ==> !CutAfterFlag(events[i]);
    } else {
      forall events, t | (forall i :: 0 <= i < |events| ==> !CutAfterFlag(events[i])) && t in Codes(d, events, build)
        ensures build <= t
      {
        ProvisionedMeansMarked(d, events, build);
      }
    }
  }

  ghost predicate NeverBeforeBuild(d: Device, build: U32) {
    forall events, t :: t in Codes(d, events, build) ==> build <= t
  }

  function OldCode(d: Device, build: U32): seq<Event> {
    [Disturb(Rtc(true, false, build)), Reboot, CutSet(Calm(build, build), 2), Pass([], Mark(d))]
  }

  lemma CutShowsOldCode(d: Device, build: U32)
    requires InSync(d) && Mark(d) < build
    ensures Mark(d) in Codes(d, OldCode(d, build), build)
  {
    var e := OldCode(d, build);
    assert e[..3][..2] == e[..2] && e[..2][..1] == e[..1] && e[..1][..0] == [];
    var d1 := After(d, e[0], build);
    assert Run(d, e[..1], build) == d1;
    var d2 := After(d1, e[1], build);
    assert Run(d, e[..2], build) == d2;
    assert Admitted(d2.clock, Calm(build, build), build);
    var d3 := After(d2, e[2], build);
    assert Run(d, e[..3], build) == d3 && d3.clock.state == Ok && Mark(d3) == Mark(d);
    assert Shown(d3, e[3], build) == [Mark(d)];
  }

  /** If power may also fail there, the floor holds exactly when the mark has passed the build. */
  lemma BuildFloorExact(d: Device, build: U32)
    requires InSync(d)
    ensures NeverBeforeBuild(d, build) <==> build <= Mark(d)
  {
    if build <= Mark(d) {
      forall events, t | t in Codes(d, events, build) ensures build <= t { RunMark(d, events, build); }
    } else {
      CutShowsOldCode(d, build);
    }
  }

  // ---- The panel -------------------------------------------------------------------------------

  /**
   Redrawing only on a change shows the same as drawing every time, except that a device
   whose very first pass finds no clock draws nothing.
   */
  lemma PanelIsFaithful(d: Device, syncs: seq<Sync>, reading: U32, build: U32)
    requires InSync(d)
    ensures var d' := After(d, Pass(syncs, reading), build);
            d'.panel.screen == Wanted(reading, d'.clock.state) <==> !(d.panel == FRESH && d'.clock.state.NoRtc?)
  {
  }

  /** The text for a missing clock never appears on a device that boots without one. */
  lemma {:induction false} NoClockIsNeverDrawn(k: Clock, events: seq<Event>, build: U32)
    requires !k.rtc.present && forall i :: 0 <= i < |events| ==> events[i].Pass? || events[i].Disturb?
    ensures var d := Run(Booted(k, build), events, build); d.clock.state == NoRtc && d.panel == FRESH
    ensures Codes(Booted(k, build), events, build) == []
  {
    var d := Booted(k, build);
    if events != [] {
      var before := events[..|events| - 1];
      NoClockIsNeverDrawn(k, before, build);
      NoClockPass(Run(d, before, build), events[|events| - 1], build);
    }
  }

  lemma NoClockPass(d: Device, e: Event, build: U32)
    requires d.clock.state == NoRtc && d.panel == FRESH && (e.Pass? || e.Disturb?)
    ensures var d' := After(d, e, build); d'.clock.state == NoRtc && d'.panel == FRESH
  {
    if e.Pass? { NoClockSets(d.clock, e.syncs, build); }
  }

  lemma {:induction false} NoClockSets(k: Clock, syncs: seq<Sync>, build: U32)
    requires k.state == NoRtc
    ensures AppliedAll(k, syncs, build).state == NoRtc
  {
    if syncs != [] {
      NoClockSets(k, syncs[..|syncs| - 1], build);
    }
  }
}
