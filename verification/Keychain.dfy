/**
 The keychain's clock: an RTC that may do anything, two values kept in flash, and their
 mirrors in RAM. A code is shown only while the clock is trusted.
 */
module Keychain {

  type U32 = x: int | 0 <= x < 0x1_0000_0000

  datatype ClockState = Ok | NoRtc | Stopped | NeverSet | WentBackwards

  /** The DS3231: whether it answers, its oscillator-stop flag, and its time. */
  datatype Rtc = Rtc(present: bool, lostPower: bool, time: U32)

  /** What survives a reboot. */
  datatype Nvs = Nvs(provisioned: bool, lastSeen: U32)

  /** What the panel shows; Splash is whatever it holds before the first draw. */
  datatype Screen = Splash | Code(time: U32) | Status(state: ClockState)

  const MAX_NUDGE_SECONDS: int := 300
  const HIGH_WATER_INTERVAL: int := 6 * 3600
  const MAX_EPOCH: int := 4_102_444_800

  // ---- The clock as a value ---------------------------------------------------------

  datatype Clock = Clock(rtc: Rtc, nvs: Nvs, state: ClockState, lastSeen: U32)

  function Evaluate(k: Clock, build: U32): ClockState {
    if !k.rtc.present then NoRtc
    else if k.rtc.lostPower then Stopped
    else if !k.nvs.provisioned then NeverSet
    else if k.rtc.time < build then Stopped
    else if k.rtc.time < k.lastSeen then WentBackwards
    else Ok
  }

  function Begun(k: Clock, build: U32): Clock {
    var k1 := k.(lastSeen := k.nvs.lastSeen);
    k1.(state := Evaluate(k1, build))
  }

  function HighWater(k: Clock, t: U32): Clock {
    k.(lastSeen := t, nvs := k.nvs.(lastSeen := t))
  }

  /** last_seen + HIGH_WATER_INTERVAL is computed in 32 bits. */
  function Remembered(k: Clock, now: U32): Clock {
    if now > (k.lastSeen + HIGH_WATER_INTERVAL) % 0x1_0000_0000 then HighWater(k, now) else k
  }

  function Read(k: Clock): Clock {
    if !k.state.Ok? then k
    else if k.rtc.time < k.lastSeen then k.(state := WentBackwards)
    else Remembered(k, k.rtc.time)
  }

  /** Whether a set gets past the guards, and so reaches the RTC. */
  predicate SetAdmitted(k: Clock, epoch: U32, build: U32) {
    && !k.state.NoRtc? && build <= epoch
    && (k.state.Ok? ==> -MAX_NUDGE_SECONDS <= epoch - k.rtc.time <= MAX_NUDGE_SECONDS)
    && k.lastSeen - MAX_NUDGE_SECONDS <= epoch
  }

  function Adjusted(k: Clock, epoch: U32): Clock {
    k.(rtc := k.rtc.(time := epoch, lostPower := false))
  }

  function Provisioned(k: Clock): Clock {
    k.(nvs := k.nvs.(provisioned := true))
  }

  function Marked(k: Clock, epoch: U32): Clock {
    if epoch > k.lastSeen then HighWater(k, epoch) else k
  }

  /**
   A time set over serial, with what the RTC does meanwhile: `before` is its reading when the
   jump is checked, `sample` what evaluate() reads once the RTC has been written.
   */
  datatype Sync = Sync(epoch: U32, before: U32, sample: Rtc)

  /** A set during which the clock behaves: it reads `now`, takes the new time and keeps it. */
  function Calm(epoch: U32, now: U32): Sync {
    Sync(epoch, now, Rtc(true, false, epoch))
  }

  function At(k: Clock, time: U32): Clock {
    k.(rtc := k.rtc.(time := time))
  }

  predicate Admitted(k: Clock, sync: Sync, build: U32) {
    SetAdmitted(At(k, sync.before), sync.epoch, build)
  }

  function Applied(k: Clock, sync: Sync, build: U32): Clock {
    var k0 := At(k, sync.before);
    if !SetAdmitted(k0, sync.epoch, build) then k0
    else
      var k1 := Marked(Provisioned(Adjusted(k0, sync.epoch)), sync.epoch).(rtc := sync.sample);
      k1.(state := Evaluate(k1, build))
  }

  // ---- The firmware -------------------------------------------------------------------

  class Firmware {
    const build: U32
    var rtc: Rtc
    var nvs: Nvs
    var state: ClockState
    var lastSeen: U32
    var lastDrawn: U32
    var lastState: ClockState
    var screen: Screen

    /** Power on: setup(), with RAM and panel fresh. */
    constructor (build: U32, rtc: Rtc, nvs: Nvs)
      ensures this.build == build && lastDrawn == 0 && lastState == NoRtc && screen == Splash
      ensures View() == Begun(Clock(rtc, nvs, NoRtc, 0), build)
    {
      this.build, this.rtc, this.nvs := build, rtc, nvs;
      state, lastSeen, lastDrawn, lastState, screen := NoRtc, 0, 0, NoRtc, Splash;
      new;
      ClockBegin();
    }

    function View(): Clock
      reads this
    {
      Clock(rtc, nvs, state, lastSeen)
    }

    method EvaluateNow() returns (s: ClockState)
      ensures s == Evaluate(View(), build)
    {
      if !rtc.present { return NoRtc; }
      if rtc.lostPower { return Stopped; }
      if !nvs.provisioned { return NeverSet; }
      var now := rtc.time;
      if now < build { return Stopped; }
      if now < lastSeen { return WentBackwards; }
      return Ok;
    }

    method ClockBegin()
      modifies `state, `lastSeen
      ensures View() == Begun(old(View()), build)
    {
      lastSeen := nvs.lastSeen;
      state := EvaluateNow();
    }

    method SetHighWater(t: U32)
      modifies `nvs, `lastSeen
      ensures View() == HighWater(old(View()), t)
    {
      lastSeen := t;
      nvs := nvs.(lastSeen := t);
    }

    method RememberTime(now: U32)
      modifies `nvs, `lastSeen
      ensures View() == Remembered(old(View()), now)
    {
      if now > (lastSeen + HIGH_WATER_INTERVAL) % 0x1_0000_0000 {
        SetHighWater(now);
      }
    }

    /** The RTC is read, and may have moved to any time by then. */
    method RtcNow(time: U32) returns (now: U32)
      modifies `rtc
      ensures now == time && View() == At(old(View()), time)
    {
      rtc := rtc.(time := time);
      now := rtc.time;
    }

    method ClockNow(reading: U32) returns (now: U32)
      modifies `rtc, `nvs, `lastSeen, `state
      ensures now == reading && View() == Read(At(old(View()), reading))
      ensures state == Ok ==> lastSeen <= now <= lastSeen + 21_600
    {
      now := RtcNow(reading);
      if state == Ok {
        if now < lastSeen {
          state := WentBackwards;
        } else {
          RememberTime(now);
        }
      }
    }

    method ApplyTime(sync: Sync) returns (ok: bool)
      modifies `rtc, `nvs, `lastSeen, `state
      ensures View() == Applied(old(View()), sync, build)
      ensures ok <==> Admitted(old(View()), sync, build) && state == Ok
      ensures var refused := old(state) == NoRtc || sync.epoch < build || sync.epoch + 300 < old(lastSeen) ||
                             (old(state) == Ok && (sync.epoch + 300 < sync.before || sync.before + 300 < sync.epoch));
              if refused then !ok && View() == At(old(View()), sync.before)
              else rtc == sync.sample && nvs.provisioned && (ok <==> state == Ok) &&
                   lastSeen == (if old(lastSeen) < sync.epoch then sync.epoch else old(lastSeen))
    {
      var epoch := sync.epoch;
      var now := RtcNow(sync.before);
      if state == NoRtc { return false; }
      if epoch < build { return false; }
      if state == Ok {
        var delta := epoch - now;
        if delta < -MAX_NUDGE_SECONDS || delta > MAX_NUDGE_SECONDS { return false; }
      }
      if epoch < lastSeen - MAX_NUDGE_SECONDS { return false; }
      rtc := rtc.(time := epoch, lostPower := false);
      nvs := nvs.(provisioned := true);
      if epoch > lastSeen { SetHighWater(epoch); }
      rtc := sync.sample;
      state := EvaluateNow();
      ok := state == Ok;
    }

    /** One pass of loop(), with the times set over serial since the last pass. */
    method Loop(syncs: seq<Sync>, reading: U32)
      modifies this
      ensures (View(), Panel(lastDrawn, lastState, screen)) ==
              AfterLoop(old(View()), old(Panel(lastDrawn, lastState, screen)), syncs, reading, build)
    {
      var i := 0;
      while i < |syncs|
        invariant 0 <= i <= |syncs|
        invariant View() == AppliedAll(old(View()), syncs[..i], build)
        invariant lastDrawn == old(lastDrawn) && lastState == old(lastState) && screen == old(screen)
      {
        var _ := ApplyTime(syncs[i]);
        assert syncs[..i + 1][..i] == syncs[..i];
        i := i + 1;
      }
      assert syncs[..i] == syncs;
      var s := state;
      var now: U32 := 0;
      if s != NoRtc {
        now := ClockNow(reading);
      }
      s := state;
      if now != lastDrawn || s != lastState {
        if s == Ok {
          screen := Code(now);
        } else {
          screen := Status(s);
        }
        lastDrawn := now;
        lastState := s;
      }
    }
  }

  // ---- One pass as a value ----------------------------------------------------------------

  datatype Panel = Panel(lastDrawn: U32, lastState: ClockState, screen: Screen)

  function AppliedAll(k: Clock, syncs: seq<Sync>, build: U32): Clock {
    if syncs == [] then k
    else Applied(AppliedAll(k, syncs[..|syncs| - 1], build), syncs[|syncs| - 1], build)
  }

  function Drawn(p: Panel, now: U32, s: ClockState): Panel {
    if now != p.lastDrawn || s != p.lastState
    then Panel(now, s, if s.Ok? then Code(now) else Status(s))
    else p
  }

  function AfterLoop(k: Clock, p: Panel, syncs: seq<Sync>, reading: U32, build: U32): (Clock, Panel) {
    var k1 := AppliedAll(k, syncs, build);
    var k2 := if k1.state.NoRtc? then k1 else Read(At(k1, reading));
    (k2, Drawn(p, if k1.state.NoRtc? then 0 else reading, k2.state))
  }
}
