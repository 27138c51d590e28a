/** What a time set over serial can do to the keychain's clock, and how far sets can move one that behaves. */
module KeychainDrift {
  import opened Keychain
  import opened KeychainSafety

  // ---- One set ------------------------------------------------------------------------------

  /**
   A set is refused, and leaves everything but the RTC's own movement as it was, without a clock, before
   the build, more than 300 s below the mark, or, while the clock is trusted, more than 300 s from it.
   Any other set reaches the RTC, the flag and the mark, and its state is judged afresh.
   */
  lemma SetExactly(k: Clock, sync: Sync, build: U32)
    ensures var refused := k.state.NoRtc? || sync.epoch < build || sync.epoch + 300 < k.lastSeen ||
                           (k.state.Ok? && (sync.epoch + 300 < sync.before || sync.before + 300 < sync.epoch));
            var k' := Applied(k, sync, build);
            if refused then k' == k.(rtc := k.rtc.(time := sync.before))
            else
              k'.rtc == sync.sample && k'.nvs.provisioned &&
              k'.lastSeen == (if k.lastSeen < sync.epoch then sync.epoch else k.lastSeen) &&
              k'.nvs.lastSeen == (if k.lastSeen < sync.epoch then sync.epoch else k.nvs.lastSeen) &&
              k'.state == (if !sync.sample.present then NoRtc
                           else if sync.sample.lostPower || sync.sample.time < build then Stopped
                           else if sync.sample.time < k'.lastSeen then WentBackwards else Ok)
  {
  }

  /**
   The first pass after a boot shows a code exactly when the RTC answers, has not stopped and was set before,
   neither it nor its next reading is below the mark, and it was not before the build.
   */
  lemma FirstCodeExactly(k: Clock, reading: U32, build: U32)
    ensures Shown(Booted(k, build), Pass([], reading), build) ==
            if k.rtc.present && !k.rtc.lostPower && k.nvs.provisioned && build <= k.rtc.time &&
               k.nvs.lastSeen <= k.rtc.time && k.nvs.lastSeen <= reading
            then [reading] else []
  {
    assert AppliedAll(Begun(k, build), [], build) == Begun(k, build);
  }

  // ---- Lives of an RTC that behaves ------------------------------------------------------------

  /** `wait` seconds go by and then one pass runs, with its sets. */
  datatype Turn = Turn(wait: nat, syncs: seq<Sync>)

  /** Each set finds the RTC where the one before left it, and leaves it at the time set. */
  ghost predicate CalmSets(k: Clock, syncs: seq<Sync>, build: U32) {
    syncs == [] ||
    (var front, last := syncs[..|syncs| - 1], syncs[|syncs| - 1];
     CalmSets(k, front, build) && last == Calm(last.epoch, AppliedAll(k, front, build).rtc.time))
  }

  predicate Fits(k: Clock, wait: nat) {
    k.rtc.time + wait < 0x1_0000_0000
  }

  function Later(k: Clock, wait: nat): Clock
    requires Fits(k, wait)
  {
    At(k, k.rtc.time + wait)
  }

  /** The RTC has advanced by the wait, the sets are made, and the pass reads it where they leave it. */
  function AfterTurn(d: Device, turn: Turn, build: U32): Device
    requires Fits(d.clock, turn.wait)
  {
    After(d.(clock := Later(d.clock, turn.wait)),
          Pass(turn.syncs, AppliedAll(Later(d.clock, turn.wait), turn.syncs, build).rtc.time), build)
  }

  /** A turn for which 32 bits do not suffice is not taken. */
  function Lived(d: Device, turns: seq<Turn>, build: U32): Device {
    if turns == [] then d
    else
      var d1 := Lived(d, turns[..|turns| - 1], build);
      if Fits(d1.clock, turns[|turns| - 1].wait) then AfterTurn(d1, turns[|turns| - 1], build) else d1
  }

  ghost predicate CalmLife(d: Device, turns: seq<Turn>, build: U32) {
    turns == [] ||
    (var front, last := turns[..|turns| - 1], turns[|turns| - 1];
     var d1 := Lived(d, front, build);
     CalmLife(d, front, build) && Fits(d1.clock, last.wait) && CalmSets(Later(d1.clock, last.wait), last.syncs, build))
  }

  function Waited(turns: seq<Turn>): nat {
    if turns == [] then 0 else Waited(turns[..|turns| - 1]) + turns[|turns| - 1].wait
  }

  function Sets(turns: seq<Turn>): nat {
    if turns == [] then 0 else Sets(turns[..|turns| - 1]) + |turns[|turns| - 1].syncs|
  }

  /** No set that reaches the RTC is below the mark. */
  ghost predicate NoneBelowMark(k: Clock, syncs: seq<Sync>, build: U32) {
    syncs == [] ||
    (var front, last := syncs[..|syncs| - 1], syncs[|syncs| - 1];
     var k1 := AppliedAll(k, front, build);
     NoneBelowMark(k, front, build) && (Admitted(k1, last, build) ==> k1.lastSeen <= last.epoch))
  }

  ghost predicate NeverBelowMark(d: Device, turns: seq<Turn>, build: U32) {
    turns == [] ||
    (var front, last := turns[..|turns| - 1], turns[|turns| - 1];
     var d1 := Lived(d, front, build);
     NeverBelowMark(d, front, build) &&
     (Fits(d1.clock, last.wait) ==> NoneBelowMark(Later(d1.clock, last.wait), last.syncs, build)))
  }

  predicate Trusted(k: Clock) {
    k.state.Ok? && k.lastSeen <= k.rtc.time
  }

  // ---- 300 s a set ---------------------------------------------------------------------------------

  predicate Within(moved: int, most: int) {
    -most <= moved <= most
  }

  lemma {:induction false} SetsDrift(k: Clock, syncs: seq<Sync>, build: U32)
    requires Trusted(k) && CalmSets(k, syncs, build) && NoneBelowMark(k, syncs, build)
    ensures var k' := AppliedAll(k, syncs, build); Trusted(k') && Within(k'.rtc.time - k.rtc.time, 300 * |syncs|)
  {
    if syncs != [] {
      SetsDrift(k, syncs[..|syncs| - 1], build);
    }
  }

  lemma TurnDrifts(d: Device, turn: Turn, build: U32)
    requires Trusted(d.clock) && Fits(d.clock, turn.wait)
    requires CalmSets(Later(d.clock, turn.wait), turn.syncs, build) && NoneBelowMark(Later(d.clock, turn.wait), turn.syncs, build)
    ensures var d' := AfterTurn(d, turn, build);
            Trusted(d'.clock) && Within(d'.clock.rtc.time - d.clock.rtc.time - turn.wait, 300 * |turn.syncs|)
  {
    var k := Later(d.clock, turn.wait);
    SetsDrift(k, turn.syncs, build);
    var k1 := AppliedAll(k, turn.syncs, build);
    hide CalmSets, NoneBelowMark, AppliedAll;
    assert AfterTurn(d, turn, build).clock == Read(At(k1, k1.rtc.time));
  }

  /** On a clock that behaves, no set of a life ever landing below the mark, n sets move it at most 300 n seconds, and it stays trusted. */
  lemma {:induction false} DriftBound(d: Device, turns: seq<Turn>, build: U32)
    requires Trusted(d.clock) && CalmLife(d, turns, build) && NeverBelowMark(d, turns, build)
    ensures var d' := Lived(d, turns, build);
            Trusted(d'.clock) && Within(d'.clock.rtc.time - d.clock.rtc.time - Waited(turns), 300 * Sets(turns))
  {
    hide AfterTurn, CalmSets, NoneBelowMark, Trusted;
    if turns != [] {
      DriftBound(d, turns[..|turns| - 1], build);
      TurnDrifts(Lived(d, turns[..|turns| - 1], build), turns[|turns| - 1], build);
    }
  }

  function Nudges(n: nat): seq<Sync>
    requires 300 * n < 0x1_0000_0000
  {
    if n == 0 then [] else Nudges(n - 1) + [Calm(300 * n, 300 * (n - 1))]
  }

  function TrustedAt(time: U32): Clock {
    Clock(Rtc(true, false, time), Nvs(true, time), Ok, time)
  }

  lemma {:induction false} NudgesClimb(n: nat)
    requires 300 * n < 0x1_0000_0000
    ensures |Nudges(n)| == n && AppliedAll(TrustedAt(0), Nudges(n), 0) == TrustedAt(300 * n)
    ensures CalmSets(TrustedAt(0), Nudges(n), 0) && NoneBelowMark(TrustedAt(0), Nudges(n), 0)
  {
    if n > 0 {
      NudgesClimb(n - 1);
      assert Nudges(n)[..n - 1] == Nudges(n - 1);
      assert Applied(TrustedAt(300 * (n - 1)), Calm(300 * n, 300 * (n - 1)), 0) == TrustedAt(300 * n);
    }
  }

  ghost predicate DriftsAtMost(n: nat, bound: int) {
    forall d: Device, turns, build ::
      Trusted(d.clock) && CalmLife(d, turns, build) && NeverBelowMark(d, turns, build) && Sets(turns) == n ==>
        Within(Lived(d, turns, build).clock.rtc.time - d.clock.rtc.time - Waited(turns), bound)
  }

  /** And as far as that they can move it. */
  lemma DriftBoundExact(n: nat, bound: int)
    requires 300 * n < 0x1_0000_0000
    ensures DriftsAtMost(n, bound) <==> 300 * n <= bound
  {
    if 300 * n <= bound {
      forall d: Device, turns, build |
        Trusted(d.clock) && CalmLife(d, turns, build) && NeverBelowMark(d, turns, build) && Sets(turns) == n
        ensures Within(Lived(d, turns, build).clock.rtc.time - d.clock.rtc.time - Waited(turns), bound)
      {
        DriftBound(d, turns, build);
      }
    } else {
      ClimbLives(n);
      assert !Within(300 * n, bound);
    }
  }

  lemma ClimbLives(n: nat)
    requires 300 * n < 0x1_0000_0000
    ensures var d, turns := Device(TrustedAt(0), FRESH), [Turn(0, Nudges(n))];
            Trusted(d.clock) && CalmLife(d, turns, 0) && NeverBelowMark(d, turns, 0) && Sets(turns) == n &&
            Lived(d, turns, 0).clock.rtc.time - d.clock.rtc.time - Waited(turns) == 300 * n
  {
    NudgesClimb(n);
    var d, turns := Device(TrustedAt(0), FRESH), [Turn(0, Nudges(n))];
    assert turns[..0] == [] && Later(d.clock, 0) == TrustedAt(0);
    assert Lived(d, turns[..0], 0) == d;
    hide CalmSets, NoneBelowMark, AppliedAll, Nudges;
  }

  // ---- A set below the mark lifts the limit -----------------------------------------------------------

  /** The limit on the next set, whatever it is. */
  ghost predicate NextSetLimited(k: Clock, build: U32) {
    forall epoch: U32 :: Admitted(k, Calm(epoch, k.rtc.time), build) ==> Within(epoch - k.rtc.time, 300)
  }

  /** After a set of a trusted clock the next one is limited as well, exactly unless it landed below the mark. */
  lemma NextSetLimitedExactly(k: Clock, epoch: U32, now: U32, build: U32)
    requires Trusted(At(k, now)) && now <= MAX_EPOCH && build <= MAX_EPOCH
    ensures NextSetLimited(Applied(k, Calm(epoch, now), build), build) <==>
            !(build <= epoch && now <= epoch + 300 && k.lastSeen <= epoch + 300 && epoch < k.lastSeen)
  {
    var k' := Applied(k, Calm(epoch, now), build);
    if build <= epoch && now <= epoch + 300 && k.lastSeen <= epoch + 300 && epoch < k.lastSeen {
      assert k'.state.WentBackwards? && k'.rtc.time == epoch;
      var far: U32 := 0xFFFF_FFFF;
      assert Admitted(k', Calm(far, epoch), build) && !Within(far - epoch, 300);
    } else {
      assert k'.state.Ok?;
    }
  }

  /** The clock waits until its mark is saved, is set one second back, and then to anything. */
  function Detour(d: Device, target: U32, build: U32): seq<Turn>
    requires d.clock.rtc.time <= MAX_EPOCH && d.clock.lastSeen <= MAX_EPOCH && build <= MAX_EPOCH
  {
    var r := SavedAt(d.clock, build);
    [Turn(r - d.clock.rtc.time, []), Turn(0, [Calm(r - 1, r), Calm(target, r - 1)])]
  }

  function SavedAt(k: Clock, build: U32): (r: U32)
    requires k.rtc.time <= MAX_EPOCH && k.lastSeen <= MAX_EPOCH && build <= MAX_EPOCH
    ensures k.rtc.time < r && k.lastSeen + HIGH_WATER_INTERVAL < r && build < r
  {
    var top := if k.rtc.time < k.lastSeen + HIGH_WATER_INTERVAL then k.lastSeen + HIGH_WATER_INTERVAL else k.rtc.time;
    (if top < build then build else top) + 1
  }

  lemma MarkSaved(d: Device, build: U32)
    requires Trusted(d.clock) && d.clock.rtc.time <= MAX_EPOCH && build <= MAX_EPOCH
    ensures var r := SavedAt(d.clock, build);
            var k := AfterTurn(d, Turn(r - d.clock.rtc.time, []), build).clock;
            k.state == Ok && k.lastSeen == r && k.rtc.time == r && k.nvs.provisioned == d.clock.nvs.provisioned
  {
    var r := SavedAt(d.clock, build);
    assert AppliedAll(Later(d.clock, r - d.clock.rtc.time), [], build) == Later(d.clock, r - d.clock.rtc.time);
  }

  lemma BackAndAway(k: Clock, r: U32, target: U32, build: U32)
    requires k.state == Ok && k.lastSeen == r && k.rtc.time == r && build < r <= target
    ensures var syncs := [Calm(r - 1, r), Calm(target, r - 1)];
            CalmSets(k, syncs, build) && AppliedAll(k, syncs, build).rtc.time == target &&
            Trusted(AppliedAll(k, syncs, build))
  {
    var syncs := [Calm(r - 1, r), Calm(target, r - 1)];
    assert syncs[..1] == [Calm(r - 1, r)] && syncs[..1][..0] == [];
    assert AppliedAll(k, [], build) == k;
    var k1 := AppliedAll(k, syncs[..1], build);
    assert k1 == Applied(k, Calm(r - 1, r), build);
    assert k1.rtc.time == r - 1 && k1.lastSeen == r && k1.state == WentBackwards;
    assert CalmSets(k, syncs[..1], build);
  }

  /** So without that condition two sets take a trusted clock, trusted again, to any later time. */
  lemma TwoSetsReachAnything(d: Device, target: U32, build: U32)
    requires Trusted(d.clock) && d.clock.rtc.time <= MAX_EPOCH && build <= MAX_EPOCH && SavedAt(d.clock, build) <= target
    ensures var turns := Detour(d, target, build);
            var d' := Lived(d, turns, build);
            CalmLife(d, turns, build) && Sets(turns) == 2 && Trusted(d'.clock) && d'.clock.rtc.time == target
  {
    var r, turns := SavedAt(d.clock, build), Detour(d, target, build);
    assert turns[..1] == [turns[0]] && turns[..1][..0] == [];
    assert Lived(d, [], build) == d && Sets([]) == 0 && Sets(turns[..1]) == 0;
    MarkSaved(d, build);
    var d1 := AfterTurn(d, turns[0], build);
    assert Lived(d, turns[..1], build) == d1;
    BackAndAway(d1.clock, r, target, build);
    assert Later(d1.clock, 0) == d1.clock;
    hide CalmSets, Calm, SavedAt;
    var k2 := AppliedAll(d1.clock, turns[1].syncs, build);
    assert AfterTurn(d1, turns[1], build).clock == Read(At(k2, k2.rtc.time));
    assert CalmLife(d, turns[..1], build);
  }
}
