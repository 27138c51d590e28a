/**
 One-time codes on both sides: the server's computation, the firmware's copy, and the
 verifier's search of the three windows around now. The MAC is any function of a key and
 a message with 32 bytes of output.
 */
module Otp {
  import opened Numerals
  import opened Ids

  type Byte = x: int | 0 <= x < 256
  type Digest = s: seq<Byte> | |s| == 32 witness seq(32, i => 0)
  type Mac = (string, seq<Byte>) -> Digest

  const DIGITS: nat := 8
  const STEP_SECONDS: nat := 90
  const KEY_HEX_LEN: nat := 128

  // ---- Reference definitions: RFC 4226 section 5.3, RFC 6238 section 4.2 ----------------

  /** The number a byte string stands for, most significant byte first. */
  function BigEndian(b: seq<Byte>): nat {
    if b == [] then 0 else BigEndian(b[..|b| - 1]) * 256 + b[|b| - 1]
  }

  /** The last 31 bits of the four bytes at the offset named by the low nibble of the last byte. */
  function DynamicBinaryCode(mac: Digest): (code: nat)
    ensures code < 0x8000_0000
  {
    var offset := mac[31] % 16;
    BigEndian(mac[offset..offset + 4]) % 0x8000_0000
  }

  function Hotp(mac: Digest, digits: nat): nat {
    DynamicBinaryCode(mac) % Pow10(digits)
  }

  function CounterBytes(counter: nat, n: nat): (b: seq<Byte>)
    ensures |b| == n
  {
    if n == 0 then [] else CounterBytes(counter / 256, n - 1) + [counter % 256]
  }

  /** The code of a key and a counter, as digits. */
  function CodeAt(mac: Mac, key: string, counter: nat): string {
    Padded(Hotp(mac(key, CounterBytes(counter, 8)), DIGITS), DIGITS)
  }

  function CounterForTime(t: nat): nat {
    t / STEP_SECONDS
  }

  function Pow256(n: nat): (p: nat)
    ensures p > 0
  {
    if n == 0 then 1 else 256 * Pow256(n - 1)
  }

  /** The counter's encoding loses nothing: 64-bit counters have different messages. */
  lemma {:induction false} CounterRoundTrip(counter: nat, n: nat)
    requires counter < Pow256(n)
    ensures BigEndian(CounterBytes(counter, n)) == counter
  {
    if n > 0 {
      CounterRoundTrip(counter / 256, n - 1);
      var b := CounterBytes(counter, n);
      assert b[..|b| - 1] == CounterBytes(counter / 256, n - 1);
    }
  }

  /** Four bytes joined by shifts and ors, with the top bit masked off. */
  function Joined(b0: int, b1: int, b2: int, b3: int): int {
    b0 % 128 * 0x100_0000 + b1 * 0x1_0000 + b2 * 0x100 + b3
  }

  lemma FourBytes(b: seq<Byte>)
    requires |b| == 4
    ensures BigEndian(b) % 0x8000_0000 == Joined(b[0], b[1], b[2], b[3])
  {
    var b0: int, b1: int, b2: int, b3: int := b[0], b[1], b[2], b[3];
    assert b[..3][..2] == b[..2] && b[..2][..1] == b[..1] && b[..1][..0] == [];
    assert BigEndian(b[..1]) == b0;
    assert BigEndian(b[..2]) == b0 * 256 + b1;
    assert BigEndian(b[..3]) == (b0 * 256 + b1) * 256 + b2;
    assert BigEndian(b) == b0 * 0x100_0000 + b1 * 0x1_0000 + b2 * 0x100 + b3;
  }

  // ---- The two computations ---------------------------------------------------------------

  /** 10^digits by repeated multiplication; digits is at most 9, so 32 bits suffice. */
  method Modulus(digits: nat) returns (mod: nat)
    requires digits <= 9
    ensures mod == Pow10(digits) && mod < 0x1_0000_0000
  {
    mod := 1;
    var i := 0;
    while i < digits
      invariant i <= digits && mod == Pow10(i)
    {
      mod := mod * 10;
      i := i + 1;
    }
    Pow10Grows(digits, 9);
    assert Pow10(9) == 1_000_000_000 by { Pow10Nine(); }
  }

  lemma Pow10Nine()
    ensures Pow10(8) == 100_000_000 && Pow10(9) == 1_000_000_000
  {
    assert Pow10(3) == 1000 && Pow10(6) == 1000 * Pow10(3);
  }

  lemma {:induction false} Pow10Grows(a: nat, b: nat)
    requires a <= b
    ensures Pow10(a) <= Pow10(b)
  {
    if a < b {
      Pow10Grows(a, b - 1);
    }
  }

  /** Masks and shifts of bytes written as arithmetic: & 0x7F is % 128, << 8k with | is * 256^k with +. */
  method DynamicTruncate(hmac: Digest, digits: nat) returns (code: nat)
    requires digits <= 9
    ensures code == Hotp(hmac, digits)
  {
    var offset := hmac[31] % 16;
    var binCode := Joined(hmac[offset], hmac[offset + 1], hmac[offset + 2], hmac[offset + 3]);
    FourBytes(hmac[offset..offset + 4]);
    var mod := Modulus(digits);
    code := binCode % mod;
  }

  /** The eight counter bytes, filled from the last to the first. */
  method FillCounter(counter: nat) returns (bytes: array<Byte>)
    ensures fresh(bytes) && bytes[..] == CounterBytes(counter, 8)
  {
    bytes := new Byte[8](_ => 0);
    var c := counter;
    var i := 8;
    while i > 0
      invariant 0 <= i <= 8
      invariant CounterBytes(counter, 8) == CounterBytes(c, i) + bytes[i..]
    {
      i := i - 1;
      ghost var done := bytes[i + 1..];
      bytes[i] := c % 256;
      assert bytes[i..] == [c % 256] + done;
      assert CounterBytes(c / 256, i) + [c % 256] + done == CounterBytes(c / 256, i) + ([c % 256] + done);
      c := c / 256;
    }
    assert bytes[0..] == bytes[..];
  }

  /** core/otp.cpp */
  method TotpForCounter(mac: Mac, key: string, counter: nat, digits: nat) returns (code: nat)
    requires digits <= 9
    ensures code == Hotp(mac(key, CounterBytes(counter, 8)), digits)
  {
    var bytes := FillCounter(counter);
    code := DynamicTruncate(mac(key, bytes[..]), digits);
  }

  /** Pads to the width and never cuts. */
  function PadAndConvert(code: nat): string {
    Padded(code, DIGITS)
  }

  /** firmware/xAuth_ID/src/totp.cpp: snprintf keeps what fits in the buffer. */
  function FormatCode(code: nat): string {
    var s := Padded(code, DIGITS);
    if |s| <= DIGITS then s else s[..DIGITS]
  }

  /** The code the keychain shows at time `now`. */
  method FirmwareCode(mac: Mac, key: string, now: nat) returns (text: string)
    ensures text == CodeAt(mac, key, CounterForTime(now)) && |text| == DIGITS && AllDigits(text)
  {
    var bytes := FillCounter(now / STEP_SECONDS);
    var code := DynamicTruncate(mac(key, bytes[..]), DIGITS);
    PaddedRoundTrip(code, DIGITS);
    text := FormatCode(code);
  }

  /** Eight digits, read back as the truncated value: nothing is lost on the panel. */
  lemma CodeReadsBack(mac: Mac, key: string, counter: nat)
    ensures var code := CodeAt(mac, key, counter);
            IsValidCode(code) && Parse(code) == Hotp(mac(key, CounterBytes(counter, 8)), DIGITS) &&
            Parse(code) == DynamicBinaryCode(mac(key, CounterBytes(counter, 8))) % 100_000_000
  {
    Pow10Nine();
    PaddedRoundTrip(Hotp(mac(key, CounterBytes(counter, 8)), DIGITS), DIGITS);
  }

  function SecondsLeft(now: nat): (left: nat)
    ensures 0 < left <= 90
    ensures CounterForTime(now + left) == CounterForTime(now) + 1
    ensures forall u :: now <= u < now + left ==> CounterForTime(u) == CounterForTime(now)
  {
    STEP_SECONDS - now % STEP_SECONDS
  }

  // ---- The verifier --------------------------------------------------------------------------

  datatype Device = Device(key: string, status: int)

  /** The keystore; a malformed ID is never looked up, and a lookup may fail. */
  datatype Keystore = Keystore(devices: map<string, Device>, readable: bool)

  datatype Lookup = Found(device: Device) | NotFound | Error

  function FindDevice(store: Keystore, id: string): Lookup {
    if !ValidDeviceId(id) then NotFound
    else if !store.readable then Error
    else if id in store.devices then Found(store.devices[id])
    else NotFound
  }

  predicate Real(store: Keystore, id: string) {
    match FindDevice(store, id)
    case Found(device) => device.status == 1 && |device.key| == KEY_HEX_LEN
    case _ => false
  }

  const U64: int := 0x1_0000_0000_0000_0000

  /** now + offset in unsigned 64-bit arithmetic. */
  function Shifted(now: nat, offset: int): nat
    requires -1 <= offset
  {
    (now + offset) % U64
  }

  predicate Matches(mac: Mac, key: string, code: string, counter: nat) {
    CodeAt(mac, key, counter) == code
  }

  /** The first match among the first n windows, counting up from the one before now. */
  function FirstMatch(mac: Mac, key: string, code: string, now: nat, n: nat): Option<nat> {
    if n == 0 then None
    else
      var earlier := FirstMatch(mac, key, code, now, n - 1);
      if earlier.Some? then earlier
      else if Matches(mac, key, code, Shifted(now, n - 2)) then Some(Shifted(now, n - 2))
      else None
  }

  /** What VERIFY answers for a device in use. */
  function Verdict(mac: Mac, key: string, code: string, now: nat): Option<nat> {
    FirstMatch(mac, key, code, now, 3)
  }

  lemma NoWindow(mac: Mac, key: string, code: string, now: nat)
    ensures FirstMatch(mac, key, code, now, 0) == None
  {
  }

  /** One more window: the first match stays, or this window is it. */
  lemma NextWindow(mac: Mac, key: string, code: string, now: nat, n: nat)
    ensures var earlier := FirstMatch(mac, key, code, now, n);
            FirstMatch(mac, key, code, now, n + 1) ==
            if earlier.Some? then earlier
            else if CodeAt(mac, key, Shifted(now, n - 1)) == code then Some(Shifted(now, n - 1))
            else None
  {
  }

  /** The window before now, now's own and the one after: the first whose code this is. */
  function Expected(mac: Mac, key: string, code: string, now: nat): Option<nat> {
    if CodeAt(mac, key, (now - 1) % U64) == code then Some((now - 1) % U64)
    else if CodeAt(mac, key, now % U64) == code then Some(now % U64)
    else if CodeAt(mac, key, (now + 1) % U64) == code then Some((now + 1) % U64)
    else None
  }

  lemma ExpectedIsNear(mac: Mac, key: string, code: string, now: nat)
    requires 1 <= now < U64 - 1
    ensures var expected := Expected(mac, key, code, now); expected.Some? ==> now - 1 <= expected.value <= now + 1
  {
    hide CodeAt;
  }

  lemma VerdictIsExpected(mac: Mac, key: string, code: string, now: nat)
    ensures Verdict(mac, key, code, now) == Expected(mac, key, code, now)
  {
    hide CodeAt, FirstMatch;
    NoWindow(mac, key, code, now);
    NextWindow(mac, key, code, now, 0);
    NextWindow(mac, key, code, now, 1);
    NextWindow(mac, key, code, now, 2);
  }

  /** The keystore could be read and has the device, in use and with a whole key, and the code is one of the three. */
  predicate CodeIsGood(mac: Mac, store: Keystore, id: string, code: string, now: nat) {
    && store.readable && ValidDeviceId(id) && id in store.devices
    && store.devices[id].status == 1 && |store.devices[id].key| == 128
    && Expected(mac, store.devices[id].key, code, now).Some?
  }

  lemma GoodExactly(mac: Mac, store: Keystore, id: string, code: string, now: nat)
    ensures CodeIsGood(mac, store, id, code, now) <==>
            Real(store, id) && Verdict(mac, store.devices[id].key, code, now).Some?
    ensures CodeIsGood(mac, store, id, code, now) ==>
              Verdict(mac, store.devices[id].key, code, now) == Expected(mac, store.devices[id].key, code, now)
  {
    hide Expected, Verdict;
    if Real(store, id) {
      VerdictIsExpected(mac, store.devices[id].key, code, now);
    } else if id in store.devices {
      VerdictIsExpected(mac, store.devices[id].key, code, now);
    }
  }

  /** verify_code: always three windows, always a key, and a yes only for a real device. */
  method VerifyCode(mac: Mac, store: Keystore, dummyKey: string, id: string, code: string, time: nat)
    returns (ok: bool, matched: nat)
    requires CounterForTime(time) < U64
    ensures ok <==>
              store.readable && ValidDeviceId(id) && id in store.devices &&
              store.devices[id].status == 1 && |store.devices[id].key| == 128 &&
              Expected(mac, store.devices[id].key, code, CounterForTime(time)).Some?
    ensures ok ==> Some(matched) == Expected(mac, store.devices[id].key, code, CounterForTime(time))
    ensures ok ==> Verdict(mac, store.devices[id].key, code, CounterForTime(time)) == Some(matched)
  {
    hide FirstMatch, Hotp, Padded, Expected;
    var codeOk := |code| == DIGITS && AllDigits(code);
    var inUse := Real(store, id);
    var key := if inUse then store.devices[id].key else dummyKey;
    var submitted := if codeOk then code else seq(DIGITS, i => 'x');
    var now := CounterForTime(time);
    var any := false;
    matched := 0;
    NoWindow(mac, key, submitted, now);
    var offset := -1;
    while offset <= 1
      invariant -1 <= offset <= 2
      invariant FirstMatch(mac, key, submitted, now, offset + 1) == if any then Some(matched) else None
    {
      var counter := Shifted(now, offset);
      var value := TotpForCounter(mac, key, counter, DIGITS);
      var expected := PadAndConvert(value);
      NextWindow(mac, key, submitted, now, offset + 1);
      var eq := |expected| == |submitted| && expected == submitted;
      if eq && !any {
        any := true;
        matched := counter;
      }
      offset := offset + 1;
    }
    ok := inUse && codeOk && any;
    if inUse && !codeOk {
      OnlyCodesMatch(mac, key, code, now, 3);
    }
    GoodExactly(mac, store, id, code, now);
  }

  /** A text that is not a code matches nothing. */
  lemma {:induction false} OnlyCodesMatch(mac: Mac, key: string, code: string, now: nat, n: nat)
    requires !IsValidCode(code)
    ensures FirstMatch(mac, key, code, now, n) == None
  {
    if n > 0 {
      OnlyCodesMatch(mac, key, code, now, n - 1);
      CodeReadsBack(mac, key, Shifted(now, n - 2));
    }
  }

  lemma ThreeWindows(mac: Mac, key: string, code: string, now: nat)
    requires 1 <= now < U64 - 1
    ensures Verdict(mac, key, code, now) ==
            if Matches(mac, key, code, now - 1) then Some(now - 1)
            else if Matches(mac, key, code, now) then Some(now)
            else if Matches(mac, key, code, now + 1) then Some(now + 1)
            else None
  {
    hide Matches;
    ShiftedPlain(now, -1);
    ShiftedPlain(now, 0);
    ShiftedPlain(now, 1);
    assert FirstMatch(mac, key, code, now, 1) == if Matches(mac, key, code, now - 1) then Some(now - 1) else None;
    assert FirstMatch(mac, key, code, now, 2) ==
           if Matches(mac, key, code, now - 1) then Some(now - 1)
           else if Matches(mac, key, code, now) then Some(now) else None;
  }

  lemma ShiftedPlain(now: nat, offset: int)
    requires -1 <= offset && 0 <= now + offset < U64
    ensures Shifted(now, offset) == now + offset
  {
  }

  predicate InReach(counter: nat, now: nat) {
    now - 1 <= counter <= now + 1
  }

  /** The answer is the smallest matching counter within one step of now, and NO when there is none. */
  lemma VerdictIsLeast(mac: Mac, key: string, code: string, now: nat)
    requires 1 <= now < U64 - 1
    ensures match Verdict(mac, key, code, now)
            case Some(c) =>
              InReach(c, now) && Matches(mac, key, code, c) &&
              forall d: nat :: InReach(d, now) && d < c ==> !Matches(mac, key, code, d)
            case None => forall d: nat :: InReach(d, now) ==> !Matches(mac, key, code, d)
  {
    ThreeWindows(mac, key, code, now);
    forall d: nat | InReach(d, now) ensures d == now - 1 || d == now || d == now + 1 {}
  }

  // ---- Keychain against verifier ------------------------------------------------------------

  /** The code the keychain shows at `shownAt` is accepted at `checkedAt`, with a counter no later than its own. */
  lemma ShownCodeAccepted(mac: Mac, key: string, shownAt: nat, checkedAt: nat)
    requires STEP_SECONDS <= checkedAt && CounterForTime(checkedAt) < U64 - 1
    requires shownAt <= checkedAt + STEP_SECONDS && checkedAt <= shownAt + STEP_SECONDS
    ensures var verdict := Verdict(mac, key, CodeAt(mac, key, CounterForTime(shownAt)), CounterForTime(checkedAt));
            verdict.Some? && verdict.value <= CounterForTime(shownAt)
  {
    var code, now := CodeAt(mac, key, CounterForTime(shownAt)), CounterForTime(checkedAt);
    VerdictIsLeast(mac, key, code, now);
    assert InReach(CounterForTime(shownAt), now) && Matches(mac, key, code, CounterForTime(shownAt));
  }

  function Marked(last: Byte): Digest {
    [0, 0, 0, last] + seq(28, i => 0)
  }

  /** A MAC under which one counter has a code of its own. */
  function Telling(counter: nat): Mac {
    (key, msg) => if msg == CounterBytes(counter, 8) then Marked(1) else Marked(0)
  }

  lemma TellingTells(counter: nat, other: nat)
    requires counter < U64 && other < U64 && counter != other
    ensures CodeAt(Telling(counter), "", counter) != CodeAt(Telling(counter), "", other)
  {
    CounterRoundTrip64(counter);
    CounterRoundTrip64(other);
    MarkedCode(0);
    MarkedCode(1);
    CodeReadsBack(Telling(counter), "", counter);
    CodeReadsBack(Telling(counter), "", other);
  }

  lemma CounterRoundTrip64(counter: nat)
    requires counter < U64
    ensures BigEndian(CounterBytes(counter, 8)) == counter
  {
    assert Pow256(4) == 0x1_0000_0000 by { assert Pow256(2) == 0x1_0000; }
    assert Pow256(6) == 0x1_0000 * Pow256(4);
    assert Pow256(8) == U64;
    CounterRoundTrip(counter, 8);
  }

  lemma MarkedCode(last: Byte)
    requires last <= 1
    ensures Hotp(Marked(last), DIGITS) == last
  {
    MarkedBinary(last);
    Pow10Nine();
  }

  lemma MarkedBinary(last: Byte)
    ensures DynamicBinaryCode(Marked(last)) == last
  {
    var m := Marked(last);
    assert m[31] == 0;
    var b := m[0..4];
    assert b[0] == 0 && b[1] == 0 && b[2] == 0 && b[3] == last;
    FourBytes(b);
  }

  /** One step either side is exactly what is tolerated: beyond it some key and MAC refuse the code. */
  lemma ToleranceExact(shown: nat, now: nat)
    requires 1 <= now < U64 - 1 && shown < U64
    ensures (forall mac, key :: Verdict(mac, key, CodeAt(mac, key, shown), now).Some?) <==> now - 1 <= shown <= now + 1
  {
    if now - 1 <= shown <= now + 1 {
      forall mac, key ensures Verdict(mac, key, CodeAt(mac, key, shown), now).Some? {
        VerdictIsLeast(mac, key, CodeAt(mac, key, shown), now);
        assert InReach(shown, now) && Matches(mac, key, CodeAt(mac, key, shown), shown);
      }
    } else {
      var mac := Telling(shown);
      VerdictIsLeast(mac, "", CodeAt(mac, "", shown), now);
      forall d: nat | InReach(d, now) ensures !Matches(mac, "", CodeAt(mac, "", shown), d) { TellingTells(shown, d); }
      assert !Verdict(mac, "", CodeAt(mac, "", shown), now).Some?;
    }
  }
}
