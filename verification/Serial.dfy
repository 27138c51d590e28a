/** The keychain's serial port: bytes to lines to commands, one byte at a time. */
module Serial {
  import opened Lines
  import opened Numerals
  import Keychain

  const LINE_SIZE: nat := 32
  const LONGEST: nat := 31
  const ULONG_MAX: nat := 0xFFFF_FFFF
  const NUL: char := '\0'

  // ---- Lines -------------------------------------------------------------------------

  function WithoutCr(s: string): string {
    if s == "" then "" else (if s[0] == '\r' then "" else [s[0]]) + WithoutCr(s[1..])
  }

  function ShortOnes(lines: seq<string>): seq<string> {
    if lines == [] then []
    else (if |lines[0]| <= LONGEST then [lines[0]] else []) + ShortOnes(lines[1..])
  }

  /** The lines a byte stream amounts to: carriage returns dropped, over-long lines dropped whole. */
  function LinesOf(stream: string): seq<string> {
    var pieces := Split(WithoutCr(stream));
    ShortOnes(pieces[..|pieces| - 1])
  }

  /** What one byte after another does to the unfinished line. */
  function Feed(pending: string, input: string): (r: (seq<string>, string))
    decreases |input|
  {
    if input == "" then ([], pending)
    else if input[0] == '\r' then Feed(pending, input[1..])
    else if input[0] != '\n' then Feed(pending + [input[0]], input[1..])
    else
      var (lines, rest) := Feed("", input[1..]);
      ((if |pending| <= LONGEST then [pending] else []) + lines, rest)
  }

  /** Feeding the bytes is splitting what they are, once the carriage returns are gone. */
  ghost predicate FedIsSplit(pending: string, input: string) {
    var pieces := Split(pending + WithoutCr(input));
    Feed(pending, input) == (ShortOnes(pieces[..|pieces| - 1]), pieces[|pieces| - 1])
  }

  lemma {:induction false} FeedIsSplit(pending: string, input: string)
    requires NoNewline(pending)
    ensures FedIsSplit(pending, input)
    decreases |input|
  {
    if input == "" {
      FeedNothing(pending);
    } else if input[0] == '\r' {
      FeedIsSplit(pending, input[1..]);
      assert WithoutCr(input) == WithoutCr(input[1..]);
    } else if input[0] != '\n' {
      FeedIsSplit(pending + [input[0]], input[1..]);
      FeedPlain(pending, input);
    } else {
      FeedIsSplit("", input[1..]);
      FeedNewline(pending, input);
    }
  }

  lemma FeedNothing(pending: string)
    requires NoNewline(pending)
    ensures FedIsSplit(pending, "")
  {
    SplitAfter(pending, "");
    assert pending + "" == pending;
  }

  lemma FeedPlain(pending: string, input: string)
    requires input != "" && input[0] != '\r' && input[0] != '\n' && FedIsSplit(pending + [input[0]], input[1..])
    ensures FedIsSplit(pending, input)
  {
    hide Split, ShortOnes;
    var tail := WithoutCr(input[1..]);
    assert WithoutCr(input) == [input[0]] + tail && Feed(pending, input) == Feed(pending + [input[0]], input[1..]);
    hide WithoutCr, Feed;
    assert pending + ([input[0]] + tail) == pending + [input[0]] + tail;
  }

  lemma FeedNewline(pending: string, input: string)
    requires NoNewline(pending) && input != "" && input[0] == '\n' && FedIsSplit("", input[1..])
    ensures FedIsSplit(pending, input)
  {
    hide Split, ShortOnes;
    var tail := WithoutCr(input[1..]);
    assert "" + tail == tail;
    assert pending + WithoutCr(input) == pending + ("\n" + tail);
    SplitLine(pending, tail);
    FirstOfMany(pending, Split(tail));
  }

  lemma FirstOfMany(line: string, pieces: seq<string>)
    requires pieces != []
    ensures var all := [line] + pieces;
            all[|all| - 1] == pieces[|pieces| - 1] &&
            ShortOnes(all[..|all| - 1]) == (if |line| <= LONGEST then [line] else []) + ShortOnes(pieces[..|pieces| - 1])
  {
    var all, front := [line] + pieces, pieces[..|pieces| - 1];
    assert all[..|all| - 1] == [line] + front;
    assert ([line] + front)[1..] == front;
  }

  lemma {:induction false} FeedChunks(pending: string, first: string, second: string)
    ensures var (lines, rest) := Feed(pending, first);
            Feed(pending, first + second) == (lines + Feed(rest, second).0, Feed(rest, second).1)
    decreases |first|
  {
    if first == "" {
      assert first + second == second && [] + Feed(pending, second).0 == Feed(pending, second).0;
    } else {
      assert (first + second)[1..] == first[1..] + second;
      if first[0] == '\r' {
        FeedChunks(pending, first[1..], second);
      } else if first[0] != '\n' {
        FeedChunks(pending + [first[0]], first[1..], second);
      } else {
        FeedChunks("", first[1..], second);
        var (lines, rest) := Feed("", first[1..]);
        var head := if |pending| <= LONGEST then [pending] else [];
        assert head + (lines + Feed(rest, second).0) == head + lines + Feed(rest, second).0;
      }
    }
  }

  function Flatten(chunks: seq<string>): string {
    if chunks == [] then "" else Flatten(chunks[..|chunks| - 1]) + chunks[|chunks| - 1]
  }

  /** The lines handled by one poll per chunk, in order, and what is left over. */
  function Polled(chunks: seq<string>): (seq<string>, string) {
    if chunks == [] then ([], "")
    else
      var (lines, pending) := Polled(chunks[..|chunks| - 1]);
      var (more, rest) := Feed(pending, chunks[|chunks| - 1]);
      (lines + more, rest)
  }

  /** However the bytes arrive, the lines handled are those of the stream. */
  lemma {:induction false} ChunkingIsInvisible(chunks: seq<string>)
    ensures Polled(chunks).0 == LinesOf(Flatten(chunks))
  {
    PolledIsFed(chunks);
    FeedIsSplit("", Flatten(chunks));
    assert "" + WithoutCr(Flatten(chunks)) == WithoutCr(Flatten(chunks));
  }

  lemma {:induction false} PolledIsFed(chunks: seq<string>)
    ensures Polled(chunks) == Feed("", Flatten(chunks))
  {
    if chunks != [] {
      PolledIsFed(chunks[..|chunks| - 1]);
      FeedChunks("", Flatten(chunks[..|chunks| - 1]), chunks[|chunks| - 1]);
    }
  }

  // ---- The line buffer --------------------------------------------------------------------

  class Port {
    const line: array<char>
    var len: nat
    var overflow: bool
    ghost var pending: string

    ghost predicate Valid()
      reads this, line
    {
      && line.Length == LINE_SIZE && len <= LONGEST && NoNewline(pending)
      && overflow == (|pending| > LONGEST)
      && len == (if overflow then LONGEST else |pending|)
      && line[..len] == pending[..len]
    }

    constructor ()
      ensures Valid() && fresh(line) && pending == ""
    {
      line := new char[LINE_SIZE];
      len, overflow, pending := 0, false, "";
    }

    /** Handles every byte that is available; `handled` lists the texts passed to handle_command. */
    method Poll(input: string) returns (handled: seq<string>)
      requires Valid()
      modifies this, line
      ensures Valid()
      ensures (handled, pending) == Feed(old(pending), input)
    {
      handled := [];
      ghost var start := pending;
      var i := 0;
      assert input[i..] == input && handled + Feed(pending, input).0 == Feed(pending, input).0;
      while i < |input|
        invariant 0 <= i <= |input| && Valid()
        invariant Feed(start, input) == (handled + Feed(pending, input[i..]).0, Feed(pending, input[i..]).1)
      {
        var c := input[i];
        assert input[i..][1..] == input[i + 1..];
        if c == '\r' {
        } else if c != '\n' {
          ghost var before := line[..len];
          if len < line.Length - 1 {
            line[len] := c;
            len := len + 1;
            assert line[..len] == before + [c];
          } else {
            overflow := true;
          }
          pending := pending + [c];
        } else {
          ghost var head, more := if |pending| <= LONGEST then [pending] else [], Feed("", input[i + 1..]).0;
          assert handled + (head + more) == handled + head + more && handled + [] == handled;
          if !overflow {
            line[len] := NUL;
            assert line[..len] == pending;
            handled := handled + [line[..len]];
          }
          len := 0;
          overflow := false;
          pending := "";
        }
        i := i + 1;
      }
      assert input[i..] == "" && handled + [] == handled;
    }
  }

  // ---- Commands ---------------------------------------------------------------------------

  datatype Command = Report | Set(epoch: nat) | Rejected | Unknown

  /** The text up to its first NUL, as C reads it. */
  function CString(s: string): (r: string)
    ensures r <= s && NUL !in r
  {
    if s == "" || s[0] == NUL then "" else [s[0]] + CString(s[1..])
  }

  /** Which line means what. */
  function Meaning(text: string): Command {
    if text == "?" then Report
    else if |text| >= 2 && text[..2] == "T " then
      var digits := text[2..];
      if digits != "" && AllDigits(digits) && Parse(digits) <= Keychain.MAX_EPOCH then Set(Parse(digits)) else Rejected
    else Unknown
  }

  lemma {:induction false} ParsePrefix(s: string, i: nat)
    requires AllDigits(s) && i <= |s|
    ensures Parse(s[..i]) <= Parse(s)
  {
    if i < |s| {
      assert s[..|s| - 1][..i] == s[..i];
      ParsePrefix(s[..|s| - 1], i);
    } else {
      assert s[..i] == s;
    }
  }

  /** strtoul with a 32-bit unsigned long: saturates, and stops at the first character that is no digit. */
  method Strtoul(s: string) returns (value: nat, end: nat)
    ensures end <= |s| && AllDigits(s[..end]) && (end < |s| ==> !IsDigit(s[end]))
    ensures value == if Parse(s[..end]) <= ULONG_MAX then Parse(s[..end]) else ULONG_MAX
  {
    value, end := 0, 0;
    while end < |s| && IsDigit(s[end])
      invariant end <= |s| && AllDigits(s[..end])
      invariant value == if Parse(s[..end]) <= ULONG_MAX then Parse(s[..end]) else ULONG_MAX
    {
      var next := value * 10 + (s[end] as int - '0' as int);
      value := if next <= ULONG_MAX then next else ULONG_MAX;
      assert s[..end + 1][..end] == s[..end];
      end := end + 1;
    }
  }

  /** What handle_command does with a line buffer holding `line`, up to the call of apply_time. */
  method HandleCommand(line: string) returns (c: Command)
    ensures c == Meaning(CString(line))
  {
    var cmd := CString(line);
    if cmd == "?" {
      return Report;
    }
    if |cmd| >= 2 && cmd[0] == 'T' && cmd[1] == ' ' {
      assert cmd[..2] == "T ";
      var digits := cmd[2..];
      if digits == "" || !IsDigit(digits[0]) {
        return Rejected;
      }
      var epoch, end := Strtoul(digits);
      if end != |digits| || epoch > Keychain.MAX_EPOCH {
        assert end < |digits| ==> !IsDigit(digits[end]);
        assert end == |digits| ==> digits[..end] == digits;
        return Rejected;
      }
      assert digits[..end] == digits;
      return Set(epoch);
    }
    return Unknown;
  }

  lemma {:induction false} CStringWhole(s: string)
    requires NUL !in s
    ensures CString(s) == s
  {
    if s != "" {
      CStringWhole(s[1..]);
      assert s == [s[0]] + s[1..];
    }
  }

  // ---- From the bytes to the clock -----------------------------------------------------------

  /** The line is "T " and a decimal number no larger than MAX_EPOCH. */
  predicate IsSetLine(line: string) {
    "T " <= line && line[2..] != "" && AllDigits(line[2..]) && Parse(line[2..]) <= Keychain.MAX_EPOCH
  }

  /** The numbers on the set lines, in order. */
  function SetTimes(lines: seq<string>): seq<nat> {
    if lines == [] then []
    else (if IsSetLine(lines[0]) then [Parse(lines[0][2..])] else []) + SetTimes(lines[1..])
  }

  /** The epochs handed to apply_time for the lines handled. */
  function Handed(handled: seq<string>): seq<nat> {
    if handled == [] then []
    else
      var c := Meaning(CString(handled[0]));
      (if c.Set? then [c.epoch] else []) + Handed(handled[1..])
  }

  lemma SetLineMeans(line: string)
    requires NUL !in line
    ensures Meaning(CString(line)) == if IsSetLine(line) then Set(Parse(line[2..])) else Meaning(line)
    ensures Meaning(line).Set? ==> IsSetLine(line)
  {
    CStringWhole(line);
    assert "T "[0] == 'T' != "?"[0];
  }

  lemma {:induction false} HandedAreSetTimes(lines: seq<string>)
    requires forall line :: line in lines ==> NUL !in line
    ensures Handed(lines) == SetTimes(lines)
  {
    if lines != [] {
      assert lines[0] in lines;
      SetLineMeans(lines[0]);
      HandedAreSetTimes(lines[1..]);
    }
  }

  lemma {:induction false} HandedConcat(a: seq<string>, b: seq<string>)
    ensures Handed(a + b) == Handed(a) + Handed(b)
  {
    hide Meaning, CString;
    if a == [] {
      assert a + b == b;
    } else {
      assert (a + b)[0] == a[0] && (a + b)[1..] == a[1..] + b;
      HandedConcat(a[1..], b);
      var c := Meaning(CString(a[0]));
      var first := if c.Set? then [c.epoch] else [];
      assert first + (Handed(a[1..]) + Handed(b)) == first + Handed(a[1..]) + Handed(b);
    }
  }

  lemma {:induction false} SplitKeepsOut(s: string, c: char)
    requires c !in s
    ensures forall piece :: piece in Split(s) ==> c !in piece
  {
    if s != "" {
      SplitKeepsOut(s[1..], c);
      var rest := Split(s[1..]);
      assert rest[0] in rest;
    }
  }

  lemma {:induction false} WithoutCrKeepsOut(s: string, c: char)
    requires c !in s
    ensures c !in WithoutCr(s)
  {
    if s != "" {
      WithoutCrKeepsOut(s[1..], c);
    }
  }

  lemma {:induction false} ShortOnesAreLines(lines: seq<string>)
    ensures forall line :: line in ShortOnes(lines) ==> line in lines
  {
    if lines != [] {
      ShortOnesAreLines(lines[1..]);
    }
  }

  lemma LinesKeepOut(stream: string, c: char)
    requires c !in stream
    ensures forall line :: line in LinesOf(stream) ==> c !in line
  {
    WithoutCrKeepsOut(stream, c);
    SplitKeepsOut(WithoutCr(stream), c);
    var pieces := Split(WithoutCr(stream));
    ShortOnesAreLines(pieces[..|pieces| - 1]);
  }

  /** handle_command on each line handled. */
  method HandleAll(handled: seq<string>) returns (epochs: seq<nat>)
    ensures epochs == Handed(handled)
  {
    epochs := [];
    var i := 0;
    while i < |handled|
      invariant 0 <= i <= |handled| && epochs == Handed(handled[..i])
    {
      var c := HandleCommand(handled[i]);
      HandedConcat(handled[..i], [handled[i]]);
      assert handled[..i + 1] == handled[..i] + [handled[i]];
      if c.Set? {
        epochs := epochs + [c.epoch];
      }
      i := i + 1;
    }
    assert handled[..i] == handled;
  }

  /**
   A whole session on a fresh port, one clock_poll_serial() per chunk: apply_time gets, in
   order, the numbers on exactly the set lines of the stream.
   */
  method Session(chunks: seq<string>) returns (epochs: seq<nat>)
    ensures epochs == Handed(LinesOf(Flatten(chunks)))
    ensures NUL !in Flatten(chunks) ==> epochs == SetTimes(LinesOf(Flatten(chunks)))
  {
    var port := new Port();
    epochs := [];
    var i := 0;
    while i < |chunks|
      invariant 0 <= i <= |chunks| && fresh(port) && fresh(port.line) && port.Valid()
      invariant port.pending == Polled(chunks[..i]).1 && epochs == Handed(Polled(chunks[..i]).0)
    {
      var handled := port.Poll(chunks[i]);
      var more := HandleAll(handled);
      assert chunks[..i + 1][..i] == chunks[..i];
      HandedConcat(Polled(chunks[..i]).0, handled);
      epochs := epochs + more;
      i := i + 1;
    }
    assert chunks[..i] == chunks;
    ChunkingIsInvisible(chunks);
    if NUL !in Flatten(chunks) {
      LinesKeepOut(Flatten(chunks), NUL);
      HandedAreSetTimes(LinesOf(Flatten(chunks)));
    }
  }

  /** A line without NUL sets the clock to `epoch` exactly when it is "T " and a numeral of that value, at most MAX_EPOCH. */
  lemma SetExactly(line: string, epoch: nat)
    requires NUL !in line
    ensures Meaning(CString(line)) == Set(epoch) <==>
            epoch <= Keychain.MAX_EPOCH &&
            exists digits: string :: line == "T " + digits && digits != "" && AllDigits(digits) && Parse(digits) == epoch
  {
    SetLineMeans(line);
    if Meaning(CString(line)) == Set(epoch) {
      assert line == "T " + line[2..];
    }
    forall digits: string | line == "T " + digits ensures line[2..] == digits && "T " <= line {}
  }
}
