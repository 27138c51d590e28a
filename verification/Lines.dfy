/** Newline-terminated requests over a stream that arrives in arbitrary pieces. */
module Lines {
  import opened Numerals

  function Flat(chunks: seq<string>): string {
    if chunks == [] then "" else chunks[0] + Flat(chunks[1..])
  }

  function IndexOf(s: string, c: char): (i: nat)
    ensures i <= |s| && (i < |s| ==> s[i] == c)
    ensures forall j :: 0 <= j < i ==> s[j] != c
  {
    if s == "" || s[0] == c then 0 else 1 + IndexOf(s[1..], c)
  }

  lemma IndexOfIs(s: string, c: char, i: nat)
    requires i < |s| && s[i] == c && forall j :: 0 <= j < i ==> s[j] != c
    ensures IndexOf(s, c) == i
  {
  }

  lemma {:induction false} IndexOfAfter(a: string, b: string, c: char)
    requires c !in a
    ensures IndexOf(a + b, c) == |a| + IndexOf(b, c)
  {
    if a == "" {
      assert a + b == b;
    } else {
      assert (a + b)[1..] == a[1..] + b;
      IndexOfAfter(a[1..], b, c);
    }
  }

  /** The pieces of s between newlines; the last one is not finished yet. */
  function Split(s: string): (pieces: seq<string>)
    ensures pieces != []
  {
    if s == "" then [""]
    else
      var rest := Split(s[1..]);
      if s[0] == '\n' then [""] + rest else [[s[0]] + rest[0]] + rest[1..]
  }

  predicate NoNewline(s: string) {
    forall i :: 0 <= i < |s| ==> s[i] != '\n'
  }

  lemma {:induction false} SplitAfter(line: string, s: string)
    requires NoNewline(line)
    ensures Split(line + s) == [line + Split(s)[0]] + Split(s)[1..]
  {
    if line == "" {
      assert line + s == s && line + Split(s)[0] == Split(s)[0];
    } else {
      SplitAfter(line[1..], s);
      assert (line + s)[1..] == line[1..] + s;
      assert [line[0]] + (line[1..] + Split(s)[0]) == line + Split(s)[0];
    }
  }

  lemma SplitLine(text: string, rest: string)
    requires NoNewline(text)
    ensures Split(text + ("\n" + rest)) == [text] + Split(rest)
  {
    assert ("\n" + rest)[1..] == rest;
    SplitAfter(text, "\n" + rest);
    assert text + "" == text;
  }

  /** The bytes before the first newline, if it is among the first max + 1 bytes. */
  function FirstLine(stream: string, max: nat): Option<string> {
    var i := IndexOf(stream, '\n');
    if i < |stream| && i <= max then Some(stream[..i]) else None
  }

  /** That is the one line without a newline that fits and starts the stream with a newline behind it. */
  lemma FirstLineExactly(stream: string, max: nat, line: string)
    ensures FirstLine(stream, max) == Some(line) <==> '\n' !in line && |line| <= max && line + "\n" <= stream
  {
    if '\n' !in line && |line| <= max && line + "\n" <= stream {
      assert forall j :: 0 <= j < |line| ==> stream[j] == (line + "\n")[j] == line[j];
      assert stream[|line|] == (line + "\n")[|line|] == '\n';
      IndexOfIs(stream, '\n', |line|);
      assert stream[..|line|] == (line + "\n")[..|line|] == line;
    }
  }

  datatype ReadResult = Data(bytes: string) | Interrupted | End

  /**
   A connected socket: what is still to arrive before the peer closes, an error or the timeout,
   piece by piece; an empty piece is a signal.
   */
  class Socket {
    var arrivals: seq<string>

    constructor (arrivals: seq<string>)
      ensures this.arrivals == arrivals
    {
      this.arrivals := arrivals;
    }

    function Stream(): string
      reads this
    {
      Flat(arrivals)
    }

    method Read(cap: nat) returns (r: ReadResult)
      requires cap > 0
      modifies this
      ensures match r
              case Data(bytes) => 0 < |bytes| <= cap && old(Stream()) == bytes + Stream() && |arrivals| <= |old(arrivals)|
              case Interrupted => Stream() == old(Stream()) && |arrivals| < |old(arrivals)|
              case End => old(Stream()) == "" && Stream() == ""
    {
      if arrivals == [] {
        return End;
      }
      var first := arrivals[0];
      if first == "" {
        arrivals := arrivals[1..];
        assert "" + Flat(arrivals) == Flat(arrivals);
        return Interrupted;
      }
      if |first| <= cap {
        arrivals := arrivals[1..];
        return Data(first);
      }
      ghost var rest := Flat(arrivals[1..]);
      arrivals := [first[cap..]] + arrivals[1..];
      assert first + rest == first[..cap] + (first[cap..] + rest);
      return Data(first[..cap]);
    }
  }

  /** The first newline among the bytes just read, or `to`. */
  method Scan(buf: array<char>, from: nat, to: nat) returns (i: nat)
    requires from <= to <= buf.Length
    ensures from <= i <= to && (i < to ==> buf[i] == '\n')
    ensures forall j :: from <= j < i ==> buf[j] != '\n'
  {
    i := from;
    while i < to
      invariant from <= i <= to
      invariant forall j :: from <= j < i ==> buf[j] != '\n'
    {
      if buf[i] == '\n' {
        return;
      }
      i := i + 1;
    }
  }

  /** One read into the buffer behind its first len bytes. */
  method Fill(socket: Socket, buf: array<char>, len: nat) returns (r: ReadResult, len': nat)
    requires len < buf.Length
    modifies socket, buf
    ensures len <= len' <= buf.Length && buf[..len] == old(buf[..len])
    ensures buf[len..len'] + socket.Stream() == old(socket.Stream())
    ensures match r
            case Data(_) => len < len' && |socket.arrivals| <= |old(socket.arrivals)|
            case Interrupted => len' == len && |socket.arrivals| < |old(socket.arrivals)|
            case End => len' == len && socket.Stream() == ""
  {
    r := socket.Read(buf.Length - len);
    len' := len;
    if r.Data? {
      var bytes := r.bytes;
      forall i | 0 <= i < |bytes| {
        buf[len + i] := bytes[i];
      }
      len' := len + |bytes|;
      assert buf[len..len'] == bytes;
    }
  }

  lemma LineFound(got: string, rest: string, nl: nat, max: nat)
    requires nl < |got| <= max + 1 && got[nl] == '\n' && NoNewline(got[..nl])
    ensures FirstLine(got + rest, max) == Some(got[..nl])
  {
    var stream := got + rest;
    forall j | 0 <= j < nl ensures stream[j] != '\n' { assert stream[j] == got[..nl][j]; }
    IndexOfIs(stream, '\n', nl);
    assert stream[..nl] == got[..nl];
  }

  /** No newline among the first max + 1 bytes, or none before the end of the stream. */
  lemma NoLine(got: string, rest: string, max: nat)
    requires NoNewline(got) && (rest == "" || |got| > max)
    ensures FirstLine(got + rest, max) == None
  {
    var stream := got + rest;
    forall j | 0 <= j < |got| ensures stream[j] != '\n' { assert stream[j] == got[j]; }
  }

  lemma JoinReads(got: string, bytes: string, rest: string)
    ensures got + (bytes + rest) == got + bytes + rest
  {
  }

  /** read_line: true with the line exactly when the newline is within the buffer, however the bytes arrive. */
  method ReadLine(socket: Socket, max: nat) returns (line: Option<string>)
    modifies socket
    ensures line == FirstLine(old(socket.Stream()), max)
  {
    hide FirstLine;
    var buf := new char[max + 1];
    var len := 0;
    ghost var stream, got := socket.Stream(), "";
    assert got + stream == stream;
    while len < buf.Length
      invariant len <= buf.Length && fresh(buf)
      invariant got == buf[..len] && NoNewline(got) && stream == got + socket.Stream()
      decreases buf.Length - len, |socket.arrivals|
    {
      var r, len' := Fill(socket, buf, len);
      ghost var bytes, rest := buf[len..len'], socket.Stream();
      JoinReads(got, bytes, rest);
      got := got + bytes;
      assert got == buf[..len'];
      if r.End? {
        NoLine(got, rest, max);
        return None;
      }
      var nl := Scan(buf, len, len');
      assert NoNewline(got[..nl]) by { assert forall j :: len <= j < nl ==> got[j] == buf[j]; }
      if nl < len' {
        LineFound(got, rest, nl, max);
        assert got[..nl] == buf[..nl];
        return Some(buf[..nl]);
      }
      assert got[..nl] == got;
      len := len';
    }
    NoLine(got, socket.Stream(), max);
    line := None;
  }

  // ---- Writing back ------------------------------------------------------------------------

  /** A write of the rest of s that the kernel answers with w: an error, or how much it took. */
  function Taken(w: int, left: nat): int {
    if w > left then left else w
  }

  /** What reaches the peer: an interrupted write is repeated, a failed one ends it, and once the answers run out all is taken. */
  function Sent(s: string, answers: seq<int>): (sent: string)
    ensures sent <= s
    decreases |answers|
  {
    if s == "" then ""
    else if answers == [] then s
    else if answers[0] < 0 then Sent(s, answers[1..])
    else
      var w := Taken(answers[0], |s|);
      if w == 0 then "" else s[..w] + Sent(s[w..], answers[1..])
  }

  /** write_all, with a negative answer for an interrupted write and 0 for a failed one. */
  method WriteAll(s: string, answers: seq<int>) returns (sent: string)
    ensures sent == Sent(s, answers)
  {
    hide Sent;
    var rest, todo := s, answers;
    sent := "";
    assert "" + Sent(s, answers) == Sent(s, answers);
    while rest != ""
      invariant Sent(s, answers) == sent + Sent(rest, todo)
      decreases |todo|, |rest|
    {
      var w := if todo != [] then Taken(todo[0], |rest|) else |rest|;
      SentStep(sent, rest, todo, w);
      todo := Later(todo);
      if w < 0 {
        continue;
      }
      if w == 0 {
        return;
      }
      sent := sent + rest[..w];
      rest := rest[w..];
    }
    NothingToSend(todo);
    assert sent + "" == sent;
  }

  function Later(answers: seq<int>): seq<int> {
    if answers == [] then [] else answers[1..]
  }

  lemma NothingToSend(answers: seq<int>)
    ensures Sent("", answers) == ""
  {
  }

  lemma SentStep(sent: string, rest: string, todo: seq<int>, w: int)
    requires rest != "" && w == if todo != [] then Taken(todo[0], |rest|) else |rest|
    ensures sent + Sent(rest, todo) ==
            if w < 0 then sent + Sent(rest, Later(todo))
            else if w == 0 then sent
            else sent + rest[..w] + Sent(rest[w..], Later(todo))
  {
    if todo != [] {
      if w > 0 {
        assert sent + (rest[..w] + Sent(rest[w..], todo[1..])) == sent + rest[..w] + Sent(rest[w..], todo[1..]);
      }
    } else {
      assert rest[w..] == "" && rest[..w] == rest;
    }
  }

  /** Interruptions and partial writes lose nothing: short of a failure the whole text arrives. */
  lemma {:induction false} AllIsSent(s: string, answers: seq<int>)
    requires 0 !in answers
    ensures Sent(s, answers) == s
    decreases |answers|
  {
    if s != "" && answers != [] {
      assert answers[0] in answers;
      if answers[0] < 0 {
        AllIsSent(s, answers[1..]);
      } else {
        var w := Taken(answers[0], |s|);
        AllIsSent(s[w..], answers[1..]);
        assert s[..w] + s[w..] == s;
      }
    }
  }

  // ---- The client's side -------------------------------------------------------------------

  /**
   ask(): the reply up to its newline, or None when the reply gets too long, the stream
   ends, the connection fails or time runs out first.
   */
  method Ask(chunks: seq<string>, maxReply: nat) returns (reply: Option<string>)
    ensures forall text | Flat(chunks) == text + "\n" && '\n' !in text && |text| <= maxReply :: reply == Some(text)
    ensures reply.Some? ==> '\n' !in reply.value && reply.value + "\n" <= Flat(chunks)
  {
    var got := "";
    var i := 0;
    while i < |chunks|
      invariant 0 <= i <= |chunks| && '\n' !in got && |got| <= maxReply
      invariant got + Flat(chunks[i..]) == Flat(chunks)
    {
      assert chunks[i..][1..] == chunks[i + 1..];
      assert got + chunks[i] + Flat(chunks[i + 1..]) == Flat(chunks);
      got := got + chunks[i];
      var nl := IndexOf(got, '\n');
      if nl < |got| {
        NewlineEnds(got, Flat(chunks[i + 1..]), nl);
        return Some(got[..nl]);
      }
      if |got| > maxReply {
        Overlong(got, Flat(chunks));
        return None;
      }
      i := i + 1;
    }
    assert got + "" == got;
    assert forall text :: '\n' in text + "\n" by { forall text: string ensures '\n' in text + "\n" { assert (text + "\n")[|text|] == '\n'; } }
    reply := None;
  }

  lemma NewlineEnds(got: string, rest: string, nl: nat)
    requires nl < |got| && got[nl] == '\n' && forall j :: 0 <= j < nl ==> got[j] != '\n'
    ensures got[..nl] + "\n" <= got + rest && '\n' !in got[..nl]
    ensures forall text | got + rest == text + "\n" && '\n' !in text :: text == got[..nl]
  {
    IndexOfIs(got + rest, '\n', nl);
    forall text | got + rest == text + "\n" && '\n' !in text ensures text == got[..nl] {
      EndsAt(text);
      assert (text + "\n")[..|text|] == text;
    }
  }

  lemma EndsAt(text: string)
    requires '\n' !in text
    ensures IndexOf(text + "\n", '\n') == |text|
  {
    IndexOfIs(text + "\n", '\n', |text|);
  }

  lemma Overlong(got: string, all: string)
    requires got <= all && '\n' !in got
    ensures forall text | all == text + "\n" && '\n' !in text :: |got| <= |text|
  {
    forall text | all == text + "\n" && '\n' !in text ensures |got| <= |text| {
      EndsAt(text);
    }
  }
}
