/** The verifier's protocol, both ends: what the web tier asks is what the daemon answers. */
module VerifierWire {
  import opened Numerals
  import opened Ids
  import opened Lines
  import opened Otp

  const MAX_REQUEST: nat := 64
  const MAX_REPLY: nat := 64

  // ---- The daemon ------------------------------------------------------------------------

  /** At most k pieces between single spaces; what follows the k-th is ignored. */
  function Parts(s: string, k: nat): (parts: seq<string>)
    ensures |parts| <= k
  {
    if k == 0 then []
    else
      var sp := IndexOf(s, ' ');
      if sp == |s| then [s] else [s[..sp]] + Parts(s[sp + 1..], k - 1)
  }

  lemma LastPart(had: seq<string>, rest: string, k: nat)
    requires k > 0 && IndexOf(rest, ' ') == |rest|
    ensures had + Parts(rest, k) == had + [rest]
  {
  }

  lemma Regroup(a: seq<string>, b: seq<string>, c: seq<string>)
    ensures a + (b + c) == a + b + c
  {
  }

  lemma FirstPart(rest: string, k: nat, sp: nat)
    requires k > 0 && sp == IndexOf(rest, ' ') < |rest|
    ensures Parts(rest, k) == [rest[..sp]] + Parts(rest[sp + 1..], k - 1)
  {
    hide IndexOf;
  }

  lemma NextPart(had: seq<string>, rest: string, k: nat, sp: nat)
    requires k > 0 && sp == IndexOf(rest, ' ') < |rest|
    ensures had + Parts(rest, k) == had + [rest[..sp]] + Parts(rest[sp + 1..], k - 1)
  {
    hide Parts;
    FirstPart(rest, k, sp);
    Regroup(had, [rest[..sp]], Parts(rest[sp + 1..], k - 1));
  }

  method SplitParts(line: string) returns (parts: seq<string>)
    ensures parts == Parts(line, 4)
  {
    parts := [];
    var rest, n := line, 0;
    ghost var all := Parts(line, 4);
    assert parts + Parts(rest, 4) == Parts(rest, 4);
    while n < 4
      invariant 0 <= n <= 4
      invariant all == parts + Parts(rest, 4 - n)
      decreases 4 - n
    {
      var sp := IndexOf(rest, ' ');
      if sp == |rest| {
        LastPart(parts, rest, 4 - n);
        parts := parts + [rest];
        return;
      }
      NextPart(parts, rest, 4 - n, sp);
      parts := parts + [rest[..sp]];
      rest := rest[sp + 1..];
      n := n + 1;
    }
    assert parts + [] == parts;
  }

  /** The answer to a code, before it is printed: a yes carries the matched counter. */
  function Answer(mac: Mac, store: Keystore, id: string, code: string, time: nat): Option<nat> {
    if Real(store, id) then Verdict(mac, store.devices[id].key, code, CounterForTime(time)) else None
  }

  predicate DeviceActive(store: Keystore, id: string) {
    var found := FindDevice(store, id);
    found.Found? && found.device.status == 1
  }

  function Reply(mac: Mac, store: Keystore, line: string, time: nat): string {
    var parts := Parts(line, 4);
    if |parts| == 3 && parts[0] == "VERIFY" then
      (match Answer(mac, store, parts[1], parts[2], time)
       case Some(n) => "OK " + Print(n) + "\n"
       case None => "NO\n")
    else if |parts| == 2 && parts[0] == "STATUS" then
      if FindDevice(store, parts[1]).Error? then "ERR\n"
      else if DeviceActive(store, parts[1]) then "ACTIVE\n" else "INACTIVE\n"
    else "ERR\n"
  }

  method HandleRequest(mac: Mac, store: Keystore, dummyKey: string, line: string, time: nat) returns (reply: string)
    requires CounterForTime(time) < U64
    ensures reply == Reply(mac, store, line, time)
  {
    hide Verdict, Expected, Print, Real;
    var parts := SplitParts(line);
    if |parts| == 3 && parts[0] == "VERIFY" {
      GoodExactly(mac, store, parts[1], parts[2], CounterForTime(time));
      var ok, matched := VerifyCode(mac, store, dummyKey, parts[1], parts[2], time);
      return if ok then "OK " + Print(matched) + "\n" else "NO\n";
    }
    if |parts| == 2 && parts[0] == "STATUS" {
      var found := FindDevice(store, parts[1]);
      if found.Error? {
        return "ERR\n";
      }
      return if found.Found? && found.device.status == 1 then "ACTIVE\n" else "INACTIVE\n";
    }
    return "ERR\n";
  }

  /** Any peer when no user is named, else that user. */
  predicate PeerAllowed(uid: nat, allowUid: int) {
    allowUid < 0 || uid == allowUid
  }

  /** What an allowed connection is owed: its first line answered, or a refusal. */
  function Owed(stream: string, mac: Mac, store: Keystore, time: nat): string {
    match FirstLine(stream, MAX_REQUEST)
      case Some(line) => Reply(mac, store, line, time)
      case None => "ERR\n"
  }

  /** One connection: read a line, answer it, or refuse it; writing may stop short. */
  method Serve(socket: Socket, uid: nat, allowUid: int, mac: Mac, store: Keystore, dummyKey: string, time: nat,
               writes: seq<int>) returns (sent: string)
    requires CounterForTime(time) < U64
    modifies socket
    ensures allowUid < 0 || uid == allowUid ==> sent == Sent(Owed(old(socket.Stream()), mac, store, time), writes)
    ensures allowUid >= 0 && uid != allowUid ==> sent == "" && unchanged(socket)
  {
    if !PeerAllowed(uid, allowUid) {
      return "";
    }
    hide Reply;
    var line := ReadLine(socket, MAX_REQUEST);
    var reply := "ERR\n";
    if line.Some? {
      reply := HandleRequest(mac, store, dummyKey, line.value, time);
    }
    sent := WriteAll(reply, writes);
  }

  // ---- The client ----------------------------------------------------------------------------

  function VerifyRequest(id: string, code: string): string {
    "VERIFY " + id + " " + code + "\n"
  }

  function StatusRequest(id: string): string {
    "STATUS " + id + "\n"
  }

  /** ^OK (\d{1,15})$ */
  function ParseVerify(reply: string): Option<nat> {
    if |reply| >= 3 && reply[..3] == "OK " && 1 <= |reply[3..]| <= 15 && AllDigits(reply[3..])
    then Some(Parse(reply[3..]))
    else None
  }

  datatype Status = Active | Inactive | Error

  function ParseStatus(reply: Option<string>): Status {
    if reply == Some("ACTIVE") then Active else if reply == Some("INACTIVE") then Inactive else Status.Error
  }

  // ---- Nothing is lost or changed in between ------------------------------------------------------

  lemma PartsStep(a: string, rest: string, k: nat)
    requires ' ' !in a && k > 0
    ensures Parts(a + " " + rest, k) == [a] + Parts(rest, k - 1)
  {
    var s := a + " " + rest;
    assert s == a + (" " + rest);
    IndexOfAfter(a, " " + rest, ' ');
    assert IndexOf(" " + rest, ' ') == 0;
    assert s[..|a|] == a && s[|a| + 1..] == rest;
  }

  lemma PartsLast(a: string, k: nat)
    requires ' ' !in a && k > 0
    ensures Parts(a, k) == [a]
  {
    assert IndexOf(a, ' ') == |a|;
  }

  lemma PlainText(id: string, code: string)
    requires IsValidId(id) && IsValidCode(code)
    ensures ' ' !in id && '\n' !in id && ' ' !in code && '\n' !in code
  {
  }

  lemma LineArrives(line: string)
    requires '\n' !in line && |line| <= MAX_REQUEST
    ensures FirstLine(line + "\n", 64) == Some(line)
  {
    EndsAt(line);
    assert (line + "\n")[..|line|] == line;
  }

  lemma ThreeParts(a: string, b: string, c: string)
    requires ' ' !in a && ' ' !in b && ' ' !in c
    ensures Parts(a + " " + (b + " " + c), 4) == [a, b, c]
  {
    hide Parts;
    PartsStep(a, b + " " + c, 4);
    PartsStep(b, c, 3);
    PartsLast(c, 2);
  }

  /** Every ID and code the client sends reaches the handler as typed, whatever the socket does. */
  lemma VerifyArrives(id: string, code: string)
    requires IsValidId(id) && IsValidCode(code)
    ensures FirstLine(VerifyRequest(id, code), 64) == Some("VERIFY " + id + " " + code)
    ensures Parts("VERIFY " + id + " " + code, 4) == ["VERIFY", id, code]
  {
    hide FirstLine, Parts;
    PlainText(id, code);
    var line := "VERIFY " + id + " " + code;
    assert '\n' !in "VERIFY " && '\n' !in " ";
    LineArrives(line);
    assert line == "VERIFY" + " " + (id + " " + code);
    ThreeParts("VERIFY", id, code);
  }

  lemma StatusArrives(id: string)
    requires IsValidId(id)
    ensures FirstLine(StatusRequest(id), 64) == Some("STATUS " + id)
    ensures Parts("STATUS " + id, 4) == ["STATUS", id]
  {
    hide FirstLine, Parts;
    var line := "STATUS " + id;
    assert '\n' !in "STATUS ";
    LineArrives(line);
    assert line == "STATUS" + " " + id;
    PartsStep("STATUS", id, 4);
    PartsLast(id, 3);
  }

  function AnswerText(answer: Option<nat>): string {
    match answer case Some(n) => "OK " + Print(n) case None => "NO"
  }

  /** What the client makes of a counter: numbers of up to 15 digits come back, longer ones are refused. */
  function Received(answer: Option<nat>): Option<nat> {
    if answer.Some? && answer.value < Pow10(15) then answer else None
  }

  lemma TwentyDigits()
    ensures U64 < Pow10(20)
  {
    assert Pow10(5) == 100_000;
    assert Pow10(10) == 100_000 * Pow10(5);
    assert Pow10(15) == 100_000 * Pow10(10);
    assert Pow10(20) == 100_000 * Pow10(15);
  }

  lemma YesReadsBack(digits: string)
    requires digits != "" && AllDigits(digits) && |digits| <= 20
    ensures var reply := "OK " + digits;
            ParseVerify(reply) == (if |digits| <= 15 then Some(Parse(digits)) else None) && '\n' !in reply && |reply| < MAX_REPLY
  {
    var reply := "OK " + digits;
    assert reply[..3] == "OK " && reply[3..] == digits;
  }

  lemma ReplyReadsBack(answer: Option<nat>)
    requires answer.Some? ==> answer.value < U64
    ensures var reply := AnswerText(answer);
            ParseVerify(reply) == Received(answer) && '\n' !in reply && |reply| < MAX_REPLY
  {
    if answer.Some? {
      hide ParseVerify, Print, Parse, Pow10;
      var n := answer.value;
      ParsePrint(n);
      TwentyDigits();
      PrintLength(n, 15);
      PrintLength(n, 20);
      YesReadsBack(Print(n));
    }
  }

  lemma {:induction false} MatchFits(mac: Mac, key: string, code: string, now: nat, n: nat)
    ensures var m := FirstMatch(mac, key, code, now, n); m.Some? ==> m.value < U64
  {
    if n > 0 {
      MatchFits(mac, key, code, now, n - 1);
    }
  }

  lemma AnswerFits(mac: Mac, store: Keystore, id: string, code: string, time: nat)
    ensures var answer := Answer(mac, store, id, code, time); answer.Some? ==> answer.value < U64
  {
    if Real(store, id) {
      MatchFits(mac, store.devices[id].key, code, CounterForTime(time), 3);
    }
  }

  /** The client is told of a yes exactly when the code is good, with the counter it is good for. */
  lemma AnswerExactly(mac: Mac, store: Keystore, id: string, code: string, time: nat)
    requires 1 <= CounterForTime(time) < 999_999_999_999_999
    ensures var received := Received(Answer(mac, store, id, code, time));
            (received.Some? <==> CodeIsGood(mac, store, id, code, CounterForTime(time))) &&
            (received.Some? ==> received == Expected(mac, store.devices[id].key, code, CounterForTime(time)))
  {
    var now := CounterForTime(time);
    GoodExactly(mac, store, id, code, now);
    FifteenDigits();
    hide CodeAt, Verdict, Pow10, Expected;
    if Real(store, id) { ExpectedIsNear(mac, store.devices[id].key, code, now); }
  }

  lemma FifteenDigits()
    ensures Pow10(15) == 1_000_000_000_000_000
  {
    assert Pow10(5) == 100_000;
    assert Pow10(10) == 100_000 * Pow10(5);
    assert Pow10(15) == 100_000 * Pow10(10);
  }

  function StatusText(store: Keystore, id: string): string {
    if FindDevice(store, id).Error? then "ERR" else if DeviceActive(store, id) then "ACTIVE" else "INACTIVE"
  }

  function StatusOf(store: Keystore, id: string): Status {
    if FindDevice(store, id).Error? then Status.Error else if DeviceActive(store, id) then Active else Inactive
  }

  /** Active means in the keystore with status 1; anything else that could be looked up is inactive. */
  lemma StatusExactly(store: Keystore, id: string)
    requires IsValidId(id)
    ensures StatusOf(store, id) == Status.Error <==> !store.readable
    ensures StatusOf(store, id) == Active <==> store.readable && id in store.devices && store.devices[id].status == 1
    ensures StatusOf(store, id) == Inactive <==> store.readable && (id in store.devices ==> store.devices[id].status != 1)
  {
    SameIds(id);
  }

  lemma StatusAnswer(mac: Mac, store: Keystore, id: string, time: nat)
    requires IsValidId(id)
    ensures Reply(mac, store, "STATUS " + id, time) == StatusText(store, id) + "\n"
  {
    StatusArrives(id);
  }

  lemma StatusReadsBack(store: Keystore, id: string)
    ensures var text := StatusText(store, id);
            '\n' !in text && |text| < MAX_REPLY && ParseStatus(Some(text)) == StatusOf(store, id)
  {
    assert "ERR"[0] == 'E' && "ACTIVE"[0] == 'A' && "INACTIVE"[0] == 'I';
  }

  /** How a connection cuts a text into pieces: anyhow, but losing and inventing nothing. */
  ghost predicate Delivers(cut: string -> seq<string>) {
    forall text :: Flat(cut(text)) == text
  }

  lemma VerifyAnswer(mac: Mac, store: Keystore, id: string, code: string, time: nat)
    requires IsValidId(id) && IsValidCode(code)
    ensures Reply(mac, store, "VERIFY " + id + " " + code, time) == AnswerText(Answer(mac, store, id, code, time)) + "\n"
  {
    VerifyArrives(id, code);
  }

  lemma OwedFor(line: string, mac: Mac, store: Keystore, time: nat)
    requires FirstLine(line + "\n", MAX_REQUEST) == Some(line)
    ensures Owed(line + "\n", mac, store, time) == Reply(mac, store, line, time)
  {
  }

  lemma WholeLine(reply: string, sent: string, text: string)
    requires reply + "\n" <= sent <= text + "\n" && '\n' !in text
    ensures reply == text
  {
    assert (text + "\n")[|reply|] == (reply + "\n")[|reply|] == '\n';
    assert forall j :: 0 <= j < |text| ==> (text + "\n")[j] == text[j] && text[j] in text;
    assert (text + "\n")[..|reply|] == (reply + "\n")[..|reply|] == reply;
  }

  /** The client's ask() over a connection that may break anywhere: the daemon's line, or nothing. */
  method Consult(line: string, mac: Mac, store: Keystore, dummyKey: string, time: nat, writes: seq<int>,
                 cut: string -> seq<string>, ghost text: string) returns (reply: Option<string>)
    requires CounterForTime(time) < U64 && Delivers(cut) && FirstLine(line + "\n", MAX_REQUEST) == Some(line)
    requires Reply(mac, store, line, time) == text + "\n" && '\n' !in text && |text| <= MAX_REPLY
    ensures reply == Some(text) || reply == None
    ensures 0 !in writes ==> reply == Some(text)
  {
    hide Reply, FirstLine, Sent;
    OwedFor(line, mac, store, time);
    var socket := new Socket(cut(line + "\n"));
    var sent := Serve(socket, 0, -1, mac, store, dummyKey, time, writes);
    assert sent == Sent(text + "\n", writes);
    reply := Ask(cut(sent), MAX_REPLY);
    if reply.Some? {
      WholeLine(reply.value, sent, text);
    }
    if 0 !in writes {
      AllIsSent(text + "\n", writes);
    }
  }

  /**
   verify() over the socket, in arbitrary pieces both ways: the daemon's verdict for exactly
   this ID and code, or, when the connection breaks, a no.
   */
  method Verify(mac: Mac, store: Keystore, dummyKey: string, id: string, code: string, time: nat, writes: seq<int>,
                cut: string -> seq<string>) returns (counter: Option<nat>)
    requires CounterForTime(time) < U64 && Delivers(cut)
    ensures !IsValidId(id) || !IsValidCode(code) ==> counter == None
    ensures counter == Received(Answer(mac, store, id, code, time)) || counter == None
    ensures IsValidId(id) && IsValidCode(code) && 0 !in writes ==> counter == Received(Answer(mac, store, id, code, time))
    ensures 1 <= CounterForTime(time) < 999_999_999_999_999 && counter.Some? ==>
              store.readable && id in store.devices && store.devices[id].status == 1 && |store.devices[id].key| == 128 &&
              counter == Expected(mac, store.devices[id].key, code, CounterForTime(time))
  {
    if !IsValidId(id) || !IsValidCode(code) {
      return None;
    }
    hide Reply, FirstLine, Answer, Received, ParseVerify, AnswerText, Expected;
    VerifyArrives(id, code);
    VerifyAnswer(mac, store, id, code, time);
    AnswerFits(mac, store, id, code, time);
    ghost var answer := Answer(mac, store, id, code, time);
    ReplyReadsBack(answer);
    if 1 <= CounterForTime(time) < 999_999_999_999_999 { AnswerExactly(mac, store, id, code, time); }
    var reply := Consult("VERIFY " + id + " " + code, mac, store, dummyKey, time, writes, cut, AnswerText(answer));
    counter := if reply.Some? then ParseVerify(reply.value) else None;
  }

  /** status() over the socket: the device's status as the keystore has it, or, when the connection breaks, an error. */
  method AskStatus(mac: Mac, store: Keystore, dummyKey: string, id: string, time: nat, writes: seq<int>,
                   cut: string -> seq<string>) returns (status: Status)
    requires CounterForTime(time) < U64 && Delivers(cut)
    ensures !IsValidId(id) ==> status == Inactive
    ensures status == Active ==> store.readable && id in store.devices && store.devices[id].status == 1
    ensures IsValidId(id) && status == Inactive ==> store.readable && (id in store.devices ==> store.devices[id].status != 1)
    ensures IsValidId(id) && 0 !in writes && store.readable ==>
              (status == if id in store.devices && store.devices[id].status == 1 then Active else Inactive)
  {
    if !IsValidId(id) {
      return Inactive;
    }
    hide Reply, FirstLine, StatusOf, StatusText;
    StatusArrives(id);
    StatusAnswer(mac, store, id, time);
    StatusReadsBack(store, id);
    StatusExactly(store, id);
    var reply := Consult("STATUS " + id, mac, store, dummyKey, time, writes, cut, StatusText(store, id));
    status := ParseStatus(reply);
  }

  /** Whatever the daemon sends, a yes from verify() is a whole well-formed reply that starts the stream. */
  method VerifyAnything(back: seq<string>) returns (counter: Option<nat>)
    ensures counter.Some? ==> exists digits: string ::
              1 <= |digits| <= 15 && AllDigits(digits) && Parse(digits) == counter.value && "OK " + digits + "\n" <= Flat(back)
  {
    var reply := Ask(back, MAX_REPLY);
    counter := if reply.Some? then ParseVerify(reply.value) else None;
    if counter.Some? {
      assert reply.value == "OK " + reply.value[3..];
    }
  }
}
