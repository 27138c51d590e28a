/** The admin daemon's LIST reply: printed, patched in place, and parsed again by the web tier. */
module AdminList {
  import opened Numerals
  import opened Ids
  import opened Lines

  const MAX_REPLY: nat := 64 * 1024
  const RECORD: string := "DEVICE "

  datatype Device = Device(id: string, inUse: bool, created: string, note: string)

  // ---- The daemon prints ------------------------------------------------------------------

  function StatusWord(inUse: bool): string {
    if inUse then "active" else "revoked"
  }

  function CreatedField(created: string): string {
    if created == "" then "-" else created
  }

  /** One device's line up to its newline. */
  function Text(d: Device, created: string): string {
    Record(d.id, StatusWord(d.inUse), created, " " + d.note)
  }

  function Record(id: string, status: string, created: string, rest: string): string {
    RECORD + id + (" " + (status + (" " + (created + rest))))
  }

  function Listing(devices: seq<Device>): string {
    if devices == [] then "END\n"
    else Text(devices[0], CreatedField(devices[0].created)) + ("\n" + Listing(devices[1..]))
  }

  method HandleList(devices: seq<Device>) returns (reply: string)
    ensures reply == Listing(devices)
  {
    var out := "";
    var i := 0;
    assert devices[0..] == devices;
    while i < |devices|
      invariant 0 <= i <= |devices|
      invariant out + Listing(devices[i..]) == Listing(devices)
    {
      var text := Text(devices[i], CreatedField(devices[i].created));
      ghost var rest := Listing(devices[i + 1..]);
      assert devices[i..][1..] == devices[i + 1..];
      Regroup(out, text, "\n" + rest);
      Regroup(out + text, "\n", rest);
      out := out + text + "\n";
      i := i + 1;
    }
    return out + "END\n";
  }

  // ---- The daemon patches ------------------------------------------------------------------

  predicate StartsAt(s: string, pattern: string, pos: nat) {
    pos + |pattern| <= |s| && forall i :: 0 <= i < |pattern| ==> s[pos + i] == pattern[i]
  }

  /** Where `pattern` next starts at or after pos, or |s|. */
  function Find(s: string, pattern: string, pos: nat): (at: nat)
    ensures at == |s| || (pos <= at && StartsAt(s, pattern, at))
    decreases |s| - pos
  {
    if pos + |pattern| > |s| then |s|
    else if StartsAt(s, pattern, pos) then pos
    else Find(s, pattern, pos + 1)
  }

  function FindChar(s: string, c: char, pos: nat): (at: nat)
    requires pos <= |s|
    ensures pos <= at <= |s| && (at < |s| ==> s[at] == c)
    decreases |s| - pos
  {
    if pos == |s| || s[pos] == c then pos else FindChar(s, c, pos + 1)
  }

  /** The blank inside the third field of the record at `at`, when that field is a date and a time. */
  function DateGap(s: string, at: nat): (gap: Option<nat>)
    requires at + |RECORD| <= |s|
    ensures gap.Some? ==> at < gap.value < |s|
  {
    var a := FindChar(s, ' ', at + |RECORD|);
    if a == |s| then None
    else
      var b := FindChar(s, ' ', a + 1);
      if b + 11 < |s| && s[b + 11] == ' ' && s[b + 1] != '-' then Some(b + 11) else None
  }

  function Joined(s: string, gap: Option<nat>): (r: string)
    requires gap.Some? ==> gap.value < |s|
    ensures |r| == |s|
  {
    if gap.Some? then s[gap.value := 'T'] else s
  }

  /** The newline that ends the record at `at`, once its date is joined. */
  function RecordEnd(s: string, at: nat): (nl: nat)
    requires StartsAt(s, RECORD, at)
    ensures at < nl <= |s|
  {
    var joined := Joined(s, DateGap(s, at));
    assert RECORD[0] == 'D' && joined[at + 0] == 'D';
    FindChar(joined, '\n', at)
  }

  function PatchFrom(s: string, pos: nat): (r: string)
    requires pos <= |s|
    ensures |r| == |s|
    decreases |s| - pos
  {
    if pos == |s| then s
    else if StartsAt(s, RECORD, pos) then PatchFrom(Joined(s, DateGap(s, pos)), RecordEnd(s, pos))
    else PatchFrom(s, pos + 1)
  }

  lemma {:induction false} PatchFound(s: string, pos: nat)
    requires pos <= |s|
    ensures PatchFrom(s, pos) == PatchFrom(s, Find(s, RECORD, pos))
    decreases |s| - pos
  {
    if pos < |s| && !StartsAt(s, RECORD, pos) {
      PatchFound(s, pos + 1);
    }
  }

  method JoinDate(s: string, at: nat) returns (r: string)
    requires at + |RECORD| <= |s|
    ensures r == Joined(s, DateGap(s, at))
  {
    r := s;
    var a := FindChar(s, ' ', at + |RECORD|);
    var b := if a == |s| then a else FindChar(s, ' ', a + 1);
    if b + 11 < |s| && s[b + 11] == ' ' && s[b + 1] != '-' {
      r := s[b + 11 := 'T'];
    }
  }

  method SingleTokenDates(s: string) returns (r: string)
    ensures r == PatchFrom(s, 0)
  {
    r := s;
    var pos := 0;
    while true
      invariant pos <= |r| == |s| && PatchFrom(r, pos) == PatchFrom(s, 0)
      decreases |s| - pos
    {
      PatchFound(r, pos);
      pos := Find(r, RECORD, pos);
      if pos == |r| {
        return;
      }
      ghost var nl := RecordEnd(r, pos);
      r := JoinDate(r, pos);
      pos := FindChar(r, '\n', pos);
      assert pos == nl;
      if pos == |r| {
        return;
      }
    }
  }

  // ---- What the patching amounts to ------------------------------------------------------------

  lemma StartsShift(front: string, s: string, pattern: string, pos: nat)
    ensures StartsAt(front + s, pattern, |front| + pos) <==> StartsAt(s, pattern, pos)
  {
    if pos + |pattern| <= |s| {
      forall i | 0 <= i < |pattern| ensures (front + s)[|front| + pos + i] == pattern[i] <==> s[pos + i] == pattern[i] {}
    }
  }

  lemma {:induction false} FindCharShift(front: string, s: string, c: char, pos: nat)
    requires pos <= |s|
    ensures FindChar(front + s, c, |front| + pos) == |front| + FindChar(s, c, pos)
    decreases |s| - pos
  {
    if pos < |s| {
      assert (front + s)[|front| + pos] == s[pos];
      FindCharShift(front, s, c, pos + 1);
    }
  }

  function Moved(gap: Option<nat>, shift: nat): Option<nat> {
    if gap.Some? then Some(gap.value + shift) else None
  }

  lemma DateGapShift(front: string, s: string, at: nat)
    requires at + |RECORD| <= |s|
    ensures DateGap(front + s, |front| + at) == Moved(DateGap(s, at), |front|)
  {
    FindCharShift(front, s, ' ', at + |RECORD|);
    var a := FindChar(s, ' ', at + |RECORD|);
    if a < |s| {
      FindCharShift(front, s, ' ', a + 1);
      var b := FindChar(s, ' ', a + 1);
      assert b + 11 < |s| ==> (front + s)[|front| + b + 11] == s[b + 11] && (front + s)[|front| + b + 1] == s[b + 1];
    }
  }

  lemma JoinedShift(front: string, s: string, gap: Option<nat>)
    requires gap.Some? ==> gap.value < |s|
    ensures Joined(front + s, Moved(gap, |front|)) == front + Joined(s, gap)
  {
  }

  lemma JoinShift(front: string, s: string, at: nat)
    requires at + |RECORD| <= |s|
    ensures Joined(front + s, DateGap(front + s, |front| + at)) == front + Joined(s, DateGap(s, at))
  {
    DateGapShift(front, s, at);
    JoinedShift(front, s, DateGap(s, at));
  }

  lemma RecordEndShift(front: string, s: string, at: nat)
    requires StartsAt(s, RECORD, at) && StartsAt(front + s, RECORD, |front| + at)
    ensures RecordEnd(front + s, |front| + at) == |front| + RecordEnd(s, at)
  {
    JoinShift(front, s, at);
    FindCharShift(front, Joined(s, DateGap(s, at)), '\n', at);
  }

  /** What comes before the position never matters and never changes. */
  lemma {:induction false} PatchShift(front: string, s: string, pos: nat)
    requires pos <= |s|
    ensures PatchFrom(front + s, |front| + pos) == front + PatchFrom(s, pos)
    decreases |s| - pos
  {
    StartsShift(front, s, RECORD, pos);
    if pos < |s| {
      if StartsAt(s, RECORD, pos) {
        JoinShift(front, s, pos);
        RecordEndShift(front, s, pos);
        PatchShift(front, Joined(s, DateGap(s, pos)), RecordEnd(s, pos));
      } else {
        PatchShift(front, s, pos + 1);
      }
    }
  }

  lemma PatchAfterNewline(tail: string)
    ensures PatchFrom("\n" + tail, 0) == "\n" + PatchFrom(tail, 0)
  {
    var s := "\n" + tail;
    assert !StartsAt(s, RECORD, 0) by {
      if |RECORD| <= |s| {
        assert s[0 + 0] == '\n' != RECORD[0];
      }
    }
    PatchShift("\n", tail, 0);
  }

  lemma RecordHasAnI(s: string, pos: nat)
    ensures StartsAt(s, RECORD, pos) ==> 'I' in s
  {
    assert RECORD[3] == 'I';
    assert StartsAt(s, RECORD, pos) ==> s[pos + 3] == RECORD[3];
  }

  /** Most replies hold no record, and none is possible without the I of "DEVICE ". */
  lemma {:induction false} NothingToPatch(s: string, pos: nat)
    requires 'I' !in s && pos <= |s|
    ensures PatchFrom(s, pos) == s
    decreases |s| - pos
  {
    if pos < |s| {
      RecordHasAnI(s, pos);
      NothingToPatch(s, pos + 1);
    }
  }

  /** YYYY-MM-DD HH:MM:SS */
  predicate IsTimestamp(s: string) {
    |s| == 19 && s[4] == '-' && s[7] == '-' && s[10] == ' ' && s[13] == ':' && s[16] == ':' &&
    forall i :: 0 <= i < 19 && i !in {4, 7, 10, 13, 16} ==> IsDigit(s[i])
  }

  predicate Printable(s: string) {
    forall i :: 0 <= i < |s| ==> ' ' <= s[i] <= '~'
  }

  /** What the keystore holds: a valid ID, a timestamp or nothing, and a one-line note, empty or not. */
  predicate Listable(d: Device) {
    IsValidId(d.id) && (d.created == "" || IsTimestamp(d.created)) && Printable(d.note)
  }

  function SingleToken(created: string): string {
    if IsTimestamp(created) then created[10 := 'T'] else CreatedField(created)
  }

  function Patched(devices: seq<Device>): string {
    if devices == [] then "END\n"
    else Text(devices[0], SingleToken(devices[0].created)) + ("\n" + Patched(devices[1..]))
  }

  lemma {:induction false} FindCharIs(s: string, c: char, pos: nat, k: nat)
    requires pos <= k < |s| && s[k] == c && forall j :: pos <= j < k ==> s[j] != c
    ensures FindChar(s, c, pos) == k
    decreases k - pos
  {
    if pos < k {
      FindCharIs(s, c, pos + 1, k);
    }
  }

  lemma SkipTo(front: string, skip: string, rest: string, c: char)
    requires c !in skip && rest != "" && rest[0] == c
    ensures FindChar(front + (skip + rest), c, |front|) == |front| + |skip|
  {
    FindCharShift(front, skip + rest, c, 0);
    var s := skip + rest;
    forall j | 0 <= j < |skip| ensures s[j] != c { assert s[j] == skip[j]; }
    assert s[|skip|] == rest[0];
    FindCharIs(s, c, 0, |skip|);
  }

  lemma GapOf(id: string, status: string, created: string, rest: string)
    requires ' ' !in id && ' ' !in status
    ensures var b := |RECORD| + |id| + 1 + |status|;
            var s := Record(id, status, created, rest);
            DateGap(s, 0) == if b + 11 < |s| && s[b + 11] == ' ' && s[b + 1] != '-' then Some(b + 11) else None
  {
    var afterStatus := " " + (created + rest);
    var afterId := " " + (status + afterStatus);
    Regroup(RECORD, id, afterId);
    SkipTo(RECORD, id, afterId, ' ');
    var front := RECORD + id + " ";
    Regroup(RECORD + id, " ", status + afterStatus);
    SkipTo(front, status, afterStatus, ' ');
  }

  lemma JoinRecord(id: string, status: string, created: string, rest: string)
    requires ' ' !in id && ' ' !in status && (created == "" || IsTimestamp(created))
    ensures var s := Record(id, status, CreatedField(created), rest);
            Joined(s, DateGap(s, 0)) == Record(id, status, SingleToken(created), rest)
  {
    var field := CreatedField(created);
    GapOf(id, status, field, rest);
    var head := RECORD + id + " " + status + " ";
    Regroup(RECORD + id, " ", status + (" " + (field + rest)));
    Regroup(RECORD + id + " ", status, " " + (field + rest));
    Regroup(RECORD + id + " " + status, " ", field + rest);
    var s := Record(id, status, field, rest);
    assert s == head + (field + rest);
    assert s[|head|] == field[0];
    if created != "" {
      var joined := created[10 := 'T'];
      assert s[|head| + 10] == created[10];
      assert s[|head| + 10 := 'T'] == head + (joined + rest);
      Regroup(RECORD + id, " ", status + (" " + (joined + rest)));
      Regroup(RECORD + id + " ", status, " " + (joined + rest));
      Regroup(RECORD + id + " " + status, " ", joined + rest);
    }
  }

  lemma LongerRecord(id: string, status: string, created: string, rest: string, more: string)
    ensures Record(id, status, created, rest) + more == Record(id, status, created, rest + more)
  {
    var r3 := created + rest;
    var r2 := status + (" " + r3);
    Regroup(RECORD + id, " " + r2, more);
    Regroup(" ", r2, more);
    Regroup(status, " " + r3, more);
    Regroup(" ", r3, more);
    Regroup(created, rest, more);
  }

  lemma JoinLine(d: Device, more: string)
    requires Listable(d)
    ensures var s := Text(d, CreatedField(d.created)) + more;
            Joined(s, DateGap(s, 0)) == Text(d, SingleToken(d.created)) + more
  {
    var status := StatusWord(d.inUse);
    LongerRecord(d.id, status, CreatedField(d.created), " " + d.note, more);
    LongerRecord(d.id, status, SingleToken(d.created), " " + d.note, more);
    JoinRecord(d.id, status, d.created, " " + d.note + more);
  }

  lemma PrintableConcat(a: string, b: string)
    requires Printable(a) && Printable(b)
    ensures Printable(a + b)
  {
  }

  lemma PrintableText(d: Device, created: string)
    requires Listable(d) && Printable(created)
    ensures Printable(Text(d, created)) && NoNewline(Text(d, created))
  {
    var status := StatusWord(d.inUse);
    PrintableConcat(" ", d.note);
    PrintableConcat(created, " " + d.note);
    PrintableConcat(" ", created + (" " + d.note));
    PrintableConcat(status, " " + (created + (" " + d.note)));
    PrintableConcat(" ", status + (" " + (created + (" " + d.note))));
    PrintableConcat(RECORD, d.id);
    PrintableConcat(RECORD + d.id, " " + (status + (" " + (created + (" " + d.note)))));
  }

  lemma StartsWithRecord(d: Device, created: string, more: string)
    ensures StartsAt(Text(d, created) + more, RECORD, 0) && Text(d, created) != ""
  {
    LongerRecord(d.id, StatusWord(d.inUse), created, " " + d.note, more);
  }

  lemma PatchOne(line: string, text: string, tail: string)
    requires var s := line + ("\n" + tail);
             StartsAt(s, RECORD, 0) && Joined(s, DateGap(s, 0)) == text + ("\n" + tail)
    requires '\n' !in text
    ensures PatchFrom(line + ("\n" + tail), 0) == text + ("\n" + PatchFrom(tail, 0))
  {
    var s, joined := line + ("\n" + tail), text + ("\n" + tail);
    assert "" + joined == joined;
    SkipTo("", text, "\n" + tail, '\n');
    assert PatchFrom(s, 0) == PatchFrom(joined, |text|);
    hide PatchFrom, Joined, DateGap, StartsAt, RecordEnd;
    PatchShift(text, "\n" + tail, 0);
    PatchAfterNewline(tail);
  }

  lemma PatchLine(d: Device, tail: string)
    requires Listable(d)
    ensures PatchFrom(Text(d, CreatedField(d.created)) + ("\n" + tail), 0)
            == Text(d, SingleToken(d.created)) + ("\n" + PatchFrom(tail, 0))
  {
    StartsWithRecord(d, CreatedField(d.created), "\n" + tail);
    JoinLine(d, "\n" + tail);
    SingleTokenReads(d.created);
    PrintableText(d, SingleToken(d.created));
    PatchOne(Text(d, CreatedField(d.created)), Text(d, SingleToken(d.created)), tail);
  }

  lemma PatchEnd()
    ensures PatchFrom("END\n", 0) == "END\n"
  {
  }

  /** The patch touches the dates and nothing else, whatever the labels say. */
  lemma {:induction false} PatchedListing(devices: seq<Device>)
    requires forall d :: d in devices ==> Listable(d)
    ensures PatchFrom(Listing(devices), 0) == Patched(devices)
  {
    if devices == [] {
      PatchEnd();
    } else {
      PatchLine(devices[0], Listing(devices[1..]));
      PatchedListing(devices[1..]);
    }
  }

  // ---- The web tier parses ---------------------------------------------------------------------

  datatype Entry = Entry(id: string, inUse: bool, created: Option<string>, note: string)

  /** \S+ */
  predicate Token(s: string) {
    s != "" && forall i :: 0 <= i < |s| ==> !IsSpace(s[i])
  }

  /** .* */
  predicate OneLine(s: string) {
    forall i :: 0 <= i < |s| ==> s[i] != '\n' && s[i] != '\r'
  }

  function Cut(s: string): Option<(string, string)> {
    var sp := IndexOf(s, ' ');
    if sp == |s| then None else Some((s[..sp], s[sp + 1..]))
  }

  function FirstTToSpace(s: string): string {
    var t := IndexOf(s, 'T');
    if t == |s| then s else s[t := ' ']
  }

  function ParseFields(id: string, status: string, created: string, note: string): Option<Entry> {
    if Token(id) && (status == "active" || status == "revoked") && Token(created) && OneLine(note)
    then Some(Entry(id, status == "active", if created == "-" then None else Some(FirstTToSpace(created)), note))
    else None
  }

  /** ^DEVICE (\S+) (active|revoked) (\S+) (.*)$ */
  function ParseLine(line: string): Option<Entry> {
    if !(RECORD <= line) then None
    else match Cut(line[|RECORD|..])
      case None => None
      case Some((id, afterId)) =>
        match Cut(afterId)
        case None => None
        case Some((status, afterStatus)) =>
          match Cut(afterStatus)
          case None => None
          case Some((created, note)) => ParseFields(id, status, created, note)
  }

  function Prepend(had: seq<Entry>, more: Option<seq<Entry>>): Option<seq<Entry>> {
    if more.Some? then Some(had + more.value) else None
  }

  function ParseLines(lines: seq<string>): Option<seq<Entry>> {
    if lines == [] then Some([])
    else if lines[0] == "" then ParseLines(lines[1..])
    else
      var first := ParseLine(lines[0]);
      if first.Some? then Prepend([first.value], ParseLines(lines[1..])) else None
  }

  function ParseReply(reply: string): Option<seq<Entry>> {
    if |reply| < 4 || reply[|reply| - 4..] != "END\n" then None
    else ParseLines(Split(reply[..|reply| - 4]))
  }

  /** What the loop has, followed by what the remaining lines give. */
  lemma NextLine(had: seq<Entry>, lines: seq<string>, i: nat)
    requires i < |lines|
    ensures Prepend(had, ParseLines(lines[i..])) ==
            if lines[i] == "" then Prepend(had, ParseLines(lines[i + 1..]))
            else
              var first := ParseLine(lines[i]);
              if first.None? then None else Prepend(had + [first.value], ParseLines(lines[i + 1..]))
  {
    assert lines[i..][1..] == lines[i + 1..];
    var first, more := ParseLine(lines[i]), ParseLines(lines[i + 1..]);
    if first.Some? && more.Some? {
      assert had + ([first.value] + more.value) == had + [first.value] + more.value;
    }
  }

  method ParseList(reply: Option<string>) returns (entries: Option<seq<Entry>>)
    ensures entries == if reply.None? then None else ParseReply(reply.value)
  {
    if reply.None? || |reply.value| < 4 || reply.value[|reply.value| - 4..] != "END\n" {
      return None;
    }
    entries := ParseAll(Split(reply.value[..|reply.value| - 4]));
  }

  lemma NoLines()
    ensures ParseLines([]) == Some([])
  {
  }

  method ParseAll(lines: seq<string>) returns (entries: Option<seq<Entry>>)
    ensures entries == ParseLines(lines)
  {
    hide ParseLine, ParseLines;
    ghost var result := ParseLines(lines);
    var devices: seq<Entry> := [];
    var i := 0;
    NoLines();
    assert lines[0..] == lines && (result.Some? ==> [] + result.value == result.value);
    while i < |lines|
      invariant 0 <= i <= |lines|
      invariant result == Prepend(devices, ParseLines(lines[i..]))
    {
      NextLine(devices, lines, i);
      if lines[i] != "" {
        var m := ParseLine(lines[i]);
        if m.None? {
          return None;
        }
        devices := devices + [m.value];
      }
      i := i + 1;
    }
    assert lines[i..] == [] && devices + [] == devices;
    entries := Some(devices);
  }

  function EntryOf(d: Device): Entry {
    Entry(d.id, d.inUse, if d.created == "" then None else Some(d.created), d.note)
  }

  function Entries(devices: seq<Device>): seq<Entry> {
    if devices == [] then [] else [EntryOf(devices[0])] + Entries(devices[1..])
  }

  lemma CutAt(a: string, rest: string)
    requires ' ' !in a
    ensures Cut(a + (" " + rest)) == Some((a, rest))
  {
    var s := a + (" " + rest);
    IndexOfAfter(a, " " + rest, ' ');
    assert s[..|a|] == a && s[|a| + 1..] == rest;
  }

  lemma SingleTokenReads(created: string)
    requires created == "" || IsTimestamp(created)
    ensures var field := SingleToken(created);
            ' ' !in field && Token(field) && Printable(field) && (field == "-" <==> created == "") &&
            (created != "" ==> FirstTToSpace(field) == created)
  {
    var field := SingleToken(created);
    if created != "" {
      IndexOfIs(field, 'T', 10);
      assert field[10 := ' '] == created;
    }
  }

  lemma ParseRecord(id: string, status: string, created: string, note: string)
    requires ' ' !in id && ' ' !in status && ' ' !in created
    ensures ParseLine(Record(id, status, created, " " + note)) == ParseFields(id, status, created, note)
  {
    var afterStatus := created + (" " + note);
    var afterId := status + (" " + afterStatus);
    var line := Record(id, status, created, " " + note);
    Regroup(RECORD, id, " " + afterId);
    assert line[|RECORD|..] == id + (" " + afterId);
    CutAt(id, afterId);
    CutAt(status, afterStatus);
    CutAt(created, note);
  }

  lemma FieldsRead(d: Device)
    requires Listable(d)
    ensures ParseFields(d.id, StatusWord(d.inUse), SingleToken(d.created), d.note) == Some(EntryOf(d))
  {
    SingleTokenReads(d.created);
    hide SingleToken, FirstTToSpace;
  }

  lemma ParseText(d: Device)
    requires Listable(d)
    ensures ParseLine(Text(d, SingleToken(d.created))) == Some(EntryOf(d))
  {
    hide ParseLine, ParseFields, Record, SingleToken;
    SingleTokenReads(d.created);
    ParseRecord(d.id, StatusWord(d.inUse), SingleToken(d.created), d.note);
    FieldsRead(d);
  }

  lemma ParseHead(text: string, lines: seq<string>)
    requires text != "" && ParseLine(text).Some?
    ensures ParseLines([text] + lines) == Prepend([ParseLine(text).value], ParseLines(lines))
  {
    assert ([text] + lines)[1..] == lines;
  }

  lemma EndAfter(head: string, tail: string)
    requires |tail| >= 4
    ensures (head + tail)[|head + tail| - 4..] == tail[|tail| - 4..]
    ensures (head + tail)[..|head + tail| - 4] == head + tail[..|tail| - 4]
  {
  }

  lemma ParseStep(text: string, tail: string)
    requires NoNewline(text) && text != "" && ParseLine(text).Some? && ParseReply(tail).Some?
    ensures ParseReply(text + ("\n" + tail)) == Prepend([ParseLine(text).value], ParseReply(tail))
  {
    hide ParseLine, ParseLines, Split;
    var body := tail[..|tail| - 4];
    EndAfter("\n", tail);
    EndAfter(text, "\n" + tail);
    SplitLine(text, body);
    ParseHead(text, Split(body));
  }

  lemma ParseEnd()
    ensures ParseReply("END\n") == Some([])
  {
    var reply := "END\n";
    assert reply[..0] == "" && reply[0..] == reply;
    assert [""][1..] == [];
  }

  lemma ParseDevice(d: Device, tail: string)
    requires Listable(d) && ParseReply(tail).Some?
    ensures ParseReply(Text(d, SingleToken(d.created)) + ("\n" + tail)) == Prepend([EntryOf(d)], ParseReply(tail))
  {
    SingleTokenReads(d.created);
    PrintableText(d, SingleToken(d.created));
    StartsWithRecord(d, SingleToken(d.created), "");
    ParseText(d);
    ParseStep(Text(d, SingleToken(d.created)), tail);
  }

  lemma {:induction false} ParsePatched(devices: seq<Device>)
    requires forall d :: d in devices ==> Listable(d)
    ensures ParseReply(Patched(devices)) == Some(Entries(devices))
  {
    if devices == [] {
      ParseEnd();
    } else {
      var d := devices[0];
      assert d in devices;
      ParsePatched(devices[1..]);
      ParseDevice(d, Patched(devices[1..]));
    }
  }

  /** LIST end to end: exactly the keystore's devices, even with "DEVICE " or "END" in a label. */
  lemma ListRoundTrip(devices: seq<Device>)
    requires forall d :: d in devices ==> Listable(d)
    ensures ParseReply(PatchFrom(Listing(devices), 0)) == Some(Entries(devices))
  {
    PatchedListing(devices);
    ParsePatched(devices);
  }

  /** ask() of the admin client: the whole reply at the end of the stream, unless it is over the limit. */
  method AskAll(chunks: seq<string>) returns (reply: Option<string>)
    ensures reply == if |Flat(chunks)| <= 65_536 then Some(Flat(chunks)) else None
  {
    var got := "";
    var i := 0;
    assert chunks[0..] == chunks;
    while i < |chunks|
      invariant 0 <= i <= |chunks| && |got| <= MAX_REPLY
      invariant got + Flat(chunks[i..]) == Flat(chunks)
    {
      assert chunks[i..][1..] == chunks[i + 1..];
      Regroup(got, chunks[i], Flat(chunks[i + 1..]));
      got := got + chunks[i];
      if |got| > MAX_REPLY {
        return None;
      }
      i := i + 1;
    }
    assert got + "" == got;
    reply := Some(got);
  }

  /** list() over the socket: every device, or an error exactly when the listing is over the limit. */
  method List(devices: seq<Device>, cut: string -> seq<string>) returns (entries: Option<seq<Entry>>)
    requires forall d :: d in devices ==> Listable(d)
    requires forall text :: Flat(cut(text)) == text
    ensures entries == if |Listing(devices)| <= 65_536 then Some(Entries(devices)) else None
  {
    var printed := HandleList(devices);
    var patched := SingleTokenDates(printed);
    ListRoundTrip(devices);
    var reply := AskAll(cut(patched));
    entries := ParseList(reply);
  }
}
