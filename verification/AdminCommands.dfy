/** The admin daemon's commands, from what an administrator types to the keystore row that changes. */
module AdminCommands {
  import opened Numerals
  import opened Ids
  import opened Labels
  import opened Lines
  import opened AdminList

  const MAX_REQUEST: nat := 128
  const KEY_HEX_LEN: nat := 128

  // ---- The daemon ------------------------------------------------------------------------

  datatype Row = Row(key: string, inUse: bool, created: string, note: string)

  datatype Command = List | Add(note: string) | SetStatus(id: string, inUse: bool) | Relabel(id: string, note: string) | Malformed

  function CommandOf(line: string): Command {
    var sp := IndexOf(line, ' ');
    var cmd, rest := line[..sp], if sp == |line| then "" else line[sp + 1..];
    if cmd == "LIST" && rest == "" then List
    else if cmd == "ADD" then Add(rest)
    else if cmd == "REVOKE" && rest != "" then SetStatus(rest, false)
    else if cmd == "ACTIVATE" && rest != "" then SetStatus(rest, true)
    else if cmd == "LABEL" then
      match Cut(rest)
      case None => Malformed
      case Some((id, note)) => Relabel(id, note)
    else Malformed
  }

  /** What one ADD draws at random, and the time it is handled. */
  datatype Draw = Draw(ids: seq<string>, key: string, now: string)

  predicate Fair(draw: Draw) {
    |draw.ids| == 16 && (forall id :: id in draw.ids ==> ValidDeviceId(id)) &&
    |draw.key| == KEY_HEX_LEN && (forall i :: 0 <= i < |draw.key| ==> HexChar(draw.key[i])) && IsTimestamp(draw.now)
  }

  predicate HexChar(c: char) {
    '0' <= c <= '9' || 'a' <= c <= 'f'
  }

  function FirstFree(rows: map<string, Row>, ids: seq<string>): Option<string> {
    if ids == [] then None else if ids[0] !in rows then Some(ids[0]) else FirstFree(rows, ids[1..])
  }

  /** A malformed ID never reaches the keystore. */
  predicate Known(rows: map<string, Row>, id: string) {
    ValidDeviceId(id) && id in rows
  }

  /** The keystore after a command. */
  function Applied(rows: map<string, Row>, command: Command, draw: Draw): map<string, Row> {
    match command
    case Add(note) =>
      var id := FirstFree(rows, draw.ids);
      if ValidLabel(note) && id.Some? then rows[id.value := Row(draw.key, true, draw.now, note)] else rows
    case SetStatus(id, inUse) =>
      if Known(rows, id) then rows[id := rows[id].(inUse := inUse)] else rows
    case Relabel(id, note) =>
      if ValidLabel(note) && Known(rows, id) then rows[id := rows[id].(note := note)] else rows
    case _ => rows
  }

  /** The answer, except for LIST. */
  function Answered(rows: map<string, Row>, command: Command, draw: Draw): string {
    match command
    case Add(note) =>
      var id := FirstFree(rows, draw.ids);
      if ValidLabel(note) && id.Some? then "OK " + id.value + " " + draw.key + "\n" else "ERR\n"
    case SetStatus(id, _) => if Known(rows, id) then "OK\n" else "NO\n"
    case Relabel(id, note) => if !ValidLabel(note) then "ERR\n" else if Known(rows, id) then "OK\n" else "NO\n"
    case _ => "ERR\n"
  }

  function Listed(rows: map<string, Row>, id: string): Device
    requires id in rows
  {
    Device(id, rows[id].inUse, rows[id].created, rows[id].note)
  }

  predicate Sound(rows: map<string, Row>) {
    forall id :: id in rows ==> Listable(Listed(rows, id))
  }

  /** The keystore behind the daemon; find, insert and update answer from its rows. */
  class AdminDaemon {
    var rows: map<string, Row>

    constructor (rows: map<string, Row>)
      ensures this.rows == rows
    {
      this.rows := rows;
    }

    method HandleAdd(note: string, draw: Draw) returns (reply: string)
      requires Fair(draw)
      modifies this
      ensures rows == Applied(old(rows), Add(note), draw) && reply == Answered(old(rows), Add(note), draw)
    {
      if !ValidLabel(note) {
        return "ERR\n";
      }
      reply := "ERR\n";
      var attempt := 0;
      while attempt < 16
        invariant 0 <= attempt <= 16 && rows == old(rows) && reply == "ERR\n"
        invariant FirstFree(rows, draw.ids) == FirstFree(rows, draw.ids[attempt..])
      {
        var id := draw.ids[attempt];
        if id !in rows {
          rows := rows[id := Row(draw.key, true, draw.now, note)];
          return "OK " + id + " " + draw.key + "\n";
        }
        assert draw.ids[attempt..][1..] == draw.ids[attempt + 1..];
        attempt := attempt + 1;
      }
    }

    /** update_one: one column of one row, or nothing. */
    method SetDeviceStatus(id: string, inUse: bool) returns (found: bool)
      modifies this
      ensures rows == Applied(old(rows), SetStatus(id, inUse), Draw([], "", "")) && found == Known(old(rows), id)
    {
      found := ValidDeviceId(id) && id in rows;
      if found {
        rows := rows[id := rows[id].(inUse := inUse)];
      }
    }

    method SetDeviceNote(id: string, note: string) returns (found: bool)
      requires ValidLabel(note)
      modifies this
      ensures rows == Applied(old(rows), Relabel(id, note), Draw([], "", "")) && found == Known(old(rows), id)
    {
      found := ValidDeviceId(id) && id in rows;
      if found {
        rows := rows[id := rows[id].(note := note)];
      }
    }

    /** handle_request for everything but LIST, which HandleList prints. */
    method HandleRequest(line: string, draw: Draw) returns (reply: string)
      requires Fair(draw) && CommandOf(line) != List
      modifies this
      ensures rows == Applied(old(rows), CommandOf(line), draw) && reply == Answered(old(rows), CommandOf(line), draw)
    {
      match CommandOf(line)
      case Add(note) => reply := HandleAdd(note, draw);
      case SetStatus(id, inUse) =>
        var found := SetDeviceStatus(id, inUse);
        reply := if found then "OK\n" else "NO\n";
      case Relabel(id, note) =>
        if !ValidLabel(note) {
          return "ERR\n";
        }
        var found := SetDeviceNote(id, note);
        reply := if found then "OK\n" else "NO\n";
      case _ => reply := "ERR\n";
    }
  }

  // ---- Over whole runs ---------------------------------------------------------------------

  lemma {:induction false} FirstFreeIsFree(rows: map<string, Row>, ids: seq<string>)
    ensures match FirstFree(rows, ids)
            case Some(id) => id in ids && id !in rows
            case None => forall id :: id in ids ==> id in rows
  {
    if ids != [] {
      FirstFreeIsFree(rows, ids[1..]);
    }
  }

  function Run(rows: map<string, Row>, requests: seq<(string, Draw)>): map<string, Row>
    decreases |requests|
  {
    if requests == [] then rows
    else Run(Applied(rows, CommandOf(requests[0].0), requests[0].1), requests[1..])
  }

  lemma StepIsSound(rows: map<string, Row>, command: Command, draw: Draw)
    requires Sound(rows) && Fair(draw)
    ensures Sound(Applied(rows, command, draw))
    ensures forall id :: id in rows ==> id in Applied(rows, command, draw) && Applied(rows, command, draw)[id].key == rows[id].key
  {
    var after := Applied(rows, command, draw);
    match command
    case Add(note) =>
      FirstFreeIsFree(rows, draw.ids);
      forall id | id in after ensures Listable(Listed(after, id)) {
        if id in rows {
          assert Listable(Listed(rows, id)) && Listed(after, id) == Listed(rows, id);
        } else {
          SameIds(id);
        }
      }
    case _ =>
      forall id | id in after ensures Listable(Listed(after, id)) {
        assert Listable(Listed(rows, id));
      }
  }

  /**
   Whatever lines arrive, every device stays, keeps its key, and can be listed: the keystore
   never comes to hold a row that the web tier's parser would choke on.
   */
  lemma {:induction false} RunIsSound(rows: map<string, Row>, requests: seq<(string, Draw)>)
    requires Sound(rows) && forall r :: r in requests ==> Fair(r.1)
    ensures Sound(Run(rows, requests))
    ensures forall id :: id in rows ==> id in Run(rows, requests) && Run(rows, requests)[id].key == rows[id].key
    decreases |requests|
  {
    if requests != [] {
      assert requests[0] in requests;
      StepIsSound(rows, CommandOf(requests[0].0), requests[0].1);
      RunIsSound(Applied(rows, CommandOf(requests[0].0), requests[0].1), requests[1..]);
    }
  }

  // ---- The web tier's requests ------------------------------------------------------------------

  /** The commands the client is willing to send. */
  predicate Sendable(command: Command) {
    match command
    case List => true
    case Add(note) => NormalizeLabel(note) == Some(note)
    case SetStatus(id, _) => IsValidId(id)
    case Relabel(id, note) => IsValidId(id) && NormalizeLabel(note) == Some(note)
    case Malformed => false
  }

  function Request(command: Command): string
    requires Sendable(command)
  {
    match command
    case List => "LIST"
    case Add(note) => "ADD" + (" " + note)
    case SetStatus(id, inUse) => (if inUse then "ACTIVATE" else "REVOKE") + (" " + id)
    case Relabel(id, note) => "LABEL" + (" " + (id + (" " + note)))
  }

  lemma WordAndRest(word: string, rest: string)
    requires ' ' !in word
    ensures var line := word + (" " + rest);
            IndexOf(line, ' ') == |word| < |line| && line[..|word|] == word && line[|word| + 1..] == rest
  {
    IndexOfAfter(word, " " + rest, ' ');
  }

  lemma AddIsAdd(note: string)
    ensures CommandOf("ADD" + (" " + note)) == Add(note)
  {
    WordAndRest("ADD", note);
    assert "ADD"[0] == 'A' != "LIST"[0];
  }

  lemma StatusIsStatus(id: string, inUse: bool)
    requires id != ""
    ensures CommandOf((if inUse then "ACTIVATE" else "REVOKE") + (" " + id)) == SetStatus(id, inUse)
  {
    var word := if inUse then "ACTIVATE" else "REVOKE";
    WordAndRest(word, id);
    assert |word| > 5 && "LIST"[0] == 'L' && "REVOKE"[0] == 'R' && "ACTIVATE"[0] == 'A';
  }

  lemma RelabelIsRelabel(id: string, note: string)
    requires ' ' !in id
    ensures CommandOf("LABEL" + (" " + (id + (" " + note)))) == Relabel(id, note)
  {
    WordAndRest("LABEL", id + (" " + note));
    CutAt(id, note);
    assert "LABEL"[0] == 'L' && "ADD"[0] == 'A' && "REVOKE"[0] == 'R' && "ACTIVATE"[0] == 'A' && |"LIST"| == 4;
  }

  /** What the daemon makes of a request is the command the web tier meant, blanks in labels and all. */
  lemma RequestIsCommand(command: Command)
    requires Sendable(command)
    ensures CommandOf(Request(command)) == command
  {
    match command
    case List => assert IndexOf("LIST", ' ') == 4 && "LIST"[..4] == "LIST";
    case Add(note) => AddIsAdd(note);
    case SetStatus(id, inUse) => StatusIsStatus(id, inUse);
    case Relabel(id, note) => RelabelIsRelabel(id, note);
  }

  lemma Spaced(word: string, rest: string)
    ensures word + (" " + rest) == word + " " + rest
  {
  }

  /** The request line, word by word. */
  lemma RequestText(command: Command)
    requires Sendable(command)
    ensures Request(command) ==
            match command
            case List => "LIST"
            case Add(note) => "ADD " + note
            case SetStatus(id, inUse) => if inUse then "ACTIVATE " + id else "REVOKE " + id
            case Relabel(id, note) => "LABEL " + id + " " + note
  {
    match command
    case List =>
    case Add(note) => Spaced("ADD", note);
    case SetStatus(id, inUse) => Spaced("ACTIVATE", id); Spaced("REVOKE", id);
    case Relabel(id, note) => Spaced("LABEL", id + (" " + note)); Spaced("LABEL " + id, note); Grouped("LABEL ", id, " " + note);
  }

  lemma Grouped(a: string, b: string, c: string)
    ensures a + (b + c) == a + b + c
  {
  }

  lemma PrintableRequest(command: Command)
    requires Sendable(command)
    ensures Printable(Request(command)) && |Request(command)| <= MAX_REQUEST
  {
    match command
    case List =>
    case Add(note) => SentLabel(note); PrintableConcat(" ", note); PrintableConcat("ADD", " " + note);
    case SetStatus(id, inUse) => PrintableConcat(" ", id); PrintableConcat(if inUse then "ACTIVATE" else "REVOKE", " " + id);
    case Relabel(id, note) =>
      SentLabel(note);
      PrintableConcat(" ", note);
      PrintableConcat(id, " " + note);
      PrintableConcat(" ", id + (" " + note));
      PrintableConcat("LABEL", " " + (id + (" " + note)));
  }

  /** Every request fits the daemon's buffer and is read as one line. */
  lemma RequestFits(command: Command)
    requires Sendable(command)
    ensures FirstLine(Request(command) + "\n", 128) == Some(Request(command))
  {
    var line := Request(command);
    PrintableRequest(command);
    EndsAt(line);
    assert (line + "\n")[..|line|] == line;
  }

  // ---- The web tier's reading of the answers -------------------------------------------------------

  datatype OkNo = Ok | No | Failed

  function ParseOkNo(reply: string): OkNo {
    if reply == "OK\n" then Ok else if reply == "NO\n" then No else Failed
  }

  /** ^OK ([0-9A-HJKMNP-TV-Z]{4,8}) ([0-9a-f]{128})\n$ */
  function ParseAdded(reply: string): Option<(string, string)> {
    if !("OK " <= reply) || reply[|reply| - 1] != '\n' then None
    else match Cut(reply[3..|reply| - 1])
      case None => None
      case Some((id, key)) =>
        if IsValidId(id) && |key| == KEY_HEX_LEN && forall i :: 0 <= i < |key| ==> HexChar(key[i])
        then Some((id, key))
        else None
  }

  lemma AddedReadsBack(id: string, key: string)
    requires ValidDeviceId(id) && |key| == KEY_HEX_LEN && forall i :: 0 <= i < |key| ==> HexChar(key[i])
    ensures ParseAdded("OK " + id + " " + key + "\n") == Some((id, key))
  {
    var reply := "OK " + id + " " + key + "\n";
    SameIds(id);
    CutAt(id, key);
    assert reply[3..|reply| - 1] == id + (" " + key);
  }

  /** add(): the ID and key it reports are exactly the one row the keystore gained, and a failure gained none. */
  lemma AddEndToEnd(rows: map<string, Row>, note: string, draw: Draw)
    requires NormalizeLabel(note) == Some(note) && Fair(draw)
    ensures var command := CommandOf(Request(Add(note)));
            var after := Applied(rows, command, draw);
            match ParseAdded(Answered(rows, command, draw))
            case Some((id, key)) => id !in rows && after == rows[id := Row(key, true, draw.now, note)]
            case None => after == rows && forall id :: id in draw.ids ==> id in rows
  {
    RequestIsCommand(Add(note));
    SentLabel(note);
    FirstFreeIsFree(rows, draw.ids);
    var id := FirstFree(rows, draw.ids);
    if id.Some? {
      AddedReadsBack(id.value, draw.key);
    }
  }

  predicate OnlyChanged(rows: map<string, Row>, after: map<string, Row>, id: string, row: Row) {
    after.Keys == rows.Keys && id in after && after[id] == row &&
    forall other :: other in rows && other != id ==> after[other] == rows[other]
  }

  function ChangedRow(row: Row, command: Command): Row
    requires command.SetStatus? || command.Relabel?
  {
    if command.SetStatus? then row.(inUse := command.inUse) else row.(note := command.note)
  }

  lemma ChangeApplied(rows: map<string, Row>, command: Command, draw: Draw)
    requires command.SetStatus? || command.Relabel?
    requires ValidDeviceId(command.id) && (command.Relabel? ==> ValidLabel(command.note))
    ensures var after, answer := Applied(rows, command, draw), ParseOkNo(Answered(rows, command, draw));
            answer == (if command.id in rows then Ok else No) &&
            (answer == No ==> after == rows) &&
            (answer == Ok ==> OnlyChanged(rows, after, command.id, ChangedRow(rows[command.id], command)))
  {
    hide ValidLabel;
  }

  /** revoke(), activate() and relabel(): "ok" exactly when the device exists, and then only its own field changes. */
  lemma ChangeEndToEnd(rows: map<string, Row>, command: Command, draw: Draw)
    requires Sendable(command) && (command.SetStatus? || command.Relabel?)
    ensures var after := Applied(rows, CommandOf(Request(command)), draw);
            var answer := ParseOkNo(Answered(rows, CommandOf(Request(command)), draw));
            answer == (if command.id in rows then Ok else No) &&
            (answer == No ==> after == rows) &&
            (answer == Ok ==> OnlyChanged(rows, after, command.id, ChangedRow(rows[command.id], command)))
  {
    RequestIsCommand(command);
    SameIds(command.id);
    if command.Relabel? { SentLabel(command.note); }
    hide CommandOf, Request, NormalizeLabel, ValidLabel, Applied, Answered, ValidDeviceId, IsValidId;
    ChangeApplied(rows, command, draw);
  }

  // ---- One exchange over the socket ------------------------------------------------------------

  lemma AnswerIsPlain(rows: map<string, Row>, command: Command, draw: Draw)
    requires Fair(draw)
    ensures 'I' !in Answered(rows, command, draw) && |Answered(rows, command, draw)| <= MAX_REPLY
  {
    if command.Add? {
      FirstFreeIsFree(rows, draw.ids);
      var id := FirstFree(rows, draw.ids);
      if id.Some? {
        assert ValidDeviceId(id.value) && 'I' !in id.value && 'I' !in draw.key;
      }
    }
  }

  /** A request of the client's, the daemon's answer with its dates joined, and what the client has at the end of it. */
  method Exchange(daemon: AdminDaemon, command: Command, draw: Draw, cut: string -> seq<string>) returns (reply: Option<string>)
    requires Sendable(command) && command != List && Fair(draw) && forall text :: Flat(cut(text)) == text
    modifies daemon
    ensures daemon.rows == Applied(old(daemon.rows), command, draw)
    ensures reply == Some(Answered(old(daemon.rows), command, draw))
  {
    hide Applied, Answered, Request, CommandOf, FirstLine, PatchFrom, Sendable;
    RequestFits(command);
    RequestIsCommand(command);
    var socket := new Socket(cut(Request(command) + "\n"));
    var line := ReadLine(socket, MAX_REQUEST);
    assert line == Some(Request(command));
    ghost var rows := daemon.rows;
    var answer := daemon.HandleRequest(line.value, draw);
    AnswerIsPlain(rows, command, draw);
    NothingToPatch(answer, 0);
    var patched := SingleTokenDates(answer);
    reply := AskAll(cut(patched));
  }

  /** add(): the ID and key the client gets are the one row the keystore gained; without them it gained none. */
  method AddDevice(daemon: AdminDaemon, note: string, draw: Draw, cut: string -> seq<string>) returns (added: Option<(string, string)>)
    requires Fair(draw) && forall text :: Flat(cut(text)) == text
    modifies daemon
    ensures match added
            case Some((id, key)) =>
              id !in old(daemon.rows) && daemon.rows == old(daemon.rows)[id := Row(key, true, draw.now, note)]
            case None => daemon.rows == old(daemon.rows)
    ensures added == None <==> NormalizeLabel(note) != Some(note) || forall id :: id in draw.ids ==> id in old(daemon.rows)
  {
    if NormalizeLabel(note) != Some(note) {
      return None;
    }
    AddEndToEnd(daemon.rows, note, draw);
    RequestIsCommand(Add(note));
    ghost var rows := daemon.rows;
    FirstFreeIsFree(rows, draw.ids);
    NormalizedLabelIsStable(note);
    var reply := Exchange(daemon, Add(note), draw, cut);
    added := ParseAdded(reply.value);
  }

  /** revoke(), activate() and relabel(); what the client is not willing to send it answers with no. */
  method ChangeDevice(daemon: AdminDaemon, command: Command, draw: Draw, cut: string -> seq<string>) returns (answer: OkNo)
    requires (command.SetStatus? || command.Relabel?) && Fair(draw) && forall text :: Flat(cut(text)) == text
    modifies daemon
    ensures answer == if Sendable(command) && command.id in old(daemon.rows) then Ok else No
    ensures answer == No ==> daemon.rows == old(daemon.rows)
    ensures answer == Ok ==>
              OnlyChanged(old(daemon.rows), daemon.rows, command.id, ChangedRow(old(daemon.rows)[command.id], command))
  {
    if !Sendable(command) {
      return No;
    }
    ChangeEndToEnd(daemon.rows, command, draw);
    RequestIsCommand(command);
    var reply := Exchange(daemon, command, draw, cut);
    answer := ParseOkNo(reply.value);
  }
}
