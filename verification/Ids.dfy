/** Device IDs and codes: Crockford Base32 without I, L, O and U. */
module Ids {
  import opened Numerals

  const DEVICE_ID_MIN: nat := 4
  const DEVICE_ID_MAX: nat := 8

  predicate CrockfordChar(c: char) {
    if '0' <= c <= '9' then true
    else if c < 'A' || c > 'Z' then false
    else c != 'I' && c != 'L' && c != 'O' && c != 'U'
  }

  /** The keystore's check. */
  predicate ValidDeviceId(id: string) {
    DEVICE_ID_MIN <= |id| <= DEVICE_ID_MAX && forall i :: 0 <= i < |id| ==> CrockfordChar(id[i])
  }

  /** The web tier's check: [0-9A-HJKMNP-TV-Z]{4,8}. */
  predicate IdClass(c: char) {
    '0' <= c <= '9' || 'A' <= c <= 'H' || c == 'J' || c == 'K' || c == 'M' || c == 'N' ||
    'P' <= c <= 'T' || 'V' <= c <= 'Z'
  }

  predicate IsValidId(id: string) {
    4 <= |id| <= 8 && forall i :: 0 <= i < |id| ==> IdClass(id[i])
  }

  predicate IsValidCode(code: string) {
    |code| == 8 && AllDigits(code)
  }

  // ---- Normalisation -----------------------------------------------------------

  predicate IsSpace(c: char) {
    c == ' ' || '\t' <= c <= '\r'
  }

  predicate IsSeparator(c: char) {
    IsSpace(c) || c == '-'
  }

  function Trim(s: string): string {
    if s != "" && IsSpace(s[0]) then Trim(s[1..])
    else if s != "" && IsSpace(s[|s| - 1]) then Trim(s[..|s| - 1])
    else s
  }

  function Upper(c: char): char {
    if 'a' <= c <= 'z' then (c as int - 32) as char else c
  }

  function ToUpperCase(s: string): (r: string)
    ensures |r| == |s|
  {
    seq(|s|, i requires 0 <= i < |s| => Upper(s[i]))
  }

  function DropSeparators(s: string): string {
    if s == "" then ""
    else (if IsSeparator(s[0]) then "" else [s[0]]) + DropSeparators(s[1..])
  }

  function Replace(s: string, from: set<char>, to: char): (r: string)
    ensures |r| == |s|
  {
    seq(|s|, i requires 0 <= i < |s| => if s[i] in from then to else s[i])
  }

  function NormalizeId(raw: string): string {
    Replace(Replace(DropSeparators(ToUpperCase(Trim(raw))), {'O'}, '0'), {'I', 'L'}, '1')
  }

  function NormalizeCode(raw: string): string {
    DropSeparators(raw)
  }

  /** What one typed character stands for. */
  function Reading(c: char): char {
    var u := Upper(c);
    if u == 'O' then '0' else if u == 'I' || u == 'L' then '1' else u
  }

  /** The five passes in one: every separator dropped, every other character read on its own. */
  function Read(raw: string): string {
    if raw == "" then "" else ReadChar(raw[0]) + Read(raw[1..])
  }

  function ReadChar(c: char): string {
    if IsSeparator(c) then "" else [Reading(c)]
  }

  lemma Regroup(a: string, b: string, c: string)
    ensures a + (b + c) == a + b + c
  {
  }

  lemma {:induction false} ReadConcat(a: string, b: string)
    ensures Read(a + b) == Read(a) + Read(b)
  {
    if a == "" {
      assert a + b == b;
    } else {
      ReadConcat(a[1..], b);
      assert (a + b)[1..] == a[1..] + b;
      Regroup(ReadChar(a[0]), Read(a[1..]), Read(b));
    }
  }

  lemma {:induction false} ReadTrim(raw: string)
    ensures Read(Trim(raw)) == Read(raw)
    decreases |raw|
  {
    if raw != "" && IsSpace(raw[0]) {
      ReadTrim(raw[1..]);
    } else if raw != "" && IsSpace(raw[|raw| - 1]) {
      var front := raw[..|raw| - 1];
      ReadTrim(front);
      assert raw == front + [raw[|raw| - 1]];
      ReadConcat(front, [raw[|raw| - 1]]);
    }
  }

  lemma ReplaceConcat(a: string, b: string, from: set<char>, to: char)
    ensures Replace(a + b, from, to) == Replace(a, from, to) + Replace(b, from, to)
  {
  }

  lemma {:induction false} PassesAreRead(s: string)
    ensures Replace(Replace(DropSeparators(ToUpperCase(s)), {'O'}, '0'), {'I', 'L'}, '1') == Read(s)
  {
    if s != "" {
      PassesAreRead(s[1..]);
      assert ToUpperCase(s)[1..] == ToUpperCase(s[1..]);
      var rest := DropSeparators(ToUpperCase(s[1..]));
      var head := if IsSeparator(s[0]) then "" else [Upper(s[0])];
      assert DropSeparators(ToUpperCase(s)) == head + rest;
      ReplaceConcat(head, rest, {'O'}, '0');
      ReplaceConcat(Replace(head, {'O'}, '0'), Replace(rest, {'O'}, '0'), {'I', 'L'}, '1');
      assert Replace(Replace(head, {'O'}, '0'), {'I', 'L'}, '1') == ReadChar(s[0]);
    }
  }

  /** Case, grouping and the look-alikes O, I and L never decide which device is meant. */
  lemma NormalizeIdReads(raw: string)
    ensures NormalizeId(raw) == Read(raw)
  {
    PassesAreRead(Trim(raw));
    ReadTrim(raw);
  }

  lemma {:induction false} ValidIdUnchanged(id: string)
    requires forall i :: 0 <= i < |id| ==> CrockfordChar(id[i])
    ensures NormalizeId(id) == id
  {
    NormalizeIdReads(id);
    ReadKeepsValid(id);
  }

  lemma {:induction false} ReadKeepsValid(id: string)
    requires forall i :: 0 <= i < |id| ==> CrockfordChar(id[i])
    ensures Read(id) == id
  {
    if id != "" {
      ReadKeepsValid(id[1..]);
      assert id == [id[0]] + id[1..];
    }
  }

  lemma {:induction false} ValidCodeUnchanged(code: string)
    requires AllDigits(code)
    ensures NormalizeCode(code) == code
  {
    if code != "" {
      ValidCodeUnchanged(code[1..]);
      assert code == [code[0]] + code[1..];
    }
  }

  /** The two tiers accept the same IDs. */
  lemma SameIds(id: string)
    ensures IsValidId(id) <==> ValidDeviceId(id)
  {
    assert forall c :: CrockfordChar(c) <==> IdClass(c);
  }

  // ---- What normalising does, character by character ------------------------------------------

  lemma {:induction false} DropConcat(a: string, b: string)
    ensures DropSeparators(a + b) == DropSeparators(a) + DropSeparators(b)
  {
    if a == "" {
      assert a + b == b;
    } else {
      DropConcat(a[1..], b);
      assert (a + b)[1..] == a[1..] + b;
      Regroup(if IsSeparator(a[0]) then "" else [a[0]], DropSeparators(a[1..]), DropSeparators(b));
    }
  }

  /** A code is what is typed without its blanks and hyphens, wherever they are. */
  lemma CodeLetterByLetter(before: string, c: char, after: string)
    ensures NormalizeCode(before + [c] + after) ==
            NormalizeCode(before) + (if c in " \t\n\r-" || c as int == 11 || c as int == 12 then "" else [c]) + NormalizeCode(after)
    ensures NormalizeCode("") == ""
  {
    DropConcat(before + [c], after);
    DropConcat(before, [c]);
    assert [c][1..] == "";
  }

  /** An ID is read likewise: capitals for small letters, 0 for an O and 1 for an I or an L. */
  lemma IdLetterByLetter(before: string, c: char, after: string)
    ensures var letter := if c in " \t\n\r-" || c as int == 11 || c as int == 12 then ""
                          else if c in "oO" then "0" else if c in "iIlL" then "1"
                          else if 'a' <= c <= 'z' then [(c as int - 32) as char] else [c];
            NormalizeId(before + [c] + after) == NormalizeId(before) + letter + NormalizeId(after)
    ensures NormalizeId("") == ""
  {
    NormalizeIdReads(before + [c] + after);
    NormalizeIdReads(before);
    NormalizeIdReads(after);
    ReadConcat(before + [c], after);
    ReadConcat(before, [c]);
    assert [c][1..] == "" && Read([c]) == ReadChar(c);
    LettersRead(c);
    hide NormalizeId, Read;
  }

  lemma LettersRead(c: char)
    ensures ReadChar(c) ==
            if c in " \t\n\r-" || c as int == 11 || c as int == 12 then ""
            else if c in "oO" then "0" else if c in "iIlL" then "1"
            else if 'a' <= c <= 'z' then [(c as int - 32) as char] else [c]
  {
  }
}
