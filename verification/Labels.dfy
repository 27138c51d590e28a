/** The labels of devices: what a person types, what the client sends and what the daemon takes. */
module Labels {
  import opened Numerals
  import opened Ids

  const MAX_LABEL: nat := 64

  /** The daemon's check. */
  predicate ValidLabel(s: string) {
    s != "" && |s| <= MAX_LABEL && forall i :: 0 <= i < |s| ==> !RefusedChar(s[i])
  }

  predicate RefusedChar(c: char) {
    c as int < 0x20 || c as int > 0x7E || c == '"' || c == '\\'
  }

  /** The client's: [\x20-\x7E]{1,64}, and neither a quote nor a backslash. */
  predicate LabelAccepted(s: string) {
    1 <= |s| <= 64 && (forall c :: c in s ==> ' ' <= c <= '~') && !('"' in s || '\\' in s)
  }

  /** Every run of white space becomes one blank. */
  function Collapse(s: string): string {
    if s == "" then ""
    else if !IsSpace(s[0]) then [s[0]] + Collapse(s[1..])
    else if |s| > 1 && IsSpace(s[1]) then Collapse(s[1..])
    else " " + Collapse(s[1..])
  }

  function NormalizeLabel(raw: string): Option<string> {
    var tidy := Collapse(Trim(raw));
    if LabelAccepted(tidy) then Some(tidy) else None
  }

  /** The two tiers accept the same labels. */
  lemma SameLabels(s: string)
    ensures LabelAccepted(s) <==> ValidLabel(s)
  {
    if ValidLabel(s) {
      forall c | c in s ensures ' ' <= c <= '~' && c != '"' && c != '\\' {
        var i :| 0 <= i < |s| && s[i] == c;
        assert !RefusedChar(s[i]);
      }
    } else if 1 <= |s| <= 64 {
      var i :| 0 <= i < |s| && RefusedChar(s[i]);
      assert s[i] in s;
    }
  }

  /** What the client sends as it stands, the daemon takes. */
  lemma SentLabel(note: string)
    requires NormalizeLabel(note) == Some(note)
    ensures ValidLabel(note) && forall i :: 0 <= i < |note| ==> ' ' <= note[i] <= '~'
  {
    SameLabels(note);
  }

  // ---- A label is its words --------------------------------------------------------------

  function Lead(s: string): (r: string)
    ensures |r| <= |s| && (r != "" ==> !IsSpace(r[0]) && r[|r| - 1] == s[|s| - 1])
  {
    if s != "" && IsSpace(s[0]) then Lead(s[1..]) else s
  }

  function WordEnd(s: string): (n: nat)
    ensures n <= |s| && (s != "" && !IsSpace(s[0]) ==> n > 0)
    ensures (forall i :: 0 <= i < n ==> !IsSpace(s[i])) && (n < |s| ==> IsSpace(s[n]))
  {
    if s == "" || IsSpace(s[0]) then 0 else 1 + WordEnd(s[1..])
  }

  /** The pieces between white space. */
  function Words(s: string): seq<string>
    decreases |s|
  {
    var t := Lead(s);
    if t == "" then [] else [t[..WordEnd(t)]] + Words(t[WordEnd(t)..])
  }

  function Joined(words: seq<string>): string {
    if words == [] then "" else if |words| == 1 then words[0] else words[0] + " " + Joined(words[1..])
  }

  lemma {:induction false} CollapseWord(word: string, rest: string)
    requires forall i :: 0 <= i < |word| ==> !IsSpace(word[i])
    ensures Collapse(word + rest) == word + Collapse(rest)
  {
    if word == "" {
      assert word + rest == rest;
    } else {
      assert (word + rest)[1..] == word[1..] + rest;
      CollapseWord(word[1..], rest);
      assert [word[0]] + (word[1..] + Collapse(rest)) == word + Collapse(rest);
    }
  }

  lemma {:induction false} CollapseGap(s: string)
    requires s != "" && IsSpace(s[0]) && !IsSpace(s[|s| - 1])
    ensures Lead(s) != "" && Collapse(s) == " " + Collapse(Lead(s))
  {
    assert s[1..] != "";
    if IsSpace(s[1]) {
      CollapseGap(s[1..]);
    }
  }

  lemma {:induction false} CollapseIsWords(s: string)
    requires Bare(s)
    ensures Collapse(s) == Joined(Words(s))
    decreases |s|
  {
    if s != "" {
      var n := WordEnd(s);
      var word, rest := s[..n], s[n..];
      assert s == word + rest && Lead(s) == s;
      CollapseWord(word, rest);
      if rest == "" {
        assert Words(rest) == [] && Words(s) == [word];
        assert word + Collapse(rest) == word;
      } else {
        CollapseGap(rest);
        CollapseIsWords(Lead(rest));
        LeadIsLead(rest);
        assert Words(s) == [word] + Words(rest) && Words(rest) != [];
        assert ([word] + Words(rest))[1..] == Words(rest);
        assert word + (" " + Collapse(Lead(rest))) == word + " " + Collapse(Lead(rest));
      }
    }
  }

  lemma LeadIsLead(s: string)
    ensures Lead(Lead(s)) == Lead(s) && Words(Lead(s)) == Words(s)
  {
  }

  lemma {:induction false} LeadTrailing(s: string, c: char)
    requires IsSpace(c)
    ensures Lead(s + [c]) == if Lead(s) == "" then "" else Lead(s) + [c]
  {
    if s == "" {
      assert s + [c] == [c] && [c][1..] == "";
    } else {
      assert (s + [c])[0] == s[0] && (s + [c])[1..] == s[1..] + [c];
      if IsSpace(s[0]) { LeadTrailing(s[1..], c); }
    }
  }

  lemma {:induction false} WordEndTrailing(s: string, c: char)
    requires IsSpace(c)
    ensures WordEnd(s + [c]) == WordEnd(s)
  {
    if s == "" {
      assert s + [c] == [c];
    } else {
      assert (s + [c])[0] == s[0] && (s + [c])[1..] == s[1..] + [c];
      WordEndTrailing(s[1..], c);
    }
  }

  lemma {:induction false} WordsTrailing(s: string, c: char)
    requires IsSpace(c)
    ensures Words(s + [c]) == Words(s)
    decreases |s|
  {
    LeadTrailing(s, c);
    var t := Lead(s);
    if t != "" {
      var n := WordEnd(t);
      WordEndTrailing(t, c);
      WordsTrailing(t[n..], c);
      assert (t + [c])[..n] == t[..n] && (t + [c])[n..] == t[n..] + [c];
    }
  }

  lemma {:induction false} TrimKeepsWords(s: string)
    ensures Words(Trim(s)) == Words(s)
    decreases |s|
  {
    if s != "" && IsSpace(s[0]) {
      TrimKeepsWords(s[1..]);
    } else if s != "" && IsSpace(s[|s| - 1]) {
      var front := s[..|s| - 1];
      TrimKeepsWords(front);
      WordsTrailing(front, s[|s| - 1]);
      assert s == front + [s[|s| - 1]];
    }
  }

  /**
   A label is normalised to its words with single blanks between them, if that is 1 to 64 printable
   characters without quote and backslash.
   */
  lemma NormalizedLabelIsWords(raw: string)
    ensures var text := Joined(Words(raw));
            NormalizeLabel(raw) ==
            if 1 <= |text| <= 64 && forall c :: c in text ==> ' ' <= c <= '~' && c != '"' && c != '\\' then Some(text) else None
  {
    TrimBares(raw);
    CollapseIsWords(Trim(raw));
    TrimKeepsWords(raw);
  }

  // ---- Normalising twice -------------------------------------------------------------------

  predicate Single(s: string) {
    forall i :: 0 <= i < |s| && IsSpace(s[i]) ==> s[i] == ' ' && (i + 1 < |s| ==> !IsSpace(s[i + 1]))
  }

  predicate Bare(s: string) {
    s != "" ==> !IsSpace(s[0]) && !IsSpace(s[|s| - 1])
  }

  lemma {:induction false} CollapseEdges(s: string)
    requires s != ""
    ensures var c := Collapse(s);
            c != "" && (IsSpace(c[0]) <==> IsSpace(s[0])) && (IsSpace(c[|c| - 1]) <==> IsSpace(s[|s| - 1]))
  {
    if |s| > 1 {
      CollapseEdges(s[1..]);
    } else {
      assert s[1..] == "";
    }
  }

  lemma SingleCons(c: char, s: string)
    requires Single(s) && (IsSpace(c) ==> c == ' ' && (s != "" ==> !IsSpace(s[0])))
    ensures Single([c] + s)
  {
  }

  lemma {:induction false} CollapseSingle(s: string)
    ensures Single(Collapse(s))
  {
    if s != "" {
      CollapseSingle(s[1..]);
      if s[1..] != "" {
        CollapseEdges(s[1..]);
      }
      if !(IsSpace(s[0]) && |s| > 1 && IsSpace(s[1])) {
        SingleCons(if IsSpace(s[0]) then ' ' else s[0], Collapse(s[1..]));
      }
    }
  }

  lemma {:induction false} SingleUnchanged(s: string)
    requires Single(s)
    ensures Collapse(s) == s
  {
    if s != "" {
      SingleUnchanged(s[1..]);
      assert s == [s[0]] + s[1..];
    }
  }

  lemma {:induction false} TrimBares(s: string)
    ensures Bare(Trim(s))
    decreases |s|
  {
    if s != "" && IsSpace(s[0]) {
      TrimBares(s[1..]);
    } else if s != "" && IsSpace(s[|s| - 1]) {
      TrimBares(s[..|s| - 1]);
    }
  }

  /** A normalised label passes both tiers, and normalising it again changes nothing. */
  lemma NormalizedLabelIsStable(raw: string)
    requires NormalizeLabel(raw).Some?
    ensures var tidy := NormalizeLabel(raw).value; ValidLabel(tidy) && NormalizeLabel(tidy) == Some(tidy)
  {
    var t := Trim(raw);
    var tidy := Collapse(t);
    SameLabels(tidy);
    TrimBares(raw);
    CollapseSingle(t);
    if t != "" {
      CollapseEdges(t);
    }
    assert Trim(tidy) == tidy;
    SingleUnchanged(tidy);
  }
}
