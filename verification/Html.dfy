/** Escaping text for HTML: five replacements, one after another. */
module Html {

  function ReplaceAll(s: string, c: char, text: string): string {
    if s == "" then "" else (if s[0] == c then text else [s[0]]) + ReplaceAll(s[1..], c, text)
  }

  function EscapeHtml(s: string): string {
    ReplaceAll(ReplaceAll(ReplaceAll(ReplaceAll(ReplaceAll(s, '&', "&amp;"), '<', "&lt;"), '>', "&gt;"), '"', "&quot;"), '\'', "&#39;")
  }

  function Entity(c: char): string {
    if c == '&' then "&amp;" else if c == '<' then "&lt;" else if c == '>' then "&gt;"
    else if c == '"' then "&quot;" else if c == '\'' then "&#39;" else [c]
  }

  /** One pass: each character stands for itself or its entity. */
  function Escaped(s: string): string {
    if s == "" then "" else Entity(s[0]) + Escaped(s[1..])
  }

  lemma {:induction false} ReplaceConcat(a: string, b: string, c: char, text: string)
    ensures ReplaceAll(a + b, c, text) == ReplaceAll(a, c, text) + ReplaceAll(b, c, text)
  {
    if a == "" {
      assert a + b == b;
    } else {
      ReplaceConcat(a[1..], b, c, text);
      assert (a + b)[1..] == a[1..] + b;
      var head, ra, rb := if a[0] == c then text else [a[0]], ReplaceAll(a[1..], c, text), ReplaceAll(b, c, text);
      assert head + (ra + rb) == head + ra + rb;
    }
  }

  lemma {:induction false} ReplaceNothing(s: string, c: char, text: string)
    requires c !in s
    ensures ReplaceAll(s, c, text) == s
  {
    if s != "" {
      ReplaceNothing(s[1..], c, text);
      assert s == [s[0]] + s[1..];
    }
  }

  lemma EscapeConcat(a: string, b: string)
    ensures EscapeHtml(a + b) == EscapeHtml(a) + EscapeHtml(b)
  {
    ReplaceConcat(a, b, '&', "&amp;");
    var a1, b1 := ReplaceAll(a, '&', "&amp;"), ReplaceAll(b, '&', "&amp;");
    ReplaceConcat(a1, b1, '<', "&lt;");
    var a2, b2 := ReplaceAll(a1, '<', "&lt;"), ReplaceAll(b1, '<', "&lt;");
    ReplaceConcat(a2, b2, '>', "&gt;");
    var a3, b3 := ReplaceAll(a2, '>', "&gt;"), ReplaceAll(b2, '>', "&gt;");
    ReplaceConcat(a3, b3, '"', "&quot;");
    ReplaceConcat(ReplaceAll(a3, '"', "&quot;"), ReplaceAll(b3, '"', "&quot;"), '\'', "&#39;");
  }

  lemma OneReplacement(s: string, c: char, text: string)
    requires s == [c] || c !in s
    ensures ReplaceAll(s, c, text) == if s == [c] then text else s
  {
    if s == [c] {
      assert s[1..] == "" && text + "" == text;
    } else {
      ReplaceNothing(s, c, text);
    }
  }

  predicate Becomes(s: string, c: char, text: string, t: string) {
    if s == [c] then t == text else c !in s && t == s
  }

  lemma Stages(s: string, s1: string, s2: string, s3: string, s4: string, s5: string)
    requires Becomes(s, '&', "&amp;", s1) && Becomes(s1, '<', "&lt;", s2) && Becomes(s2, '>', "&gt;", s3)
    requires Becomes(s3, '"', "&quot;", s4) && Becomes(s4, '\'', "&#39;", s5)
    ensures EscapeHtml(s) == s5
  {
    OneReplacement(s, '&', "&amp;");
    OneReplacement(s1, '<', "&lt;");
    OneReplacement(s2, '>', "&gt;");
    OneReplacement(s3, '"', "&quot;");
    OneReplacement(s4, '\'', "&#39;");
  }

  lemma EscapeOne(c: char)
    ensures EscapeHtml([c]) == Entity(c)
  {
    var s, e := [c], Entity(c);
    if c == '&' { Stages(s, e, e, e, e, e); }
    else if c == '<' { Stages(s, s, e, e, e, e); }
    else if c == '>' { Stages(s, s, s, e, e, e); }
    else if c == '"' { Stages(s, s, s, s, e, e); }
    else if c == '\'' { Stages(s, s, s, s, s, e); }
    else { Stages(s, s, s, s, s, s); }
  }

  /** The five replacements never touch each other's output. */
  lemma {:induction false} EscapeIsOnePass(s: string)
    ensures EscapeHtml(s) == Escaped(s)
  {
    if s != "" {
      EscapeIsOnePass(s[1..]);
      assert s == [s[0]] + s[1..];
      EscapeConcat([s[0]], s[1..]);
      EscapeOne(s[0]);
    }
  }

  function Unescape(s: string): string {
    if s == "" then ""
    else if "&amp;" <= s then "&" + Unescape(s[5..])
    else if "&lt;" <= s then "<" + Unescape(s[4..])
    else if "&gt;" <= s then ">" + Unescape(s[4..])
    else if "&quot;" <= s then "\"" + Unescape(s[6..])
    else if "&#39;" <= s then "'" + Unescape(s[5..])
    else [s[0]] + Unescape(s[1..])
  }

  lemma UnescapeEntity(c: char, rest: string)
    ensures Unescape(Entity(c) + rest) == [c] + Unescape(rest)
  {
    var s := Entity(c) + rest;
    assert s[|Entity(c)|..] == rest;
    if c == '&' { assert s[..5] == "&amp;"; }
    else if c == '<' { assert s[..4] == "&lt;" && s[1] == 'l'; }
    else if c == '>' { assert s[..4] == "&gt;" && s[1] == 'g'; }
    else if c == '"' { assert s[..6] == "&quot;" && s[1] == 'q'; }
    else if c == '\'' { assert s[..5] == "&#39;" && s[1] == '#'; }
    else { assert s[0] == c; }
  }

  lemma EntityIsSafe(c: char)
    ensures '<' !in Entity(c) && '>' !in Entity(c) && '"' !in Entity(c) && '\'' !in Entity(c)
  {
  }

  lemma {:induction false} OnePassIsSafe(s: string)
    ensures '<' !in Escaped(s) && '>' !in Escaped(s) && '"' !in Escaped(s) && '\'' !in Escaped(s)
  {
    if s != "" {
      EntityIsSafe(s[0]);
      OnePassIsSafe(s[1..]);
    }
  }

  lemma {:induction false} OnePassUnescapes(s: string)
    ensures Unescape(Escaped(s)) == s
  {
    if s != "" {
      OnePassUnescapes(s[1..]);
      UnescapeEntity(s[0], Escaped(s[1..]));
      assert s == [s[0]] + s[1..];
    }
  }

  /** Nothing that could open a tag or close an attribute survives, and no text is lost. */
  lemma EscapedIsSafe(s: string)
    ensures '<' !in EscapeHtml(s) && '>' !in EscapeHtml(s) && '"' !in EscapeHtml(s) && '\'' !in EscapeHtml(s)
    ensures Unescape(EscapeHtml(s)) == s
  {
    EscapeIsOnePass(s);
    OnePassIsSafe(s);
    OnePassUnescapes(s);
  }
}
