/** Decimal numerals as the daemons print them and the web tier reads them back. */
module Numerals {

  datatype Option<+T> = None | Some(value: T)

  predicate IsDigit(c: char) {
    '0' <= c <= '9'
  }

  predicate AllDigits(s: string) {
    forall i :: 0 <= i < |s| ==> IsDigit(s[i])
  }

  function Digit(d: nat): char
    requires d < 10
  {
    ('0' as int + d) as char
  }

  function Pow10(k: nat): (p: nat)
    ensures p > 0
  {
    if k == 0 then 1 else 10 * Pow10(k - 1)
  }

  function Print(n: nat): string {
    if n < 10 then [Digit(n)] else Print(n / 10) + [Digit(n % 10)]
  }

  /** The value of a digit string; leading zeros are allowed and "" is 0. */
  function Parse(s: string): nat
    requires AllDigits(s)
  {
    if s == "" then 0 else Parse(s[..|s| - 1]) * 10 + (s[|s| - 1] as int - '0' as int)
  }

  lemma {:induction false} ParsePrint(n: nat)
    ensures Print(n) != "" && AllDigits(Print(n)) && Parse(Print(n)) == n
  {
    if n >= 10 {
      ParsePrint(n / 10);
      assert Print(n)[..|Print(n)| - 1] == Print(n / 10);
    } else {
      assert Print(n)[..0] == "";
    }
  }

  /** A numeral is at most k characters long exactly when its value is below 10^k. */
  lemma {:induction false} PrintLength(n: nat, k: nat)
    requires k > 0
    ensures |Print(n)| <= k <==> n < Pow10(k)
  {
    if k == 1 {
      ParsePrint(n / 10);
      assert Pow10(1) == 10 * Pow10(0);
    } else if n >= 10 {
      PrintLength(n / 10, k - 1);
    } else {
      assert Pow10(k) >= 10 by { assert Pow10(k) == 10 * Pow10(k - 1); }
    }
  }

  function Zeros(n: nat): (z: string)
    ensures |z| == n && forall i :: 0 <= i < n ==> z[i] == '0'
  {
    seq(n, i => '0')
  }

  /** Zero-padding to a width: std::setw never cuts a longer numeral. */
  function Padded(n: nat, width: nat): string {
    var s := Print(n);
    if |s| < width then Zeros(width - |s|) + s else s
  }

  lemma {:induction false} ParseZeros(z: nat, s: string)
    requires AllDigits(s)
    ensures AllDigits(Zeros(z) + s) && Parse(Zeros(z) + s) == Parse(s)
  {
    var t := Zeros(z) + s;
    if s == "" {
      if z > 0 {
        ParseZeros(z - 1, s);
        assert t[..|t| - 1] == Zeros(z - 1) + s;
      } else {
        assert t == s;
      }
    } else {
      ParseZeros(z, s[..|s| - 1]);
      assert t[..|t| - 1] == Zeros(z) + s[..|s| - 1];
    }
  }

  /** Padding is undone by reading, and values that fit give exactly `width` digits. */
  lemma PaddedRoundTrip(n: nat, width: nat)
    requires width > 0 && n < Pow10(width)
    ensures |Padded(n, width)| == width && AllDigits(Padded(n, width)) && Parse(Padded(n, width)) == n
  {
    ParsePrint(n);
    PrintLength(n, width);
    ParseZeros(width - |Print(n)|, Print(n));
  }
}
