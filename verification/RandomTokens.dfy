/** Session tokens, device tokens and token ids as functions of their random bytes (RFC 4648, section 5, without padding). */
module RandomTokens {
  import opened Tokens

  type Byte = b: int | 0 <= b < 256

  /** Table 2 of section 5. */
  function Letter(k: nat): (c: char)
    requires k < 64
    ensures Base64UrlChar(c)
  {
    if k < 26 then (65 + k) as char else if k < 52 then (71 + k) as char else if k < 62 then (k - 4) as char
    else if k == 62 then '-' else '_'
  }

  /** Three bytes as four letters. */
  function Four(x: Byte, y: Byte, z: Byte): (s: string)
    ensures |s| == 4 && Base64Url(s)
  {
    [Letter(x / 4), Letter(x % 4 * 16 + y / 16), Letter(y % 16 * 4 + z / 64), Letter(z % 64)]
  }

  function Encode(b: seq<Byte>): string {
    if |b| == 0 then ""
    else if |b| == 1 then Four(b[0], 0, 0)[..2]
    else if |b| == 2 then Four(b[0], b[1], 0)[..3]
    else Four(b[0], b[1], b[2]) + Encode(b[3..])
  }

  function NewToken(random: seq<Byte>): string {
    "xat_" + Encode(random)
  }

  // ---- Shapes -----------------------------------------------------------------------

  lemma {:induction false} EncodeShape(b: seq<Byte>)
    ensures |Encode(b)| == (4 * |b| + 2) / 3 && Base64Url(Encode(b))
  {
    if |b| >= 3 {
      EncodeShape(b[3..]);
    }
  }

  /** What is issued is what the checks on the way in let through. */
  lemma IssuedIsShaped(random: seq<Byte>)
    requires |random| == 32
    ensures TokenShaped(NewToken(random)) && CookieShaped(Encode(random))
  {
    EncodeShape(random);
    assert NewToken(random)[..4] == "xat_" && NewToken(random)[4..] == Encode(random);
  }

  lemma IssuedIdIsShaped(random: seq<Byte>)
    requires |random| == 8
    ensures IdShaped(Encode(random))
  {
    EncodeShape(random);
  }

  // ---- Nothing of the random bytes is lost ----------------------------------------------

  function Rank(c: char): (k: nat)
    ensures k < 64
  {
    if 'A' <= c <= 'Z' then c as int - 65 else if 'a' <= c <= 'z' then c as int - 71
    else if '0' <= c <= '9' then c as int + 4 else if c == '-' then 62 else 63
  }

  lemma RankOfLetter(k: nat)
    requires k < 64
    ensures Rank(Letter(k)) == k
  {
  }

  function Three(s: string): (b: seq<int>)
    requires |s| == 4
    ensures |b| == 3
  {
    [Rank(s[0]) * 4 + Rank(s[1]) / 16, Rank(s[1]) % 16 * 16 + Rank(s[2]) / 4, Rank(s[2]) % 4 * 64 + Rank(s[3])]
  }

  /** What is missing of the last four letters is read as zeros. */
  function Decode(s: string): seq<int> {
    if |s| < 2 then []
    else if |s| == 2 then Three(s + "AA")[..1]
    else if |s| == 3 then Three(s + "A")[..2]
    else Three(s[..4]) + Decode(s[4..])
  }

  lemma Regrouped(x: Byte, y: Byte, z: Byte)
    ensures x / 4 * 4 + (x % 4 * 16 + y / 16) / 16 == x
    ensures (x % 4 * 16 + y / 16) % 16 * 16 + (y % 16 * 4 + z / 64) / 4 == y
    ensures (y % 16 * 4 + z / 64) % 4 * 64 + z % 64 == z
  {
  }

  lemma ThreeOfFour(x: Byte, y: Byte, z: Byte)
    ensures Three(Four(x, y, z)) == [x, y, z]
  {
    hide Letter, Rank;
    RankOfLetter(x / 4);
    RankOfLetter(x % 4 * 16 + y / 16);
    RankOfLetter(y % 16 * 4 + z / 64);
    RankOfLetter(z % 64);
    Regrouped(x, y, z);
  }

  lemma ZerosAreAs(x: Byte, y: Byte)
    ensures Four(x, 0, 0)[..2] + "AA" == Four(x, 0, 0) && Four(x, y, 0)[..3] + "A" == Four(x, y, 0)
  {
    assert Four(x, 0, 0)[..2] + Four(x, 0, 0)[2..] == Four(x, 0, 0);
    assert Four(x, y, 0)[..3] + Four(x, y, 0)[3..] == Four(x, y, 0);
  }

  lemma {:induction false} DecodeEncode(b: seq<Byte>)
    ensures Decode(Encode(b)) == b
  {
    hide Four, Three;
    if |b| == 1 {
      ZerosAreAs(b[0], 0);
      ThreeOfFour(b[0], 0, 0);
    } else if |b| == 2 {
      ZerosAreAs(b[0], b[1]);
      ThreeOfFour(b[0], b[1], 0);
    } else if |b| >= 3 {
      var four := Four(b[0], b[1], b[2]);
      ThreeOfFour(b[0], b[1], b[2]);
      DecodeEncode(b[3..]);
      assert Encode(b)[..4] == four && Encode(b)[4..] == Encode(b[3..]);
      assert b == [b[0], b[1], b[2]] + b[3..];
    }
  }

  /** Different random bytes give different tokens. */
  lemma TokensAreDistinct(a: seq<Byte>, b: seq<Byte>)
    requires a != b
    ensures NewToken(a) != NewToken(b) && Encode(a) != Encode(b)
  {
    DecodeEncode(a);
    DecodeEncode(b);
    assert NewToken(a)[4..] == Encode(a) && NewToken(b)[4..] == Encode(b);
  }
}
