/** Random device IDs and keys, as a function of the random bytes. */
module Keygen {
  import opened Ids

  type Byte = b: int | 0 <= b < 256

  const ALPHABET: string := "0123456789ABCDEFGHJKMNPQRSTVWXYZ"
  const HEX: string := "0123456789abcdef"
  const KEY_BYTES: nat := 64

  function Spelled(buf: seq<Byte>): (id: string)
    ensures |id| == |buf|
  {
    if buf == [] then "" else [ALPHABET[buf[0] % 32]] + Spelled(buf[1..])
  }

  method GenerateDeviceId(buf: seq<Byte>) returns (id: string)
    ensures id == Spelled(buf)
  {
    id := "";
    var i := 0;
    assert buf[0..] == buf;
    while i < |buf|
      invariant 0 <= i <= |buf|
      invariant id + Spelled(buf[i..]) == Spelled(buf)
    {
      assert buf[i..][0] == buf[i] && buf[i..][1..] == buf[i + 1..];
      assert id + ([ALPHABET[buf[i] % 32]] + Spelled(buf[i + 1..])) == id + [ALPHABET[buf[i] % 32]] + Spelled(buf[i + 1..]);
      id := id + [ALPHABET[buf[i] % 32]];
      i := i + 1;
    }
    assert id + "" == id;
  }

  // ---- The alphabet ------------------------------------------------------------------------

  /** The alphabet by its gaps: no I, L, O and U. */
  function Letter(k: nat): char
    requires k < 32
  {
    (if k < 10 then 48 + k else if k < 18 then 55 + k else if k < 20 then 56 + k
     else if k < 22 then 57 + k else if k < 27 then 58 + k else 59 + k) as char
  }

  function Rank(c: char): (k: nat)
    requires CrockfordChar(c)
    ensures k < 32 && Letter(k) == c
  {
    var n := c as int;
    if c <= '9' then n - 48 else if c <= 'H' then n - 55 else if c <= 'K' then n - 56
    else if c <= 'N' then n - 57 else if c <= 'T' then n - 58 else n - 59
  }

  lemma TableIsLetter(k: nat)
    requires k < 32
    ensures ALPHABET[k] == Letter(k) && CrockfordChar(Letter(k)) && Rank(Letter(k)) == k
  {
  }

  // ---- Every ID is equally likely --------------------------------------------------------

  /** The eight bytes that spell one letter. */
  function Hits(k: nat): (hits: set<Byte>)
    requires k < 32
    ensures |hits| == 8
  {
    {k, k + 32, k + 64, k + 96, k + 128, k + 160, k + 192, k + 224}
  }

  lemma InHits(k: nat, b: Byte)
    requires k < 32
    ensures b in Hits(k) <==> b % 32 == k
  {
    var q := b / 32;
    assert b == 32 * q + b % 32 && 0 <= q < 8;
    assert q == 0 || q == 1 || q == 2 || q == 3 || q == 4 || q == 5 || q == 6 || q == 7;
  }

  lemma HitsExactly(c: char, b: Byte)
    requires CrockfordChar(c)
    ensures b in Hits(Rank(c)) <==> ALPHABET[b % 32] == c
  {
    TableIsLetter(b % 32);
    InHits(Rank(c), b);
  }

  function Product(heads: set<Byte>, tails: set<seq<Byte>>): set<seq<Byte>> {
    set b, tail | b in heads && tail in tails :: [b] + tail
  }

  lemma ProductSplit(b: Byte, rest: set<Byte>, tails: set<seq<Byte>>)
    requires b !in rest
    ensures Product({b} + rest, tails) == Product({b}, tails) + Product(rest, tails)
    ensures Product({b}, tails) !! Product(rest, tails)
  {
    var one, others := Product({b}, tails), Product(rest, tails);
    forall x | x in one ensures x[0] == b {}
    forall x | x in others ensures x[0] in rest {}
  }

  lemma Disjoint<T>(a: set<T>, b: set<T>)
    requires a !! b
    ensures |a + b| == |a| + |b|
  {
  }

  lemma OneMore(n: nat, m: nat)
    ensures (1 + n) * m == m + n * m
  {
  }

  lemma {:induction false} ProductSize(heads: set<Byte>, tails: set<seq<Byte>>)
    ensures |Product(heads, tails)| == |heads| * |tails|
    decreases |heads|
  {
    if heads == {} {
      assert Product(heads, tails) == {};
    } else {
      var b :| b in heads;
      var rest := heads - {b};
      ProductSize(rest, tails);
      ProductSizeOne(b, tails);
      ProductSplit(b, rest, tails);
      assert heads == {b} + rest;
      Disjoint(Product({b}, tails), Product(rest, tails));
      Disjoint({b}, rest);
      OneMore(|rest|, |tails|);
    }
  }

  lemma ConsSplit(b: Byte, t: seq<Byte>, rest: set<seq<Byte>>)
    requires t !in rest
    ensures Product({b}, rest + {t}) == Product({b}, rest) + {[b] + t}
    ensures Product({b}, rest) !! {[b] + t}
  {
    forall x | x in Product({b}, rest) ensures x[1..] in rest {
      var tail :| tail in rest && x == [b] + tail;
      assert x[1..] == tail;
    }
    assert ([b] + t)[1..] == t;
    forall x | x in Product({b}, rest + {t}) ensures x in Product({b}, rest) + {[b] + t} {
      var tail :| tail in rest + {t} && x == [b] + tail;
    }
  }

  lemma {:induction false} ProductSizeOne(b: Byte, tails: set<seq<Byte>>)
    ensures |Product({b}, tails)| == |tails|
    decreases |tails|
  {
    if tails == {} {
      assert Product({b}, tails) == {};
    } else {
      var t :| t in tails;
      var rest := tails - {t};
      ProductSizeOne(b, rest);
      ConsSplit(b, t, rest);
      assert tails == rest + {t};
      Disjoint(Product({b}, rest), {[b] + t});
    }
  }

  predicate AllCrockford(id: string) {
    forall i :: 0 <= i < |id| ==> CrockfordChar(id[i])
  }

  function Buffers(id: string): set<seq<Byte>>
    requires AllCrockford(id)
  {
    if id == "" then {[]} else Product(Hits(Rank(id[0])), Buffers(id[1..]))
  }

  function Pow8(n: nat): nat {
    if n == 0 then 1 else 8 * Pow8(n - 1)
  }

  lemma {:induction false} BuffersExactly(id: string, buf: seq<Byte>)
    requires AllCrockford(id)
    ensures buf in Buffers(id) <==> Spelled(buf) == id
  {
    if id != "" && buf != [] {
      BuffersExactly(id[1..], buf[1..]);
      HitsExactly(id[0], buf[0]);
      assert buf == [buf[0]] + buf[1..] && id == [id[0]] + id[1..];
      if buf in Buffers(id) {
        var b, tail :| b in Hits(Rank(id[0])) && tail in Buffers(id[1..]) && buf == [b] + tail;
        assert b == buf[0] && tail == buf[1..];
      }
      if Spelled(buf) == id {
        assert Spelled(buf)[1..] == Spelled(buf[1..]);
      }
    }
  }

  lemma {:induction false} BufferCount(id: string)
    requires AllCrockford(id)
    ensures |Buffers(id)| == Pow8(|id|)
  {
    if id != "" {
      BufferCount(id[1..]);
      ProductSize(Hits(Rank(id[0])), Buffers(id[1..]));
    }
  }

  /** The buffers that spell an ID are exactly 8^n, whatever the ID: no ID of a length is favoured. */
  lemma IdsAreUnbiased(id: string)
    requires AllCrockford(id)
    ensures (forall buf :: buf in Buffers(id) <==> Spelled(buf) == id) && |Buffers(id)| == Pow8(|id|)
  {
    forall buf ensures buf in Buffers(id) <==> Spelled(buf) == id {
      BuffersExactly(id, buf);
    }
    BufferCount(id);
  }

  lemma {:induction false} SpelledIsCrockford(buf: seq<Byte>)
    ensures AllCrockford(Spelled(buf))
  {
    if buf != [] {
      SpelledIsCrockford(buf[1..]);
      TableIsLetter(buf[0] % 32);
    }
  }

  lemma ValidByLength(id: string)
    requires AllCrockford(id)
    ensures ValidDeviceId(id) <==> DEVICE_ID_MIN <= |id| <= DEVICE_ID_MAX
  {
  }

  /** An output is a valid device ID exactly when its length is one. */
  lemma SpelledIsValid(buf: seq<Byte>)
    ensures ValidDeviceId(Spelled(buf)) <==> DEVICE_ID_MIN <= |buf| <= DEVICE_ID_MAX
  {
    SpelledIsCrockford(buf);
    ValidByLength(Spelled(buf));
  }

  // ---- Keys ------------------------------------------------------------------------------------

  function Hex(buf: seq<Byte>): (key: string)
    ensures |key| == 2 * |buf|
  {
    if buf == [] then "" else [HEX[buf[0] / 16], HEX[buf[0] % 16]] + Hex(buf[1..])
  }

  function Nibble(c: char): int {
    if '0' <= c <= '9' then c as int - 48 else c as int - 87
  }

  function Unhex(key: string): seq<int> {
    if |key| < 2 then [] else [16 * Nibble(key[0]) + Nibble(key[1])] + Unhex(key[2..])
  }

  method GenerateKey(buf: seq<Byte>) returns (key: string)
    requires |buf| == KEY_BYTES
    ensures key == Hex(buf) && |key| == 128
  {
    key := "";
    var i := 0;
    assert buf[0..] == buf;
    while i < |buf|
      invariant 0 <= i <= |buf|
      invariant key + Hex(buf[i..]) == Hex(buf)
    {
      assert buf[i..][0] == buf[i] && buf[i..][1..] == buf[i + 1..];
      var pair := [HEX[buf[i] / 16], HEX[buf[i] % 16]];
      assert key + (pair + Hex(buf[i + 1..])) == key + pair + Hex(buf[i + 1..]);
      key := key + [HEX[buf[i] / 16]];
      key := key + [HEX[buf[i] % 16]];
      i := i + 1;
    }
    assert key + "" == key;
  }

  lemma NibbleBack(n: nat)
    requires n < 16
    ensures Nibble(HEX[n]) == n
  {
  }

  lemma UnhexPair(a: nat, b: nat, rest: string)
    requires a < 16 && b < 16
    ensures Unhex([HEX[a], HEX[b]] + rest) == [16 * a + b] + Unhex(rest)
  {
    var key := [HEX[a], HEX[b]] + rest;
    NibbleBack(a);
    NibbleBack(b);
    assert key[0] == HEX[a] && key[1] == HEX[b] && key[2..] == rest;
  }

  /** No two random buffers give the same key. */
  lemma {:induction false} KeyKeepsEveryBit(buf: seq<Byte>)
    ensures Unhex(Hex(buf)) == buf
  {
    if buf != [] {
      KeyKeepsEveryBit(buf[1..]);
      UnhexPair(buf[0] / 16, buf[0] % 16, Hex(buf[1..]));
      assert buf == [buf[0]] + buf[1..];
    }
  }
}
