/**
  * Texts as the program compares and measures them. Dates are texts; reals can stand for them because
  * the texts, in their order, embed in the reals.
  */
module Texts {

  /** Larger than any character code plus one. */
  const BASE: int := 0x11_0001

  /** Text order: the first difference decides, and a prefix comes first. */
  predicate Before(s: string, t: string) {
    t != [] && (s == [] || s[0] < t[0] || (s[0] == t[0] && Before(s[1..], t[1..])))
  }

  function Rank(s: string): (r: real)
    ensures 0.0 <= r < 1.0 && (s != [] ==> 0.0 < r)
  {
    if s == [] then 0.0 else ((s[0] as int + 1) as real + Rank(s[1..])) / BASE as real
  }

  lemma {:induction false} BeforeRanksLower(s: string, t: string)
    requires Before(s, t)
    ensures Rank(s) < Rank(t)
  {
    if s != [] && s[0] == t[0] {
      BeforeRanksLower(s[1..], t[1..]);
    }
  }

  lemma {:induction false} BeforeIsTotal(s: string, t: string)
    ensures Before(s, t) || s == t || Before(t, s)
  {
    if s != [] && t != [] && s[0] == t[0] {
      BeforeIsTotal(s[1..], t[1..]);
      assert s == [s[0]] + s[1..] && t == [t[0]] + t[1..];
    }
  }

  /** Comparing ranks is comparing texts. */
  lemma RankEmbeds(s: string, t: string)
    ensures Before(s, t) <==> Rank(s) < Rank(t)
    ensures s == t <==> Rank(s) == Rank(t)
  {
    BeforeIsTotal(s, t);
    if Before(s, t) {
      BeforeRanksLower(s, t);
    } else if Before(t, s) {
      BeforeRanksLower(t, s);
    }
  }

  // ---- Length ------------------------------------------------------------

  /** Bytes of one character in UTF-8 (section 3 of RFC 3629). */
  function CharBytes(c: char): nat {
    if c < '\U{80}' then 1 else if c < '\U{800}' then 2 else if c < '\U{10000}' then 3 else 4
  }

  /** The length of a text in bytes. */
  function ByteLength(s: string): (n: nat)
    ensures |s| <= n <= 4 * |s|
  {
    if s == [] then 0 else ByteLength(s[..|s| - 1]) + CharBytes(s[|s| - 1])
  }

  /** The bytes of one character: a lead byte that tells their number, and six bits in each of the others. */
  function Encoded(c: char): seq<int> {
    var n := c as int;
    if n < 0x80 then [n]
    else if n < 0x800 then [0xC0 + n / 64, 0x80 + n % 64]
    else if n < 0x1_0000 then [0xE0 + n / 4096, 0x80 + n / 64 % 64, 0x80 + n % 64]
    else [0xF0 + n / 262144, 0x80 + n / 4096 % 64, 0x80 + n / 64 % 64, 0x80 + n % 64]
  }

  /** The character number that such bytes stand for. */
  function Decoded(bytes: seq<int>): int {
    if |bytes| == 1 then bytes[0]
    else if |bytes| == 2 then (bytes[0] - 0xC0) * 64 + bytes[1] - 0x80
    else if |bytes| == 3 then (bytes[0] - 0xE0) * 4096 + (bytes[1] - 0x80) * 64 + bytes[2] - 0x80
    else if |bytes| == 4 then
      (bytes[0] - 0xF0) * 262144 + (bytes[1] - 0x80) * 4096 + (bytes[2] - 0x80) * 64 + bytes[3] - 0x80
    else -1
  }

  lemma SixBits(n: int)
    ensures n / 64 * 64 + n % 64 == n && n / 64 / 64 == n / 4096 && n / 4096 / 64 == n / 262144
  {
  }

  /** The encoding is as long as counted, its bytes are bytes, and it can be read back. */
  lemma EncodedReadsBack(c: char)
    ensures |Encoded(c)| == CharBytes(c) && Decoded(Encoded(c)) == c as int
    ensures forall i :: 0 <= i < |Encoded(c)| ==> 0 <= Encoded(c)[i] < 256 && (i > 0 ==> 0x80 <= Encoded(c)[i] < 0xC0)
  {
    var n := c as int;
    SixBits(n);
    SixBits(n / 64);
    SixBits(n / 4096);
  }

  function EncodedText(s: string): seq<int> {
    if s == [] then [] else EncodedText(s[..|s| - 1]) + Encoded(s[|s| - 1])
  }

  /** The length of a text in bytes is that of its UTF-8 encoding. */
  lemma {:induction false} ByteLengthIsEncoded(s: string)
    ensures ByteLength(s) == |EncodedText(s)|
    decreases |s|
  {
    if s == [] {
    } else {
      ByteLengthIsEncoded(s[..|s| - 1]);
      EncodedReadsBack(s[|s| - 1]);
    }
  }
}
