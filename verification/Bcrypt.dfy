/** The salt encoding of the password hasher, and its comparison of hashes. */
module Bcrypt {

  type Bytes = seq<bv8>

  const UPPER := "ABCDEFGHIJKLMNOPQRSTUVWXYZ"
  const LOWER := "abcdefghijklmnopqrstuvwxyz"
  const DIGITS := "0123456789"
  const ALPHABET := (("./" + UPPER) + LOWER) + DIGITS
  const MAX_CHARS := 22

  // ---------- groups of six bits ----------

  function First(a: bv8): bv8 { a >> 2 }
  function Second(a: bv8, b: bv8): bv8 { ((a & 0x03) << 4) | (b >> 4) }
  function Third(b: bv8, c: bv8): bv8 { ((b & 0x0f) << 2) | (c >> 6) }
  function Fourth(c: bv8): bv8 { c & 0x3f }

  /** The bytes regrouped by six bits, from the most significant bit of the first byte
      on; the last group is filled up with zeros. */
  function Sextets(d: Bytes): seq<bv8> {
    if |d| == 0 then []
    else if |d| == 1 then [First(d[0]), Second(d[0], 0)]
    else if |d| == 2 then [First(d[0]), Second(d[0], d[1]), Third(d[1], 0)]
    else [First(d[0]), Second(d[0], d[1]), Third(d[1], d[2]), Fourth(d[2])] + Sextets(d[3..])
  }

  function Byte0(x: bv8, y: bv8): bv8 { (x << 2) | (y >> 4) }
  function Byte1(y: bv8, z: bv8): bv8 { (y << 4) | (z >> 2) }
  function Byte2(z: bv8, w: bv8): bv8 { (z << 6) | w }

  /** The whole bytes held in groups of six bits. */
  function Octets(s: seq<bv8>): Bytes {
    if |s| < 2 then []
    else if |s| == 2 then [Byte0(s[0], s[1])]
    else if |s| == 3 then [Byte0(s[0], s[1]), Byte1(s[1], s[2])]
    else [Byte0(s[0], s[1]), Byte1(s[1], s[2]), Byte2(s[2], s[3])] + Octets(s[4..])
  }

  lemma SixBits(a: bv8, b: bv8)
    ensures First(a) < 0x40 && Second(a, b) < 0x40 && Third(a, b) < 0x40 && Fourth(a) < 0x40
  {
  }

  predicate Small(s: seq<bv8>) { forall i :: 0 <= i < |s| ==> s[i] < 0x40 }

  /** The number of groups, and that each has six bits. */
  lemma {:induction false} SextetsLength(d: Bytes)
    ensures |Sextets(d)| == (4 * |d| + 2) / 3
    ensures Small(Sextets(d))
    decreases |d|
  {
    if |d| > 0 {
      SixBits(d[0], if |d| > 1 then d[1] else 0);
      SixBits(if |d| > 1 then d[1] else 0, if |d| > 2 then d[2] else 0);
      if |d| >= 3 {
        SixBits(d[2], 0);
        SextetsLength(d[3..]);
      }
    }
    hide First, Second, Third, Fourth;
  }

  lemma GroupRoundTrip(a: bv8, b: bv8, c: bv8)
    ensures Byte0(First(a), Second(a, b)) == a
    ensures Byte1(Second(a, b), Third(b, c)) == b
    ensures Byte2(Third(b, c), Fourth(c)) == c
  {
  }

  lemma {:induction false} OctetsInvertSextets(d: Bytes)
    ensures Octets(Sextets(d)) == d
    decreases |d|
  {
    var a, b, c := if |d| > 0 then d[0] else 0, if |d| > 1 then d[1] else 0, if |d| > 2 then d[2] else 0;
    GroupRoundTrip(a, b, c);
    hide First, Second, Third, Fourth, Byte0, Byte1, Byte2;
    if |d| >= 3 {
      OctetsInvertSextets(d[3..]);
      assert Sextets(d)[4..] == Sextets(d[3..]);
      assert d == [a, b, c] + d[3..];
    }
  }

  /** Bit `k` of a byte, counted from the most significant. */
  predicate BitOf(x: bv8, k: nat) {
    match k
    case 0 => x & 0x80 != 0
    case 1 => x & 0x40 != 0
    case 2 => x & 0x20 != 0
    case 3 => x & 0x10 != 0
    case 4 => x & 0x08 != 0
    case 5 => x & 0x04 != 0
    case 6 => x & 0x02 != 0
    case 7 => x & 0x01 != 0
    case _ => false
  }

  /** Bit `n` of a string of bytes, with zeros after its end. */
  predicate Bit(d: Bytes, n: nat) { n / 8 < |d| && BitOf(d[n / 8], n % 8) }

  lemma GroupBits(a: bv8, b: bv8, c: bv8, k: nat)
    requires k < 6
    ensures BitOf(First(a), k + 2) == BitOf(a, k)
    ensures BitOf(Second(a, b), k + 2) == if k < 2 then BitOf(a, k + 6) else BitOf(b, k - 2)
    ensures BitOf(Third(b, c), k + 2) == if k < 4 then BitOf(b, k + 4) else BitOf(c, k - 4)
    ensures BitOf(Fourth(c), k + 2) == BitOf(c, k + 2)
  {
  }

  lemma ZeroBits(k: nat)
    ensures !BitOf(0, k)
  {
  }

  lemma BitOfRest(d: Bytes, n: nat)
    requires |d| >= 3
    ensures Bit(d, n + 24) == Bit(d[3..], n)
  {
    hide BitOf;
    assert (n + 24) / 8 == n / 8 + 3 && (n + 24) % 8 == n % 8;
  }

  /** Bits by their place, whether the bytes are there or stand for zeros. */
  lemma BitAt(d: Bytes, i: nat, k: nat)
    requires k < 8
    ensures Bit(d, 8 * i + k) == BitOf(ByteAt(d, i), k)
  {
    ZeroBits(k);
    hide BitOf;
    assert (8 * i + k) / 8 == i && (8 * i + k) % 8 == k;
  }

  /** The grouping is that of section 4 of RFC 4648: bit `k` of group `j` is bit
      `6 * j + k` of the input. */
  lemma {:induction false} SextetBits(d: Bytes, j: nat, k: nat)
    requires j < |Sextets(d)| && k < 6
    ensures BitOf(Sextets(d)[j], k + 2) == Bit(d, 6 * j + k)
    decreases |d|
  {
    SextetsLength(d);
    hide First, Second, Third, Fourth, BitOf, Bit;
    if j >= 4 {
      SextetBits(d[3..], j - 4, k);
      BitOfRest(d, 6 * (j - 4) + k);
    } else {
      FirstSextetBits(d, j, k);
    }
  }

  /** The byte at a place, or zeros after the end. */
  function ByteAt(d: Bytes, i: nat): bv8 { if i < |d| then d[i] else 0 }

  lemma SecondBits(d: Bytes, k: nat)
    requires k < 6
    ensures BitOf(Second(ByteAt(d, 0), ByteAt(d, 1)), k + 2) == Bit(d, 6 + k)
  {
    GroupBits(ByteAt(d, 0), ByteAt(d, 1), 0, k);
    hide Second, BitOf, Bit, ByteAt;
    if k < 2 { BitAt(d, 0, k + 6); } else { BitAt(d, 1, k - 2); }
  }

  lemma ThirdBits(d: Bytes, k: nat)
    requires k < 6
    ensures BitOf(Third(ByteAt(d, 1), ByteAt(d, 2)), k + 2) == Bit(d, 12 + k)
  {
    GroupBits(0, ByteAt(d, 1), ByteAt(d, 2), k);
    hide Third, BitOf, Bit, ByteAt;
    if k < 4 { BitAt(d, 1, k + 4); } else { BitAt(d, 2, k - 4); }
  }

  lemma FirstSextetBits(d: Bytes, j: nat, k: nat)
    requires j < |Sextets(d)| && j < 4 && k < 6
    ensures BitOf(Sextets(d)[j], k + 2) == Bit(d, 6 * j + k)
  {
    FirstSextets(d, j);
    hide First, Second, Third, Fourth, BitOf, Bit, Sextets, ByteAt;
    if j == 0 {
      GroupBits(ByteAt(d, 0), 0, 0, k);
      BitAt(d, 0, k);
    } else if j == 1 {
      SecondBits(d, k);
    } else if j == 2 {
      ThirdBits(d, k);
    } else {
      GroupBits(0, 0, ByteAt(d, 2), k);
      BitAt(d, 2, k + 2);
    }
  }

  lemma FirstSextets(d: Bytes, j: nat)
    requires j < |Sextets(d)| && j < 4
    ensures Sextets(d)[j] ==
      if j == 0 then First(ByteAt(d, 0)) else if j == 1 then Second(ByteAt(d, 0), ByteAt(d, 1))
      else if j == 2 then Third(ByteAt(d, 1), ByteAt(d, 2)) else Fourth(ByteAt(d, 2))
  {
    hide First, Second, Third, Fourth;
  }

  // ---------- the alphabet ----------

  /** The place of a character in the alphabet. */
  function Place(c: char): nat {
    if '.' <= c <= '/' then c as nat - '.' as nat
    else if 'A' <= c <= 'Z' then c as nat - 'A' as nat + 2
    else if 'a' <= c <= 'z' then c as nat - 'a' as nat + 28
    else if '0' <= c <= '9' then c as nat - '0' as nat + 54
    else 0
  }

  lemma UpperAt(n: nat)
    requires n < 26
    ensures |UPPER| == 26 && UPPER[n] == 'A' + n as char
  {
  }

  lemma LowerAt(n: nat)
    requires n < 26
    ensures |LOWER| == 26 && LOWER[n] == 'a' + n as char
  {
  }

  lemma DigitsAt(n: nat)
    requires n < 10
    ensures |DIGITS| == 10 && DIGITS[n] == '0' + n as char
  {
  }

  /** The alphabet has no character twice: each is found at its place. */
  lemma AlphabetPlaces(n: nat)
    requires n < 64
    ensures |ALPHABET| == 64 && Place(ALPHABET[n]) == n
  {
    UpperAt(if 2 <= n < 28 then n - 2 else 0);
    LowerAt(if 28 <= n < 54 then n - 28 else 0);
    DigitsAt(if 54 <= n then n - 54 else 0);
    var u, l, d := UPPER, LOWER, DIGITS;
    assert ALPHABET == (("./" + u) + l) + d;
  }

  // ---------- encoding ----------

  function Text(s: seq<bv8>): string
    requires Small(s)
  {
    seq(|s|, i requires 0 <= i < |s| => CharOf(s[i]))
  }

  function CharOf(x: bv8): char
    requires x < 0x40
  {
    AlphabetPlaces(0);
    ALPHABET[x as int]
  }

  function ValueOf(c: char): (x: bv8) { if Place(c) < 64 then Place(c) as bv8 else 0 }

  function Values(t: string): seq<bv8> { seq(|t|, i requires 0 <= i < |t| => ValueOf(t[i])) }

  /** The text of all groups, cut to 22 characters. */
  function Encoded(d: Bytes): string {
    SextetsLength(d);
    var t := Text(Sextets(d));
    if |t| > MAX_CHARS then t[..MAX_CHARS] else t
  }

  function Decoded(t: string): Bytes { Octets(Values(t)) }

  lemma CharRoundTrip(x: bv8)
    requires x < 0x40
    ensures ValueOf(CharOf(x)) == x
  {
    AlphabetPlaces(x as int);
    hide Place;
  }

  lemma TextRoundTrip(s: seq<bv8>)
    requires Small(s)
    ensures Values(Text(s)) == s
  {
    forall i | 0 <= i < |s| ensures Values(Text(s))[i] == s[i] { CharRoundTrip(s[i]); }
  }

  /** The cut takes effect exactly for inputs of more than 16 bytes; up to there the
      text has ceil(4n / 3) characters, and decoding recovers the bytes. */
  lemma EncodingRoundTrip(d: Bytes)
    ensures |Encoded(d)| < |Sextets(d)| <==> |d| > 16
    ensures |d| <= 16 ==> |Encoded(d)| == (4 * |d| + 2) / 3 && Decoded(Encoded(d)) == d
  {
    SextetsLength(d);
    if |d| <= 16 {
      TextRoundTrip(Sextets(d));
      OctetsInvertSextets(d);
    }
  }

  /** Salts of 16 bytes have different encodings of 22 characters each. */
  lemma SaltsStayDistinct(a: Bytes, b: Bytes)
    requires |a| == 16 && |b| == 16
    ensures |Encoded(a)| == 22 && (Encoded(a) == Encoded(b) ==> a == b)
  {
    EncodingRoundTrip(a);
    EncodingRoundTrip(b);
  }

  lemma BitsDetermine(x: bv8, y: bv8)
    requires x < 0x40 && y < 0x40 && forall k: nat :: 2 <= k < 8 ==> BitOf(x, k) == BitOf(y, k)
    ensures x == y
  {
    assert BitOf(x, 2) == BitOf(y, 2) && BitOf(x, 3) == BitOf(y, 3) && BitOf(x, 4) == BitOf(y, 4);
    assert BitOf(x, 5) == BitOf(y, 5) && BitOf(x, 6) == BitOf(y, 6) && BitOf(x, 7) == BitOf(y, 7);
  }

  lemma SameChars(a: Bytes, b: Bytes, j: nat)
    requires |a| > 16 && |b| > 16 && j < MAX_CHARS
    ensures j < |Sextets(a)| && j < |Sextets(b)| && |Encoded(a)| == |Encoded(b)| == MAX_CHARS
    ensures Encoded(a)[j] == Encoded(b)[j] <==> Sextets(a)[j] == Sextets(b)[j]
  {
    SextetsLength(a);
    SextetsLength(b);
    CharRoundTrip(Sextets(a)[j]);
    CharRoundTrip(Sextets(b)[j]);
    hide Sextets, CharOf, ValueOf;
  }

  ghost predicate SameBits(a: Bytes, b: Bytes, from: nat, to: nat) {
    forall n: nat :: from <= n < to ==> Bit(a, n) == Bit(b, n)
  }

  lemma SextetBitFromBits(a: Bytes, b: Bytes, j: nat, k: nat)
    requires j < |Sextets(a)| && j < |Sextets(b)| && SameBits(a, b, 6 * j, 6 * j + 6) && k < 6
    ensures BitOf(Sextets(a)[j], k + 2) == BitOf(Sextets(b)[j], k + 2)
  {
    SextetBits(a, j, k);
    SextetBits(b, j, k);
    hide Bit, BitOf, Sextets;
    var n := 6 * j + k;
    assert Bit(a, n) == Bit(b, n);
  }

  lemma SextetFromBits(a: Bytes, b: Bytes, j: nat)
    requires j < |Sextets(a)| && j < |Sextets(b)| && SameBits(a, b, 6 * j, 6 * j + 6)
    ensures Sextets(a)[j] == Sextets(b)[j]
  {
    SextetsLength(a);
    SextetsLength(b);
    var x, y := Sextets(a)[j], Sextets(b)[j];
    hide Bit, BitOf, Sextets;
    forall k: nat | 2 <= k < 8 ensures BitOf(x, k) == BitOf(y, k) { SextetBitFromBits(a, b, j, k - 2); }
    BitsDetermine(x, y);
  }

  lemma BitsFromSextet(a: Bytes, b: Bytes, j: nat, k: nat)
    requires j < |Sextets(a)| && j < |Sextets(b)| && Sextets(a)[j] == Sextets(b)[j] && k < 6
    ensures Bit(a, 6 * j + k) == Bit(b, 6 * j + k)
  {
    SextetBits(a, j, k);
    SextetBits(b, j, k);
    hide Bit, BitOf, Sextets;
  }

  /** Beyond 16 bytes the encoding keeps exactly the first 132 bits: two longer inputs
      have the same encoding if and only if those bits agree. */
  lemma LongInputsKeepBits(a: Bytes, b: Bytes)
    requires |a| > 16 && |b| > 16
    ensures Encoded(a) == Encoded(b) <==> SameBits(a, b, 0, 132)
  {
    hide Bit, Encoded, Sextets;
    SameChars(a, b, 0);
    if SameBits(a, b, 0, 132) {
      forall j | 0 <= j < MAX_CHARS ensures Encoded(a)[j] == Encoded(b)[j] {
        SameChars(a, b, j);
        SextetFromBits(a, b, j);
      }
    }
    if Encoded(a) == Encoded(b) {
      forall n: nat | n < 132 ensures Bit(a, n) == Bit(b, n) {
        var j := n / 6;
        SameChars(a, b, j);
        BitsFromSextet(a, b, j, n - 6 * j);
      }
    }
  }

  // ---------- in place ----------

  lemma TextPush(s: seq<bv8>, x: bv8)
    requires Small(s) && x < 0x40
    ensures Small(s + [x]) && Text(s + [x]) == Text(s) + [CharOf(x)]
  {
    hide CharOf;
  }

  /** The text so far spells these groups. */
  ghost predicate Spells(out: string, s: seq<bv8>) { Small(s) && out == Text(s) }

  lemma SpellsNothing()
    ensures Spells("", [])
  {
  }

  lemma SpellsAll(out: string, data: Bytes)
    requires Spells(out, Sextets(data))
    ensures Encoded(data) == if |out| > MAX_CHARS then out[..MAX_CHARS] else out
  {
  }

  method Push(out: string, x: bv8, ghost s: seq<bv8>, ghost group: bv8) returns (more: string)
    requires Spells(out, s) && x == group && x < 0x40
    ensures Spells(more, s + [group])
  {
    AlphabetPlaces(0);
    TextPush(s, x);
    more := out + [ALPHABET[x as int]];
  }

  lemma ByteGroups(a: bv8, b: bv8, c: bv8)
    ensures (a >> 2) & 0x3f == First(a) < 0x40
    ensures ((a & 0x03) << 4) & 0x3f == Second(a, 0) < 0x40
    ensures (((a & 0x03) << 4) | ((b >> 4) & 0x0f)) & 0x3f == Second(a, b) < 0x40
    ensures ((b & 0x0f) << 2) & 0x3f == Third(b, 0) < 0x40
    ensures (((b & 0x0f) << 2) | ((c >> 6) & 0x03)) & 0x3f == Third(b, c) < 0x40
    ensures c & 0x3f == Fourth(c) < 0x40
  {
  }

  /** What a round has to add to the groups so far. */
  lemma Round(data: Bytes, i: nat, s: seq<bv8>)
    requires i < |data|
    ensures var a, b, c := data[i], ByteAt(data, i + 1), ByteAt(data, i + 2);
      s + Sextets(data[i..]) ==
        if i + 1 == |data| then (s + [First(a)]) + [Second(a, 0)]
        else if i + 2 == |data| then ((s + [First(a)]) + [Second(a, b)]) + [Third(b, 0)]
        else ((((s + [First(a)]) + [Second(a, b)]) + [Third(b, c)]) + [Fourth(c)]) + Sextets(data[i + 3..])
  {
    var d := data[i..];
    var a, b, c := data[i], ByteAt(data, i + 1), ByteAt(data, i + 2);
    assert d[0] == a && (|d| > 1 ==> d[1] == b) && (|d| > 2 ==> d[2] == c);
    hide First, Second, Third, Fourth;
    if |d| == 1 {
      assert Sextets(d) == [First(a), Second(a, 0)];
    } else if |d| == 2 {
      assert Sextets(d) == [First(a), Second(a, b), Third(b, 0)];
    } else {
      assert d[3..] == data[i + 3..];
      var x, y, z, w := First(a), Second(a, b), Third(b, c), Fourth(c);
      FourFirst(s, x, y, z, w, Sextets(d[3..]));
    }
  }

  lemma FourFirst(s: seq<bv8>, x: bv8, y: bv8, z: bv8, w: bv8, rest: seq<bv8>)
    ensures s + ([x, y, z, w] + rest) == ((((s + [x]) + [y]) + [z]) + [w]) + rest
  {
  }

  /** The loop takes three bytes a round, leaving off where the input ends. The values
      it computes with stay within a byte. */
  method BcryptBase64Encode(data: Bytes) returns (out: string)
    ensures out == Encoded(data)
  {
    ghost var all := Sextets(data);
    ghost var s: seq<bv8> := [];
    out := "";
    var i := 0;
    SpellsNothing();
    assert data[0..] == data && Sextets([]) == [] && s + all == all;
    hide Spells, First, Second, Third, Fourth, Sextets, ByteAt;
    while i < |data|
      invariant i <= |data| && s + Sextets(data[i..]) == all && Spells(out, s)
      decreases |data| - i
    {
      Round(data, i, s);
      ghost var a, b, c := data[i], ByteAt(data, i + 1), ByteAt(data, i + 2);
      ByteGroups(a, b, c);
      var c1 := data[i];
      i := i + 1;
      out := Push(out, (c1 >> 2) & 0x3f, s, First(a));
      s := s + [First(a)];
      c1 := (c1 & 0x03) << 4;
      if i >= |data| {
        out := Push(out, c1 & 0x3f, s, Second(a, 0));
        s := s + [Second(a, 0)];
        break;
      }
      var c2 := data[i];
      NextByte(data, i, b);
      i := i + 1;
      c1 := c1 | ((c2 >> 4) & 0x0f);
      out := Push(out, c1 & 0x3f, s, Second(a, b));
      s := s + [Second(a, b)];
      c1 := (c2 & 0x0f) << 2;
      if i >= |data| {
        out := Push(out, c1 & 0x3f, s, Third(b, 0));
        s := s + [Third(b, 0)];
        break;
      }
      c2 := data[i];
      NextByte(data, i, c);
      i := i + 1;
      c1 := c1 | ((c2 >> 6) & 0x03);
      out := Push(out, c1 & 0x3f, s, Third(b, c));
      s := s + [Third(b, c)];
      out := Push(out, c2 & 0x3f, s, Fourth(c));
      s := s + [Fourth(c)];
    }
    assert s == all;
    SpellsAll(out, data);
    if |out| > MAX_CHARS { out := out[..MAX_CHARS]; }
  }

  lemma NextByte(data: Bytes, i: nat, b: bv8)
    requires i < |data| && b == ByteAt(data, i)
    ensures data[i] == b
  {
  }

  // ---------- comparing hashes ----------

  lemma AccumulatesDifference(diff: bv8, x: bv8, y: bv8)
    ensures diff | (x ^ y) == 0 <==> diff == 0 && x == y
  {
  }

  /** The accumulating comparison is equality. */
  method ConstantTimeEquals(lhs: Bytes, rhs: Bytes) returns (same: bool)
    ensures same <==> lhs == rhs
  {
    if |lhs| != |rhs| { return false; }
    var diff: bv8 := 0;
    for i := 0 to |lhs|
      invariant diff == 0 <==> lhs[..i] == rhs[..i]
    {
      AccumulatesDifference(diff, lhs[i], rhs[i]);
      assert lhs[..i + 1] == lhs[..i] + [lhs[i]] && rhs[..i + 1] == rhs[..i] + [rhs[i]];
      diff := diff | (lhs[i] ^ rhs[i]);
    }
    assert lhs[..|lhs|] == lhs && rhs[..|rhs|] == rhs;
    same := diff == 0;
  }
}
