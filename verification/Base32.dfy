/**
 Base32 as the TOTP secrets use it. The accumulator is a 32-bit word that is never masked: it is held here as its
 unsigned value, so a shift to the left is a product modulo 2^32 and a shift to the right a quotient.
 */
module Base32 {
  import opened Common

  type Byte = b: int | 0 <= b < 256
  const TWO32: nat := 0x1_0000_0000

  // ---- Word operators as arithmetic ---------------------------------------------------------------

  /** For every distance that occurs, a shift to the left is a product modulo 2^32, which is how words multiply. */
  lemma LeftShifts(v: bv32)
    ensures v << 1 == v * 2 && v << 2 == v * 4 && v << 3 == v * 8 && v << 4 == v * 16 && v << 5 == v * 32
            && v << 8 == v * 256
  {
  }

  /** An unsigned shift to the right is a quotient. */
  lemma RightShifts(v: bv32)
    ensures v >> 1 == v / 2 && v >> 2 == v / 4 && v >> 3 == v / 8 && v >> 4 == v / 16
    ensures v >> 5 == v / 32 && v >> 6 == v / 64 && v >> 7 == v / 128
  {
  }

  /** Or-ing into cleared low bits adds, and masks are remainders. */
  lemma OrsAndMasks(v: bv32, b: bv32)
    ensures b < 256 ==> ((v << 8) | b) == (v << 8) + b
    ensures b < 32 ==> ((v << 5) | b) == (v << 5) + b
    ensures v & 31 == v % 32 && v & 255 == v % 256
  {
  }

  /** The operators of the loops, as they are written below: products, quotients, sums and remainders of words. */
  lemma WordOperators(v: bv32, b: bv32)
    ensures b < 256 ==> ((v << 8) | b) == v * 256 + b
    ensures b < 32 ==> ((v << 5) | b) == v * 32 + b
    ensures (v >> 1) & 31 == v / 2 % 32 && (v >> 7) & 31 == v / 128 % 32 && (v >> 4) & 255 == v / 16 % 256
    ensures (v << 1) & 31 == v * 2 % 32 && (v << 4) & 31 == v * 16 % 32
  {
    LeftShifts(v);
    RightShifts(v);
    OrsAndMasks(v, b);
    OrsAndMasks(v >> 1, b);
    OrsAndMasks(v >> 7, b);
    OrsAndMasks(v >> 4, b);
    OrsAndMasks(v << 1, b);
    OrsAndMasks(v << 4, b);
  }

  // ---- Bit strings -----------------------------------------------------------------------------

  function Pow2(n: nat): (p: nat)
    ensures p > 0
  {
    if n == 0 then 1 else 2 * Pow2(n - 1)
  }

  /** The number that a bit string writes, most significant bit first. */
  function FromBits(s: seq<bool>): nat {
    if s == [] then 0 else 2 * FromBits(s[..|s| - 1]) + if s[|s| - 1] then 1 else 0
  }

  /** The low n bits of a number, most significant bit first. */
  function ToBits(v: nat, n: nat): (s: seq<bool>)
    ensures |s| == n
  {
    if n == 0 then [] else ToBits(v / 2, n - 1) + [v % 2 == 1]
  }

  lemma {:induction false} FromToBits(v: nat, n: nat)
    requires v < Pow2(n)
    ensures FromBits(ToBits(v, n)) == v
  {
    if n > 0 {
      FromToBits(v / 2, n - 1);
      var s := ToBits(v, n);
      assert s[..n - 1] == ToBits(v / 2, n - 1);
    }
  }

  lemma {:induction false} ToFromBits(s: seq<bool>)
    ensures FromBits(s) < Pow2(|s|)
    ensures ToBits(FromBits(s), |s|) == s
  {
    if s != [] {
      var init := s[..|s| - 1];
      ToFromBits(init);
      assert FromBits(s) / 2 == FromBits(init);
      assert s == init + [s[|s| - 1]];
    }
  }

  lemma {:induction false} FromBitsConcat(a: seq<bool>, b: seq<bool>)
    ensures FromBits(a + b) == FromBits(a) * Pow2(|b|) + FromBits(b)
  {
    if b == [] {
      assert a + b == a;
    } else {
      var init := b[..|b| - 1];
      FromBitsConcat(a, init);
      assert (a + b)[..|a + b| - 1] == a + init;
      DoubledSum(FromBits(a), Pow2(|init|), FromBits(init));
    }
  }

  lemma DoubledSum(x: nat, p: nat, y: nat)
    ensures 2 * (x * p + y) == x * (2 * p) + 2 * y
  {
  }

  function Zeros(n: nat): (s: seq<bool>)
    ensures |s| == n && forall i :: 0 <= i < n ==> !s[i]
  {
    if n == 0 then [] else Zeros(n - 1) + [false]
  }

  lemma {:induction false} ZerosAreZero(s: seq<bool>)
    requires forall i :: 0 <= i < |s| ==> !s[i]
    ensures FromBits(s) == 0 && s == Zeros(|s|)
  {
    if s != [] {
      ZerosAreZero(s[..|s| - 1]);
      assert s == s[..|s| - 1] + [false];
    }
  }

  // ---- Chopping a bit string into groups ---------------------------------------------------------

  /** The full groups of w bits of a bit string, as numbers; an incomplete last group is dropped. */
  function Chop(bits: seq<bool>, w: nat): seq<nat>
    requires w > 0
  {
    if |bits| < w then [] else [FromBits(bits[..w])] + Chop(bits[w..], w)
  }

  /** The bit string of a sequence of w-bit numbers. */
  function Unchop(vals: seq<nat>, w: nat): (bits: seq<bool>)
    ensures w == 5 ==> |bits| == 5 * |vals|
    ensures w == 8 ==> |bits| == 8 * |vals|
  {
    if vals == [] then [] else ToBits(vals[0], w) + Unchop(vals[1..], w)
  }

  ghost predicate Fit(vals: seq<nat>, w: nat) {
    forall i :: 0 <= i < |vals| ==> vals[i] < Pow2(w)
  }

  lemma {:induction false} ChopUnchop(vals: seq<nat>, w: nat)
    requires w > 0 && Fit(vals, w)
    ensures Chop(Unchop(vals, w), w) == vals
  {
    if vals != [] {
      ChopUnchop(vals[1..], w);
      var bits := Unchop(vals, w);
      FromToBits(vals[0], w);
      assert bits[..w] == ToBits(vals[0], w) && bits[w..] == Unchop(vals[1..], w);
    }
  }

  /** n whole groups of five or eight bits. */
  predicate WholeGroups(bits: seq<bool>, w: nat, n: nat) {
    (w == 5 && |bits| == 5 * n) || (w == 8 && |bits| == 8 * n)
  }

  lemma {:induction false} UnchopChop(bits: seq<bool>, w: nat, n: nat)
    requires WholeGroups(bits, w, n)
    ensures Unchop(Chop(bits, w), w) == bits && Fit(Chop(bits, w), w)
  {
    if n > 0 {
      UnchopChop(bits[w..], w, n - 1);
      ToFromBits(bits[..w]);
      assert bits == bits[..w] + bits[w..];
    }
  }

  /** A group appended to whole groups is the next number; fewer bits than a group change nothing. */
  lemma {:induction false} ChopSnoc(bits: seq<bool>, tail: seq<bool>, w: nat, n: nat)
    requires WholeGroups(bits, w, n) && |tail| <= w
    ensures Chop(bits + tail, w) == if |tail| == w then Chop(bits, w) + [FromBits(tail)] else Chop(bits, w)
  {
    if n == 0 {
      assert bits + tail == tail && tail[..|tail|] == tail;
    } else {
      ChopSnoc(bits[w..], tail, w, n - 1);
      assert (bits + tail)[..w] == bits[..w] && (bits + tail)[w..] == bits[w..] + tail;
    }
  }

  lemma {:induction false} UnchopSnoc(vals: seq<nat>, v: nat, w: nat)
    ensures Unchop(vals + [v], w) == Unchop(vals, w) + ToBits(v, w)
  {
    if vals == [] {
      assert vals + [v] == [v] && [v][1..] == [];
    } else {
      UnchopSnoc(vals[1..], v, w);
      assert (vals + [v])[1..] == vals[1..] + [v];
    }
  }

  // ---- The alphabet ------------------------------------------------------------------------------

  /** The character at an index of "ABCDEFGHIJKLMNOPQRSTUVWXYZ234567". */
  function CharOf(v: nat): (c: char)
    requires v < 32
    ensures InAlphabet(c)
  {
    if v < 26 then 'A' + v as char else '2' + (v - 26) as char
  }

  predicate InAlphabet(c: char) {
    'A' <= c <= 'Z' || '2' <= c <= '7'
  }

  function ValueOf(c: char): (v: nat)
    requires InAlphabet(c)
    ensures v < 32 && CharOf(v) == c
  {
    if 'A' <= c <= 'Z' then (c - 'A') as nat else (c - '2') as nat + 26
  }

  function Chars(vals: seq<nat>): (s: string)
    requires forall i :: 0 <= i < |vals| ==> vals[i] < 32
    ensures |s| == |vals| && forall i :: 0 <= i < |s| ==> s[i] == CharOf(vals[i])
  {
    seq(|vals|, i requires 0 <= i < |vals| => CharOf(vals[i]))
  }

  ghost predicate Alphabetic(s: string) {
    forall i :: 0 <= i < |s| ==> InAlphabet(s[i])
  }

  function Values(s: string): (vals: seq<nat>)
    requires Alphabetic(s)
    ensures |vals| == |s| && forall i :: 0 <= i < |s| ==> vals[i] == ValueOf(s[i]) && vals[i] < 32
  {
    seq(|s|, i requires 0 <= i < |s| => ValueOf(s[i]))
  }

  function Upper(c: char): char {
    if 'a' <= c <= 'z' then c - 'a' + 'A' else c
  }

  /** The input in upper case without the characters outside the alphabet. */
  function Cleaned(s: string): (t: string)
    ensures Alphabetic(t)
    ensures Alphabetic(s) ==> t == s
  {
    if s == "" then ""
    else
      var t := Cleaned(s[..|s| - 1]);
      if InAlphabet(Upper(s[|s| - 1])) then t + [Upper(s[|s| - 1])] else t
  }

  // ---- RFC 4648, section 6 -------------------------------------------------------------------------

  /** How many zero bits complete the last group of five. */
  function PadLength(n: nat): (p: nat)
    ensures p < 5 && n + p == 5 * ((n + 4) / 5)
  {
    if n % 5 == 0 then 0 else 5 - n % 5
  }

  function Padded(bits: seq<bool>): (p: seq<bool>)
    ensures |p| == 5 * ((|bits| + 4) / 5)
  {
    bits + Zeros(PadLength(|bits|))
  }

  /** The bit string of the bytes, filled with zeros to whole groups of five, one character a group. */
  function Encoded(bytes: seq<Byte>): string {
    GroupsFit(bytes);
    Chars(Chop(Padded(Unchop(bytes, 8)), 5))
  }

  /** The bit string of the characters, cut into bytes; bits that do not fill a byte are dropped. */
  function Decoded(s: string): seq<nat> {
    Chop(Unchop(Values(Cleaned(s)), 5), 8)
  }

  lemma GroupsFit(bytes: seq<Byte>)
    ensures var vals := Chop(Padded(Unchop(bytes, 8)), 5);
            Fit(vals, 5) && forall i :: 0 <= i < |vals| ==> vals[i] < 32
  {
    UnchopChop(Padded(Unchop(bytes, 8)), 5, (8 * |bytes| + 4) / 5);
    assert Pow2(5) == 32;
  }

  lemma BytesFit(bytes: seq<Byte>)
    ensures Fit(bytes, 8)
  {
    assert Pow2(8) == 256;
  }

  lemma {:induction false} ChopLength(bits: seq<bool>, w: nat)
    requires w == 5 || w == 8
    ensures |Chop(bits, w)| == |bits| / w
  {
    if |bits| >= w {
      ChopLength(bits[w..], w);
    }
  }

  lemma ValuesOfChars(vals: seq<nat>)
    requires forall i :: 0 <= i < |vals| ==> vals[i] < 32
    ensures Alphabetic(Chars(vals)) && Values(Cleaned(Chars(vals))) == vals
  {
    var s := Chars(vals);
    forall i | 0 <= i < |vals| ensures Values(s)[i] == vals[i] {
      assert CharOf(ValueOf(s[i])) == CharOf(vals[i]);
    }
  }

  /** Regrouping a whole number of bytes by fives and back drops just the padding. */
  lemma PaddingIsDropped(bits: seq<bool>, n: nat)
    requires |bits| == 8 * n
    ensures Chop(Unchop(Chop(Padded(bits), 5), 5), 8) == Chop(bits, 8)
  {
    var pad := Zeros(PadLength(|bits|));
    assert Padded(bits) == bits + pad;
    UnchopChop(Padded(bits), 5, (|bits| + 4) / 5);
    ChopSnoc(bits, pad, 8, n);
  }

  lemma DecodedGroups(vals: seq<nat>)
    requires forall i :: 0 <= i < |vals| ==> vals[i] < 32
    ensures Decoded(Chars(vals)) == Chop(Unchop(vals, 5), 8)
  {
    ValuesOfChars(vals);
  }

  lemma EncodedDecodes(bytes: seq<Byte>)
    ensures Decoded(Encoded(bytes)) == Chop(Unchop(Chop(Padded(Unchop(bytes, 8)), 5), 5), 8)
  {
    GroupsFit(bytes);
    DecodedGroups(Chop(Padded(Unchop(bytes, 8)), 5));
  }

  lemma ChopOfBytes(bytes: seq<Byte>)
    ensures Chop(Unchop(bytes, 8), 8) == bytes
  {
    BytesFit(bytes);
    ChopUnchop(bytes, 8);
  }

  /** Decoding undoes encoding for every byte buffer. */
  lemma RoundTrip(bytes: seq<Byte>)
    ensures Decoded(Encoded(bytes)) == bytes
  {
    EncodedDecodes(bytes);
    PaddingIsDropped(Unchop(bytes, 8), |bytes|);
    ChopOfBytes(bytes);
  }

  /** The encoding has ceil(8n / 5) characters, all of the alphabet. */
  lemma EncodedLength(bytes: seq<Byte>)
    ensures |Encoded(bytes)| == (8 * |bytes| + 4) / 5 && Alphabetic(Encoded(bytes))
  {
    GroupsFit(bytes);
    ChopLength(Padded(Unchop(bytes, 8)), 5);
  }

  /** The length of the whole bytes in n bits. */
  function WholeLength(n: nat): (m: nat)
    ensures m <= n < m + 8
  {
    8 * (n / 8)
  }

  /** Only alphabet characters, and after the last whole byte fewer than five bits, all zero. */
  ghost predicate Canonical(s: string) {
    Alphabetic(s) &&
    var bits := Unchop(Values(s), 5);
    var rest := bits[WholeLength(|bits|)..];
    |rest| < 5 && forall i :: 0 <= i < |rest| ==> !rest[i]
  }

  /** The bits of a string's characters, split after the last whole byte. */
  ghost function WholeBytes(s: string): (p: (seq<bool>, seq<bool>))
    ensures |p.1| < 8 && Unchop(Values(Cleaned(s)), 5) == p.0 + p.1
  {
    var bits := Unchop(Values(Cleaned(s)), 5);
    var n := WholeLength(|bits|);
    (bits[..n], bits[n..])
  }

  lemma DecodedBits(s: string)
    ensures Decoded(s) == Chop(WholeBytes(s).0, 8) && Unchop(Decoded(s), 8) == WholeBytes(s).0
    ensures forall i :: 0 <= i < |Decoded(s)| ==> Decoded(s)[i] < 256
  {
    var (whole, rest) := WholeBytes(s);
    var n := |Unchop(Values(Cleaned(s)), 5)| / 8;
    ChopSnoc(whole, rest, 8, n);
    UnchopChop(whole, 8, n);
    assert Pow2(8) == 256;
  }

  lemma PadIsUnique(n: nat, p: nat, groups: nat)
    requires p < 5 && n + p == 5 * groups
    ensures p == PadLength(n)
  {
  }

  lemma ZeroTails(n: nat, rest: seq<bool>, groups: nat)
    requires n + |rest| == 5 * groups
    ensures (|rest| < 5 && forall i :: 0 <= i < |rest| ==> !rest[i]) <==> rest == Zeros(PadLength(n))
  {
    if |rest| < 5 && forall i :: 0 <= i < |rest| ==> !rest[i] {
      ZerosAreZero(rest);
      PadIsUnique(n, |rest|, groups);
    }
  }

  lemma CanonicalRest(s: string)
    requires Alphabetic(s)
    ensures Canonical(s) <==> WholeBytes(s).1 == Zeros(PadLength(|WholeBytes(s).0|))
  {
    var (whole, rest) := WholeBytes(s);
    assert |whole| + |rest| == 5 * |s|;
    ZeroTails(|whole|, rest, |s|);
  }

  /** A string is the encoding of what it decodes to exactly when it is canonical. */
  lemma EncodingIsCanonical(s: string)
    requires Alphabetic(s)
    ensures forall i :: 0 <= i < |Decoded(s)| ==> Decoded(s)[i] < 256
    ensures Encoded(Decoded(s)) == s <==> Canonical(s)
  {
    var (whole, rest) := WholeBytes(s);
    DecodedBits(s);
    CanonicalRest(s);
    GroupsFit(Decoded(s));
    SameGroups(s, Chop(Padded(whole), 5));
    UnchopChop(Padded(whole), 5, (|whole| + 4) / 5);
    PaddingIsRest(whole, rest);
  }

  lemma PaddingIsRest(whole: seq<bool>, rest: seq<bool>)
    ensures Padded(whole) == whole + rest <==> rest == Zeros(PadLength(|whole|))
  {
    var pad := Zeros(PadLength(|whole|));
    assert (whole + rest)[|whole|..] == rest && (whole + pad)[|whole|..] == pad;
  }

  lemma SameGroups(s: string, groups: seq<nat>)
    requires Alphabetic(s) && forall i :: 0 <= i < |groups| ==> groups[i] < 32
    requires Fit(groups, 5)
    ensures Chars(groups) == s <==> Unchop(groups, 5) == Unchop(Values(s), 5)
  {
    ValuesOfChars(groups);
    assert Chars(Values(s)) == s;
    assert Pow2(5) == 32;
    ChopUnchop(groups, 5);
    ChopUnchop(Values(s), 5);
  }

  // ---- Numerals --------------------------------------------------------------------------------------

  const ALPHABET: string := "ABCDEFGHIJKLMNOPQRSTUVWXYZ234567"

  lemma CharOfAlphabet(v: nat)
    requires v < 32
    ensures |ALPHABET| == 32 && CharOf(v) == ALPHABET[v]
  {
    var a, b := "ABCDEFGHIJKLMNOP", "QRSTUVWXYZ234567";
    assert ALPHABET == a + b;
    if v < 16 {
      assert ALPHABET[v] == a[v];
    } else {
      assert ALPHABET[v] == b[v - 16];
    }
  }

  /** The number that digits write in a base, the most significant first. */
  function Numeral(digits: seq<nat>, base: nat): nat {
    if digits == [] then 0 else base * Numeral(digits[..|digits| - 1], base) + digits[|digits| - 1]
  }

  /** The digits of a text, each an index of its character in "ABCDEFGHIJKLMNOPQRSTUVWXYZ234567". */
  ghost predicate DigitsOf(s: string, digits: seq<nat>) {
    && |digits| == |s|
    && forall i :: 0 <= i < |s| ==> digits[i] < 32 && s[i] == "ABCDEFGHIJKLMNOPQRSTUVWXYZ234567"[digits[i]]
  }

  lemma BitsOfGroup(bits: seq<bool>, v: nat, w: nat, base: nat)
    requires v < Pow2(w) && base == Pow2(w)
    ensures FromBits(bits + ToBits(v, w)) == base * FromBits(bits) + v
  {
    FromBitsConcat(bits, ToBits(v, w));
    FromToBits(v, w);
    DoubledSum(FromBits(bits), base, v);
  }

  lemma {:induction false} BitsOfNumeral(vals: seq<nat>, w: nat, base: nat)
    requires Fit(vals, w) && base == Pow2(w)
    ensures FromBits(Unchop(vals, w)) == Numeral(vals, base)
  {
    if vals != [] {
      var init, last := vals[..|vals| - 1], vals[|vals| - 1];
      BitsOfNumeral(init, w, base);
      assert vals == init + [last];
      UnchopSnoc(init, last, w);
      BitsOfGroup(Unchop(init, w), last, w, base);
    }
  }

  lemma CharsHaveDigits(vals: seq<nat>)
    requires forall i :: 0 <= i < |vals| ==> vals[i] < 32
    ensures DigitsOf(Chars(vals), vals)
  {
    forall i | 0 <= i < |vals| ensures Chars(vals)[i] == "ABCDEFGHIJKLMNOPQRSTUVWXYZ234567"[vals[i]] {
      CharOfAlphabet(vals[i]);
    }
  }

  /**
   The encoding writes in base 32 the number that the bytes write in base 256, times the power of two that makes whole
   groups of five bits.
   */
  lemma EncodedIsNumeral(bytes: seq<Byte>) returns (digits: seq<nat>, pad: nat)
    ensures DigitsOf(Encoded(bytes), digits)
    ensures pad < 5 && 8 * |bytes| + pad == 5 * |digits|
    ensures Numeral(digits, 32) == Numeral(bytes, 256) * Pow2(pad)
  {
    var bits := Unchop(bytes, 8);
    digits, pad := Chop(Padded(bits), 5), PadLength(|bits|);
    GroupsFit(bytes);
    CharsHaveDigits(digits);
    EncodedLength(bytes);
    UnchopChop(Padded(bits), 5, (|bits| + 4) / 5);
    assert Pow2(5) == 32 && Pow2(8) == 256;
    BitsOfNumeral(digits, 5, 32);
    BytesFit(bytes);
    BitsOfNumeral(bytes, 8, 256);
    ZerosAreZero(Zeros(pad));
    FromBitsConcat(bits, Zeros(pad));
  }

  lemma TextHasDigits(s: string)
    requires Alphabetic(s)
    ensures DigitsOf(s, Values(s))
  {
    forall i | 0 <= i < |s| ensures s[i] == "ABCDEFGHIJKLMNOPQRSTUVWXYZ234567"[Values(s)[i]] {
      CharOfAlphabet(Values(s)[i]);
    }
  }

  /** Decoding writes in base 256 what the characters write in base 32, without the bits that fill no byte. */
  lemma DecodedIsNumeral(s: string) returns (digits: seq<nat>, rest: nat, dropped: nat)
    ensures DigitsOf(Cleaned(s), digits)
    ensures rest < 8 && 8 * |Decoded(s)| + rest == 5 * |digits|
    ensures dropped < Pow2(rest) && Numeral(digits, 32) == Numeral(Decoded(s), 256) * Pow2(rest) + dropped
  {
    digits := Values(Cleaned(s));
    TextHasDigits(Cleaned(s));
    var (whole, tail) := WholeBytes(s);
    rest, dropped := |tail|, FromBits(tail);
    DecodedBits(s);
    assert Pow2(5) == 32 && Pow2(8) == 256;
    BitsOfNumeral(digits, 5, 32);
    BitsOfNumeral(Decoded(s), 8, 256);
    FromBitsConcat(whole, tail);
    ToFromBits(tail);
  }

  /** Small letters count as capitals, and what is in no alphabet is passed over. */
  lemma CleanedSnoc(s: string, c: char)
    ensures Cleaned(s + [c]) == Cleaned(s) + if 'a' <= c <= 'z' then [(c as int - 32) as char]
                                             else if 'A' <= c <= 'Z' || '2' <= c <= '7' then [c] else []
  {
    assert (s + [c])[..|s|] == s;
  }

  // ---- The streaming forms -------------------------------------------------------------------------

  lemma Regroup(k: nat, q: nat, p: nat, d: nat, r: nat)
    ensures k * (q * p) + (d * q + r) == (k * p + d) * q + r
  {
  }

  lemma QuotientOfRemainder(n: nat, q: nat, p: nat)
    requires q > 0 && p > 0 && q * p > 0
    ensures n % (q * p) / q == n / q % p
  {
    var k, c := n / (q * p), n % (q * p);
    var d, r := c / q, c % q;
    Regroup(k, q, p, d, r);
    Quotient(n, q, k * p + d, r);
    ProductMonotone(p, d, q);
    Quotient(k * p + d, p, k, d);
  }

  lemma RemainderOfRemainder(x: nat, w: nat, t: nat)
    requires w > 0 && t > 0 && w * t > 0
    ensures x % (w * t) % w == x % w
  {
    var k, c := x / (w * t), x % (w * t);
    Regroup(k, w, t, c / w, c % w);
    Quotient(x, w, k * t + c / w, c % w);
  }

  lemma {:induction false} Pow2Sum(a: nat, b: nat)
    ensures Pow2(a + b) == Pow2(a) * Pow2(b)
  {
    if a > 0 {
      Pow2Sum(a - 1, b);
    }
  }

  lemma WordSize()
    ensures Pow2(32) == TWO32 && Pow2(8) == 256 && Pow2(5) == 32
  {
    assert Pow2(4) == 16 && Pow2(5) == 2 * Pow2(4);
    Pow2Sum(4, 4);
    Pow2Sum(8, 8);
    Pow2Sum(16, 16);
  }

  lemma WordFactors(q: nat, w: nat)
    requires q + w <= 32
    ensures var p := Pow2(w) * Pow2(32 - w - q);
            p > 0 && Pow2(q) * p == TWO32
  {
    Pow2Sum(q, 32 - q);
    Pow2Sum(w, 32 - w - q);
    WordSize();
  }

  lemma FactoredWindow(n: nat, q: nat, w: nat, t: nat)
    requires q > 0 && w > 0 && t > 0 && w * t > 0 && q * (w * t) == TWO32
    ensures n % TWO32 / q % w == n / q % w
  {
    QuotientOfRemainder(n, q, w * t);
    RemainderOfRemainder(n / q, w, t);
  }

  /** Cutting a number to a word does not touch a window of w bits that ends q bits before its low end. */
  lemma WordWindow(n: nat, q: nat, w: nat)
    requires q + w <= 32
    ensures n % TWO32 / Pow2(q) % Pow2(w) == n / Pow2(q) % Pow2(w)
  {
    WordFactors(q, w);
    FactoredWindow(n, Pow2(q), Pow2(w), Pow2(32 - w - q));
  }

  /** A window of a bit string is read off the word that holds the string's value. */
  lemma ReadWindow(x: seq<bool>, y: seq<bool>, z: seq<bool>)
    requires |y| + |z| <= 32
    ensures FromBits(x + y + z) % TWO32 / Pow2(|z|) % Pow2(|y|) == FromBits(y)
  {
    WordWindow(FromBits(x + y + z), |z|, |y|);
    FromBitsConcat(x + y, z);
    FromBitsConcat(x, y);
    ToFromBits(z);
    ToFromBits(y);
    Quotient(FromBits(x + y + z), Pow2(|z|), FromBits(x + y), FromBits(z));
    Quotient(FromBits(x + y), Pow2(|y|), FromBits(x), FromBits(y));
  }

  lemma ShiftWordByFive(a: nat, b: nat)
    requires b < 32
    ensures (a * 32 + b) % TWO32 == a % TWO32 * 32 % TWO32 + b
  {
    var d, e := a / 0x800_0000, a % 0x800_0000;
    Quotient(a * 32 + b, TWO32, d, e * 32 + b);
    Quotient(a % TWO32 * 32, TWO32, d - 32 * (a / TWO32), e * 32);
  }

  lemma ShiftWordByEight(a: nat, b: nat)
    requires b < 256
    ensures (a * 256 + b) % TWO32 == a % TWO32 * 256 % TWO32 + b
  {
    var d, e := a / 0x100_0000, a % 0x100_0000;
    Quotient(a * 256 + b, TWO32, d, e * 256 + b);
    Quotient(a % TWO32 * 256, TWO32, d - 256 * (a / TWO32), e * 256);
  }

  /** Shifting a word left by five or eight bits and filling in a group is exact on the low 32 bits. */
  lemma ShiftWord(a: nat, p: nat, b: nat)
    requires (p == 32 || p == 256) && b < p
    ensures (a * p + b) % TWO32 == a % TWO32 * p % TWO32 + b
  {
    if p == 32 {
      ShiftWordByFive(a, b);
    } else {
      ShiftWordByEight(a, b);
    }
  }

  lemma PadOfGroups(n: nat, r: nat)
    requires r < 5
    ensures PadLength(5 * n + r) == if r == 0 then 0 else 5 - r
  {
  }

  /** Of the bits read so far, `done` are in n whole groups; the next group is read off the word. */
  lemma NextGroup(done: seq<bool>, pending: seq<bool>, w: nat, n: nat)
    requires WholeGroups(done, w, n)
    requires w <= |pending| <= 32
    ensures var v := FromBits(done + pending) % TWO32 / Pow2(|pending| - w) % Pow2(w);
            && v < Pow2(w)
            && Chop(done + pending[..w], w) == Chop(done, w) + [v]
    ensures (done + pending[..w]) + pending[w..] == done + pending
  {
    var y, z := pending[..w], pending[w..];
    assert done + y + z == done + pending;
    ReadWindow(done, y, z);
    ChopSnoc(done, y, w, n);
    ToFromBits(y);
  }

  lemma PaddedIsFull(done: seq<bool>, pending: seq<bool>, n: nat)
    requires 0 < |pending| < 5 && |done| == 5 * n
    ensures Padded(done + pending) == done + (pending + Zeros(5 - |pending|)) == (done + pending) + Zeros(5 - |pending|)
  {
    PadOfGroups(n, |pending|);
  }

  lemma LastGroup(done: seq<bool>, pending: seq<bool>, n: nat)
    requires 0 < |pending| < 5 && |done| == 5 * n
    ensures var v := FromBits(done + pending) % TWO32 * Pow2(5 - |pending|) % TWO32 % 32;
            v < 32 && Chop(Padded(done + pending), 5) == Chop(done, 5) + [v]
  {
    var full := pending + Zeros(5 - |pending|);
    PaddedIsFull(done, pending, n);
    NextGroup(done, full, 5, n);
    assert full[..5] == full;
    LastIndex(done + pending, 5 - |pending|);
  }

  lemma LastIndex(bits: seq<bool>, n: nat)
    requires n < 5
    ensures FromBits(bits) % TWO32 * Pow2(n) % TWO32 % 32 == FromBits(bits + Zeros(n)) % TWO32 / Pow2(0) % Pow2(5)
  {
    FromBitsConcat(bits, Zeros(n));
    ZerosAreZero(Zeros(n));
    ShiftedLow(FromBits(bits), Pow2(n));
    assert FromBits(bits + Zeros(n)) == FromBits(bits) * Pow2(n);
    assert Pow2(0) == 1 && Pow2(5) == 32;
  }

  lemma ShiftedLow(a: nat, p: nat)
    ensures a % TWO32 * p % TWO32 == a * p % TWO32
  {
    var k, c := a / TWO32, a % TWO32;
    assert a * p == (k * p + c * p / TWO32) * TWO32 + c * p % TWO32 by {
      assert a * p == (k * p) * TWO32 + c * p;
    }
    Quotient(a * p, TWO32, k * p + c * p / TWO32, c * p % TWO32);
  }

  lemma CharsSnoc(vals: seq<nat>, v: nat)
    requires v < 32 && forall i :: 0 <= i < |vals| ==> vals[i] < 32
    ensures Chars(vals + [v]) == Chars(vals) + [CharOf(v)]
  {
  }

  /** The word holds the low 32 bits of a bit string's value. */
  ghost predicate Holds(word: nat, bits: seq<bool>) {
    word == FromBits(bits) % TWO32
  }

  /** Shifting the next group of w bits into the word. */
  method ShiftIn(word: nat, w: nat, group: nat, ghost vals: seq<nat>, ghost i: nat, ghost done: seq<bool>,
                 ghost pending: seq<bool>)
    returns (word': nat, ghost pending': seq<bool>)
    requires (w == 5 || w == 8) && i < |vals| && group == vals[i] < (if w == 5 then 32 else 256)
    requires done + pending == Unchop(vals[..i], w) && Holds(word, done + pending)
    ensures |pending'| == |pending| + w && pending <= pending'
    ensures done + pending' == Unchop(vals[..i + 1], w) && Holds(word', done + pending')
  {
    WordSize();
    FromToBits(group, w);
    FromBitsConcat(done + pending, ToBits(group, w));
    ShiftWord(FromBits(done + pending), Pow2(w), group);
    UnchopNext(vals, i, w, done, pending);
    word' := word * Pow2(w) % TWO32 + group;
    pending' := pending + ToBits(group, w);
  }

  /** Reading the first w of the pending bits off the word. */
  method ReadGroup(word: nat, w: nat, bits: nat, ghost done: seq<bool>, ghost pending: seq<bool>, ghost n: nat)
    returns (group: nat)
    requires WholeGroups(done, w, n)
    requires w <= bits == |pending| <= 32 && Holds(word, done + pending)
    ensures group < if w == 5 then 32 else 256
    ensures Chop(done + pending[..w], w) == Chop(done, w) + [group]
    ensures (done + pending[..w]) + pending[w..] == done + pending
  {
    WordSize();
    NextGroup(done, pending, w, n);
    group := word / Pow2(bits - w) % Pow2(w);
  }

  lemma UnchopNext(vals: seq<nat>, i: nat, w: nat, done: seq<bool>, pending: seq<bool>)
    requires i < |vals| && done + pending == Unchop(vals[..i], w)
    ensures done + (pending + ToBits(vals[i], w)) == Unchop(vals[..i + 1], w)
    ensures (done + pending) + ToBits(vals[i], w) == done + (pending + ToBits(vals[i], w))
  {
    assert vals[..i + 1] == vals[..i] + [vals[i]];
    UnchopSnoc(vals[..i], vals[i], w);
  }

  /** The characters so far are those of the bits `done`; the pending bits are in the word. */
  ghost predicate EncodedSoFar(all: seq<bool>, value: nat, bits: nat, output: string, done: seq<bool>,
                               pending: seq<bool>, groups: seq<nat>) {
    && done + pending == all && Holds(value, all)
    && |done| == 5 * |groups| && bits == |pending|
    && groups == Chop(done, 5) && (forall k :: 0 <= k < |groups| ==> groups[k] < 32)
    && output == Chars(groups)
  }

  /** Five pending bits become a character. */
  method EmitGroup(value: nat, bits: nat, output: string, ghost all: seq<bool>, ghost done: seq<bool>,
                   ghost pending: seq<bool>, ghost groups: seq<nat>)
    returns (output': string, ghost done': seq<bool>, ghost pending': seq<bool>, ghost groups': seq<nat>)
    requires EncodedSoFar(all, value, bits, output, done, pending, groups) && 5 <= bits <= 32
    ensures EncodedSoFar(all, value, bits - 5, output', done', pending', groups')
  {
    var index := ReadGroup(value, 5, bits, done, pending, |groups|);
    CharsSnoc(groups, index);
    output' := output + [CharOf(index)];
    done', pending', groups' := done + pending[..5], pending[5..], groups + [index];
  }

  /** The streaming encoder, whose word wraps around, produces the encoding of the whole bit string. */
  method Encode(buffer: seq<Byte>) returns (output: string)
    ensures output == Encoded(buffer)
  {
    var bits, value := 0, 0;
    output := "";
    ghost var done, pending: seq<bool> := [], [];
    ghost var groups: seq<nat> := [];
    for i := 0 to |buffer|
      invariant EncodedSoFar(Unchop(buffer[..i], 8), value, bits, output, done, pending, groups) && bits < 5
    {
      value, pending := ShiftIn(value, 8, buffer[i], buffer, i, done, pending);
      bits := bits + 8;
      while bits >= 5
        invariant EncodedSoFar(Unchop(buffer[..i + 1], 8), value, bits, output, done, pending, groups) && bits <= 12
      {
        output, done, pending, groups := EmitGroup(value, bits, output, Unchop(buffer[..i + 1], 8), done, pending,
                                                   groups);
        bits := bits - 5;
      }
    }
    assert buffer[..|buffer|] == buffer;
    GroupsFit(buffer);
    output := Flush(output, bits, value, done, pending, groups);
  }

  /** The last, incomplete group is filled with zeros. */
  method Flush(output: string, bits: nat, value: nat, ghost done: seq<bool>, ghost pending: seq<bool>,
               ghost groups: seq<nat>)
    returns (flushed: string)
    requires |done| == 5 * |groups| && bits == |pending| < 5 && Holds(value, done + pending)
    requires groups == Chop(done, 5) && forall k :: 0 <= k < |groups| ==> groups[k] < 32
    requires output == Chars(groups)
    ensures var vals := Chop(Padded(done + pending), 5);
            (forall k :: 0 <= k < |vals| ==> vals[k] < 32) && flushed == Chars(vals)
  {
    flushed := output;
    PadOfGroups(|groups|, bits);
    if bits > 0 {
      LastGroup(done, pending, |groups|);
      var index: nat := value * Pow2(5 - bits) % TWO32 % 32;
      CharsSnoc(groups, index);
      flushed := flushed + [CharOf(index)];
    } else {
      assert Padded(done + pending) == done;
    }
  }

  /** Bits that do not fill a byte are dropped. */
  lemma LeftoverBits(done: seq<bool>, pending: seq<bool>, n: nat)
    requires |done| == 8 * n && |pending| < 8
    ensures Chop(done + pending, 8) == Chop(done, 8)
  {
    ChopSnoc(done, pending, 8, n);
  }

  /** The bytes so far are those of the bits `done`; the pending bits are in the word. */
  ghost predicate DecodedSoFar(all: seq<bool>, value: nat, bits: nat, bytes: seq<Byte>, done: seq<bool>,
                               pending: seq<bool>) {
    && done + pending == all && Holds(value, all)
    && |done| == 8 * |bytes| && bits == |pending| && bytes == Chop(done, 8)
  }

  /** Eight pending bits become a byte. */
  method EmitByte(value: nat, bits: nat, bytes: seq<Byte>, ghost all: seq<bool>, ghost done: seq<bool>,
                  ghost pending: seq<bool>)
    returns (bytes': seq<Byte>, ghost done': seq<bool>, ghost pending': seq<bool>)
    requires DecodedSoFar(all, value, bits, bytes, done, pending) && 8 <= bits <= 32
    ensures DecodedSoFar(all, value, bits - 8, bytes', done', pending')
  {
    var b: Byte := ReadGroup(value, 8, bits, done, pending, |bytes|);
    bytes', done', pending' := bytes + [b], done + pending[..8], pending[8..];
  }

  /** The streaming decoder produces the bytes of the whole bit string. */
  method Decode(input: string) returns (bytes: seq<Byte>)
    ensures bytes == Decoded(input)
  {
    var cleaned := Cleaned(input);
    var bits, value := 0, 0;
    bytes := [];
    ghost var vals := Values(cleaned);
    ghost var done, pending: seq<bool> := [], [];
    for i := 0 to |cleaned|
      invariant DecodedSoFar(Unchop(vals[..i], 5), value, bits, bytes, done, pending) && bits < 8
    {
      value, pending := ShiftIn(value, 5, ValueOf(cleaned[i]), vals, i, done, pending);
      bits := bits + 5;
      if bits >= 8 {
        bytes, done, pending := EmitByte(value, bits, bytes, done + pending, done, pending);
        bits := bits - 8;
      }
    }
    assert vals[..|vals|] == vals;
    LeftoverBits(done, pending, |bytes|);
  }
}
