/** The numbers of RFC 1951 that decoder and encoder share, fixed by the rules of its sections 3.2.2, 3.2.6 and 3.2.7. */
module DeflateNumbers {
  import opened Arithmetic
  import opened Wrappers
  import opened Bytes
  import opened BitStream
  import opened Huffman
  import opened Inflate
  import opened Deflate

  // ----- Dynamic headers (section 3.2.7) -----

  /** Where the length of code length symbol j is sent: 16, 17, 18, 0, then outwards from 8: 8, 7, 9, 6, 10, and so on. */
  ghost function ClenPosition(j: nat): nat
    requires j < 19
  {
    if j >= 16 then j - 16 else if j == 0 then 3 else if j >= 8 then 2 * j - 12 else 19 - 2 * j
  }

  lemma {:induction false} ClenPositionOrder(j: nat)
    requires j < 19
    ensures ClenPosition(j) < 19 && CLEN_ORDER[ClenPosition(j)] == j
  {}

  lemma {:induction false} ClenOrderDistinct(j: nat, i: nat)
    requires j < 19 && i < 19 && CLEN_ORDER[i] == j
    ensures i == ClenPosition(j)
  {}

  /** The code length code as sent: each symbol's length is read from its position, those not sent are 0. */
  lemma {:induction false} ClenPlaced(b: Bits, n: nat, j: nat)
    requires n <= 19 && 3 * n <= |b| && j < 19
    ensures var at := ClenPosition(j);
      ClenFrom(b, n)[j] == if at < n then Value(b[3 * at..3 * at + 3]) else 0
  {
    hide Value, CLEN_ORDER;
    if n > 0 {
      ClenPlaced(b, n - 1, j);
      ClenOrderBound(n);
      ClenPositionOrder(j);
      if CLEN_ORDER[n - 1] == j { ClenOrderDistinct(j, n - 1); }
    }
  }

  /** Symbol 16 repeats the previous length 3 to 6 times, 17 sends 3 to 10 zeros, 18 sends 11 to 138 zeros. */
  lemma {:induction false} RepeatCodes(sym: nat, lens: seq<nat>, b: Bits)
    requires 16 <= sym <= 18 && RunOf(sym, lens, b).Ok?
    ensures var (length, times, rest) := RunOf(sym, lens, b).value;
      var n := |b| - |rest|;
      && n == (if sym == 16 then 2 else if sym == 17 then 3 else 7) && rest == b[n..]
      && (sym == 16 ==> lens != [] && length == lens[|lens| - 1] && times == 3 + Value(b[..n]) <= 6)
      && (sym == 17 ==> length == 0 && times == 3 + Value(b[..n]) <= 10)
      && (sym == 18 ==> length == 0 && times == 11 + Value(b[..n]) <= 138)
  {
    hide Value;
    PowersTo13();
    var n := if sym == 16 then 2 else if sym == 17 then 3 else 7;
    ValueBound(b[..n]);
  }

  /** The sizes of both tables, from the first two five-bit fields. */
  lemma {:induction false} TableSizes(b: Bits)
    requires DynamicHeader(b).Ok?
    ensures |b| >= 14 && var (_, lit, dist) := DynamicHeader(b).value;
      |lit| == 257 + Value(b[..5]) <= 286 && |dist| == 1 + Value(b[5..10]) <= 30
  {
    hide Value, Tables, ClenFrom;
  }

  // ----- Canonical codes (section 3.2.2) -----

  /** Codes are given out by length, then by symbol: u comes before s. */
  ghost predicate Earlier(lengths: seq<nat>, u: nat, s: nat)
    requires u < |lengths| && s < |lengths|
  {
    lengths[u] < lengths[s] || (lengths[u] == lengths[s] && u < s)
  }

  lemma {:induction false} NoneWith(lengths: seq<nat>, l: nat, n: nat)
    requires n <= |lengths| && forall u :: 0 <= u < n ==> lengths[u] != l
    ensures SymsWith(lengths, l, n) == []
  {
    if n > 0 { NoneWith(lengths, l, n - 1); }
  }

  lemma {:induction false} NoneBetween(lengths: seq<nat>, l: nat, m: nat, n: nat)
    requires m <= n <= |lengths| && forall u :: m <= u < n ==> lengths[u] != l
    ensures SymsWith(lengths, l, n) == SymsWith(lengths, l, m)
  {
    if m < n { NoneBetween(lengths, l, m, n - 1); }
  }

  lemma {:induction false} UnusedLengths(lengths: seq<nat>, l: nat, k: nat)
    requires 1 <= l <= k && forall u :: 0 <= u < |lengths| ==> !(l <= lengths[u] < k)
    ensures First(lengths, k) == Pow2(k - l) * First(lengths, l)
  {
    hide Count, SymsWith;
    if l < k {
      UnusedLengths(lengths, l, k - 1);
      NoCount(lengths, k - 1);
      Doubling(Pow2(k - 1 - l), First(lengths, l));
    }
  }

  lemma {:induction false} NoCount(lengths: seq<nat>, l: nat)
    requires forall u :: 0 <= u < |lengths| ==> lengths[u] != l
    ensures Count(lengths, l) == 0
  {
    NoneWith(lengths, l, |lengths|);
  }

  lemma {:induction false} Doubling(p: nat, f: nat)
    ensures 2 * (p * f) == 2 * p * f
  {}

  /** The first symbol in order has the code 0. */
  lemma {:induction false} FirstCode(lengths: seq<nat>, s: nat)
    requires HasCode(lengths, s)
    requires forall u :: 0 <= u < |lengths| && lengths[u] > 0 && u != s ==> Earlier(lengths, s, u)
    ensures Code(lengths, s) == 0
  {
    hide First, SymsWith;
    UnusedLengths(lengths, 1, lengths[s]);
    FirstOfLength(lengths, s);
    FirstOfOne(lengths);
  }

  lemma {:induction false} FirstOfOne(lengths: seq<nat>)
    ensures First(lengths, 1) == 0
  {}

  /**
   * The next symbol in order has the next code, with zeros appended when it is longer. With FirstCode this determines every
   * code.
   */
  lemma {:induction false} NextCode(lengths: seq<nat>, s: nat, t: nat)
    requires HasCode(lengths, s) && HasCode(lengths, t) && Earlier(lengths, s, t)
    requires forall u :: 0 <= u < |lengths| && lengths[u] > 0 && u != s && u != t ==>
      Earlier(lengths, u, s) || Earlier(lengths, t, u)
    ensures Code(lengths, t) == Pow2(lengths[t] - lengths[s]) * (Code(lengths, s) + 1)
  {
    hide First, SymsWith, Pow2, Code;
    if lengths[s] == lengths[t] {
      NextOfLength(lengths, s, t);
      PowerZero();
    } else {
      NextLonger(lengths, s, t);
    }
  }

  lemma {:induction false} NextOfLength(lengths: seq<nat>, s: nat, t: nat)
    requires HasCode(lengths, s) && HasCode(lengths, t) && lengths[s] == lengths[t] && s < t
    requires forall u :: s < u < t ==> lengths[u] != lengths[s]
    ensures Code(lengths, t) == Code(lengths, s) + 1
  {
    hide First, SymsWith;
    AfterOne(lengths, s);
    NoneBetween(lengths, lengths[s], s + 1, t);
  }

  lemma {:induction false} NextLonger(lengths: seq<nat>, s: nat, t: nat)
    requires HasCode(lengths, s) && HasCode(lengths, t) && lengths[s] < lengths[t]
    requires forall u :: 0 <= u < |lengths| ==> !(lengths[s] < lengths[u] < lengths[t])
    requires forall u :: s < u < |lengths| ==> lengths[u] != lengths[s]
    requires forall u :: 0 <= u < t ==> lengths[u] != lengths[t]
    ensures Code(lengths, t) == Pow2(lengths[t] - lengths[s]) * (Code(lengths, s) + 1)
  {
    hide First, Count, Code, Pow2;
    var l, k := lengths[s], lengths[t];
    LastOfLength(lengths, s);
    FirstOfLength(lengths, t);
    UnusedLengths(lengths, l + 1, k);
    FirstNext(lengths, l);
    PowerStep(k - l);
    Doubling(Pow2(k - l - 1), Code(lengths, s) + 1);
  }

  lemma {:induction false} LastOfLength(lengths: seq<nat>, s: nat)
    requires HasCode(lengths, s) && forall u :: s < u < |lengths| ==> lengths[u] != lengths[s]
    ensures First(lengths, lengths[s]) + Count(lengths, lengths[s]) == Code(lengths, s) + 1
  {
    hide First, SymsWith;
    AfterOne(lengths, s);
    NoneBetween(lengths, lengths[s], s + 1, |lengths|);
  }

  lemma {:induction false} FirstOfLength(lengths: seq<nat>, t: nat)
    requires HasCode(lengths, t) && forall u :: 0 <= u < t ==> lengths[u] != lengths[t]
    ensures Code(lengths, t) == First(lengths, lengths[t])
  {
    hide First, SymsWith;
    NoneWith(lengths, lengths[t], t);
  }

  lemma {:induction false} AfterOne(lengths: seq<nat>, s: nat)
    requires s < |lengths|
    ensures SymsWith(lengths, lengths[s], s + 1) == SymsWith(lengths, lengths[s], s) + [s]
  {}

  lemma {:induction false} PowerStep(n: nat)
    requires n > 0
    ensures Pow2(n) == 2 * Pow2(n - 1)
  {}

  // ----- The fixed codes (section 3.2.6) -----

  function AtMost(x: int, m: nat): nat { if x < 0 then 0 else if x > m then m else x }

  lemma {:induction false} FixedRank(n: nat)
    requires n <= 288
    ensures |SymsWith(FixedLit(), 7, n)| == AtMost(n - 256, 24)
    ensures |SymsWith(FixedLit(), 8, n)| == AtMost(n, 144) + AtMost(n - 280, 8)
    ensures |SymsWith(FixedLit(), 9, n)| == AtMost(n - 144, 112)
    ensures forall l :: 1 <= l < 7 ==> SymsWith(FixedLit(), l, n) == []
  {
    if n > 0 { FixedRank(n - 1); }
  }

  lemma {:induction false} FixedFirst(l: nat)
    requires 1 <= l <= 9
    ensures First(FixedLit(), l) == if l <= 7 then 0 else if l == 8 then 48 else 400
  {
    hide SymsWith, FixedLit;
    FixedRank(288);
    FixedSize();
    if l > 1 { FixedFirst(l - 1); }
  }

  lemma {:induction false} FixedSize()
    ensures |FixedLit()| == 288 && |FixedDist()| == 30
  {}

  /**
   * Literals 0 to 143 have the eight-bit codes 00110000 to 10111111, literals 144 to 255 the nine-bit codes 110010000 to
   * 111111111, symbols 256 to 279 the seven-bit codes 0000000 to 0010111, symbols 280 to 287 the eight-bit codes 11000000
   * to 11000111.
   */
  lemma {:induction false} FixedCodes(s: nat)
    requires s < 288
    ensures HasCode(FixedLit(), s)
    ensures s < 144 ==> FixedLit()[s] == 8 && Code(FixedLit(), s) == 48 + s
    ensures 144 <= s < 256 ==> FixedLit()[s] == 9 && Code(FixedLit(), s) == 400 + (s - 144)
    ensures 256 <= s < 280 ==> FixedLit()[s] == 7 && Code(FixedLit(), s) == s - 256
    ensures 280 <= s ==> FixedLit()[s] == 8 && Code(FixedLit(), s) == 192 + (s - 280)
  {
    hide SymsWith, First;
    FixedRank(s);
    FixedFirst(FixedLit()[s]);
  }

  /** Distance symbols have their own five bits as codes. */
  lemma {:induction false} FixedDistanceCodes(s: nat)
    requires s < 30
    ensures HasCode(FixedDist(), s) && FixedDist()[s] == 5 && Code(FixedDist(), s) == s
  {
    hide First;
    FixedDistanceRank(s);
    UnusedLengths(FixedDist(), 1, 5);
    FirstOfOne(FixedDist());
  }

  lemma {:induction false} FixedDistanceRank(n: nat)
    requires n <= 30
    ensures |SymsWith(FixedDist(), 5, n)| == n
  {
    if n > 0 { FixedDistanceRank(n - 1); }
  }

  // ----- The output -----

  /** A back-reference repeats what lies `distance` back, its own bytes included, and keeps what was there. */
  lemma {:induction false} CopyBackRepeats(out: seq<byte>, distance: nat, n: nat, i: nat)
    requires 1 <= distance <= |out| && i < |out| + n
    ensures var r := CopyBack(out, distance, n);
      |r| == |out| + n && r[i] == if i < |out| then out[i] else r[i - distance]
    decreases n
  {
    if n > 0 {
      var next := out + [out[|out| - distance]];
      CopyBackRepeats(next, distance, n - 1, i);
      if i == |out| { CopyBackRepeats(next, distance, n - 1, i - distance); }
    }
  }

  // ----- A stream by its bytes -----

  /** Codes are packed most significant bit first: the low bits of the number, turned round. */
  lemma {:induction false} CodesTurnedRound(c: nat, n: nat, i: nat)
    requires i < n
    ensures HighBits(c, n)[i] == LowBits(c, n)[n - 1 - i]
  {
    hide LowBits, HighBits, Pow2;
    LowBitsSnoc(c, n);
    HighBitsCons(c, n);
    if i > 0 { CodesTurnedRound(c % Pow2(n - 1), n - 1, i - 1); }
  }

  lemma {:induction false} HighBitsCons(c: nat, n: nat)
    requires n > 0
    ensures HighBits(c, n) == [c / Pow2(n - 1) % 2 == 1] + HighBits(c % Pow2(n - 1), n - 1)
  {}

  lemma {:induction false} LowBitsSnoc(v: nat, n: nat)
    requires n > 0
    ensures LowBits(v, n) == LowBits(v % Pow2(n - 1), n - 1) + [v / Pow2(n - 1) % 2 == 1]
  {
    if n > 1 {
      var p := Pow2(n - 2);
      LowBitsSnoc(v / 2, n - 1);
      HalfOfRest(v, p);
      assert LowBits(v % (2 * p), n - 1) == [v % (2 * p) % 2 == 1] + LowBits(v % (2 * p) / 2, n - 2);
    }
  }

  lemma {:induction false} HalfOfRest(v: nat, p: nat)
    requires p > 0
    ensures v % (2 * p) % 2 == v % 2 && v % (2 * p) / 2 == v / 2 % p && v / (2 * p) == v / 2 / p
  {
    var q, r, b := v / 2 / p, v / 2 % p, v % 2;
    assert v / 2 == q * p + r;
    assert v == q * (2 * p) + (2 * r + b);
    Quotient(v, 2 * p, q, 2 * r + b);
  }

  function Bit(b: bool): nat { if b then 1 else 0 }

  /** The number with these eight bits, least significant first. */
  function Eight(b: Bits): nat
    requires |b| == 8
  {
    Bit(b[0]) + 2 * Bit(b[1]) + 4 * Bit(b[2]) + 8 * Bit(b[3])
    + 16 * Bit(b[4]) + 32 * Bit(b[5]) + 64 * Bit(b[6]) + 128 * Bit(b[7])
  }

  /** Eight bits, least significant first. */
  lemma {:induction false} LowBitsOfEight(v: nat, b: Bits)
    requires |b| == 8 && v == Eight(b)
    ensures LowBits(v, 8) == b
  {
    hide Value, LowBits;
    ValueFrom(b, 0); ValueFrom(b, 1); ValueFrom(b, 2); ValueFrom(b, 3);
    ValueFrom(b, 4); ValueFrom(b, 5); ValueFrom(b, 6); ValueFrom(b, 7);
    assert b[0..] == b;
    LowBitsOfValue(b);
  }

  lemma {:induction false} ValueFrom(b: Bits, i: nat)
    requires i < |b|
    ensures Value(b[i..]) == Bit(b[i]) + 2 * Value(b[i + 1..])
    ensures i + 1 == |b| ==> Value(b[i + 1..]) == 0
  {
    assert b[i..][1..] == b[i + 1..];
  }

  /** Shorter fields are the first of the eight bits. */
  lemma {:induction false} LowBitsPrefix(v: nat, m: nat, n: nat)
    requires m <= n
    ensures LowBits(v, m) == LowBits(v, n)[..m]
  {
    if m > 0 { LowBitsPrefix(v / 2, m - 1, n - 1); }
  }

  lemma {:induction false} SampleBits()
    ensures BytesToBits([0x4b, 0x4c, 0x42, 0x82, 0x00]) ==
      [true, true, false] +
      [true, false, false, true, false, false, false, true] +
      [true, false, false, true, false, false, true, false] +
      [false, false, false, true, false, false, true] +
      [false] +
      [false, false, false, false, true] +
      [false, false, false, false, false, false, false] +
      [false]
  {
    hide LowBits, BytesToBits;
    SampleBytes();
    FiveBytes([0x4b, 0x4c, 0x42, 0x82, 0x00]);
    SampleFields();
  }

  lemma {:induction false} SampleFields()
    ensures
      [true, true, false, true, false, false, true, false] +
      [false, false, true, true, false, false, true, false] +
      [false, true, false, false, false, false, true, false] +
      [false, true, false, false, false, false, false, true] +
      [false, false, false, false, false, false, false, false] ==
      [true, true, false] +
      [true, false, false, true, false, false, false, true] +
      [true, false, false, true, false, false, true, false] +
      [false, false, false, true, false, false, true] +
      [false] +
      [false, false, false, false, true] +
      [false, false, false, false, false, false, false] +
      [false]
  {}

  lemma {:induction false} SampleBytes()
    ensures LowBits(0x4b, 8) == [true, true, false, true, false, false, true, false]
    ensures LowBits(0x4c, 8) == [false, false, true, true, false, false, true, false]
    ensures LowBits(0x42, 8) == [false, true, false, false, false, false, true, false]
    ensures LowBits(0x82, 8) == [false, true, false, false, false, false, false, true]
    ensures LowBits(0, 8) == [false, false, false, false, false, false, false, false]
  {
    hide LowBits;
    LowBitsOfEight(0x4b, [true, true, false, true, false, false, true, false]);
    LowBitsOfEight(0x4c, [false, false, true, true, false, false, true, false]);
    LowBitsOfEight(0x42, [false, true, false, false, false, false, true, false]);
    LowBitsOfEight(0x82, [false, true, false, false, false, false, false, true]);
    LowBitsOfEight(0, [false, false, false, false, false, false, false, false]);
  }

  lemma {:induction false} FiveBytes(d: seq<byte>)
    requires |d| == 5
    ensures BytesToBits(d) == LowBits(d[0], 8) + LowBits(d[1], 8) + LowBits(d[2], 8) + LowBits(d[3], 8) + LowBits(d[4], 8)
  {
    hide LowBits, BytesToBits;
    assert d[0..] == d;
    FirstByteBits(d, 0); FirstByteBits(d, 1); FirstByteBits(d, 2); FirstByteBits(d, 3); FirstByteBits(d, 4);
    NoBytes(d[5..]);
  }

  /** 'a', 'b', and a match of length 11 two bytes back. */
  ghost const SAMPLE: seq<Token> := [Literal(97), Literal(98), Match(11, 2)]

  lemma {:induction false} SampleExpands()
    ensures TokensOk(SAMPLE, []) && Expand(SAMPLE, []) == [97, 98, 97, 98, 97, 98, 97, 98, 97, 98, 97, 98, 97]
  {
    hide CopyBack;
    var out: seq<byte> := [97, 98];
    var last := [Match(11, 2)];
    MatchExpands(11, 2, out);
    assert [] + [97] == [97] && [97] + [98] == out;
    LiteralExpands(98, last, [97]);
    assert SAMPLE == [Literal(97)] + ([Literal(98)] + last);
    LiteralExpands(97, [Literal(98)] + last, []);
    hide Expand, TokensOk;
    SampleCopies(out);
  }

  lemma {:induction false} LiteralExpands(b: byte, rest: seq<Token>, out: seq<byte>)
    requires TokensOk(rest, out + [b])
    ensures TokensOk([Literal(b)] + rest, out) && Expand([Literal(b)] + rest, out) == Expand(rest, out + [b])
  {
    assert ([Literal(b)] + rest)[1..] == rest;
  }

  lemma {:induction false} MatchExpands(length: nat, distance: nat, out: seq<byte>)
    requires TokenOk(Match(length, distance), |out|)
    ensures TokensOk([Match(length, distance)], out) && Expand([Match(length, distance)], out) == CopyBack(out, distance, length)
  {
    assert [Match(length, distance)][1..] == [];
  }

  lemma {:induction false} SampleCopies(out: seq<byte>)
    requires |out| == 2
    ensures CopyBack(out, 2, 11) == out + out + out + out + out + out + [out[0]]
  {
    hide CopyBack;
    CopyBackRepeats(out, 2, 11, 0); CopyBackRepeats(out, 2, 11, 1); CopyBackRepeats(out, 2, 11, 2);
    CopyBackRepeats(out, 2, 11, 3); CopyBackRepeats(out, 2, 11, 4); CopyBackRepeats(out, 2, 11, 5);
    CopyBackRepeats(out, 2, 11, 6); CopyBackRepeats(out, 2, 11, 7); CopyBackRepeats(out, 2, 11, 8);
    CopyBackRepeats(out, 2, 11, 9); CopyBackRepeats(out, 2, 11, 10); CopyBackRepeats(out, 2, 11, 11);
    CopyBackRepeats(out, 2, 11, 12);
  }

  lemma {:induction false} SampleCodes()
    ensures CodeBits(FixedLit(), 97) == [true, false, false, true, false, false, false, true]
    ensures CodeBits(FixedLit(), 98) == [true, false, false, true, false, false, true, false]
    ensures CodeBits(FixedLit(), 265) == [false, false, false, true, false, false, true]
    ensures CodeBits(FixedLit(), 256) == [false, false, false, false, false, false, false]
    ensures CodeBits(FixedDist(), 1) == [false, false, false, false, true]
  {
    hide HighBits, Code, FixedLit, FixedDist;
    FixedCodes(97); FixedCodes(98); FixedCodes(265); FixedCodes(256); FixedDistanceCodes(1);
    TurnedRound(145, 8, [true, false, false, false, true, false, false, true]);
    TurnedRound(146, 8, [false, true, false, false, true, false, false, true]);
    TurnedRound(9, 7, [true, false, false, true, false, false, false, false]);
    TurnedRound(0, 7, [false, false, false, false, false, false, false, false]);
    TurnedRound(1, 5, [true, false, false, false, false, false, false, false]);
  }

  /** A number's high bits, from its eight low bits. */
  lemma {:induction false} TurnedRound(c: nat, n: nat, b: Bits)
    requires |b| == 8 && n <= 8 && c == Eight(b)
    ensures forall i :: 0 <= i < n ==> HighBits(c, n)[i] == b[n - 1 - i]
  {
    hide LowBits, HighBits;
    LowBitsOfEight(c, b);
    LowBitsPrefix(c, n, 8);
    forall i | 0 <= i < n ensures HighBits(c, n)[i] == b[n - 1 - i] { CodesTurnedRound(c, n, i); }
  }

  lemma {:induction false} SampleSymbols()
    ensures LengthIndex(11) == 8 && LEN_BASE[8] == 11 && LEN_EXTRA[8] == 1
    ensures DistanceIndex(2) == 1 && DIST_BASE[1] == 2 && DIST_EXTRA[1] == 0
  {
    hide IndexFrom, DistanceIndex;
    SampleDistance();
  }

  lemma {:induction false} SampleDistance()
    ensures DistanceIndex(2) == 1 && DIST_BASE[1] == 2 && DIST_EXTRA[1] == 0
  {
    hide IndexFrom;
  }

  lemma {:induction false} SampleEncodes()
    requires TokensOk(SAMPLE, [])
    ensures CanEncode(SAMPLE, FixedLit(), FixedDist())
    ensures BytesToBits([0x4b, 0x4c, 0x42, 0x82, 0x00])
         == [true, true, false] + EncodeTokens(SAMPLE, FixedLit(), FixedDist()) + [false]
  {
    hide CodeBits, EncodeTokens, CanEncode, FixedLit, FixedDist, BytesToBits;
    FixedEncodes(SAMPLE, []);
    SampleTokens();
    SampleBits();
    SampleCodes();
  }

  lemma {:induction false} SampleTokens()
    requires CanEncode(SAMPLE, FixedLit(), FixedDist())
    ensures HasCode(FixedLit(), 97) && HasCode(FixedLit(), 98) && HasCode(FixedLit(), 265) && HasCode(FixedLit(), 256)
    ensures HasCode(FixedDist(), 1)
    ensures EncodeTokens(SAMPLE, FixedLit(), FixedDist()) ==
      CodeBits(FixedLit(), 97) + (CodeBits(FixedLit(), 98) +
      (CodeBits(FixedLit(), 265) + ([false] + (CodeBits(FixedDist(), 1) + [])) + CodeBits(FixedLit(), 256)))
  {
    hide CodeBits, LengthIndex, DistanceIndex, FixedLit, FixedDist;
    SampleSymbols();
    var lit, dist, last := FixedLit(), FixedDist(), [Match(11, 2)];
    var more := [Literal(98)] + last;
    assert last[1..] == [] && more[1..] == last && SAMPLE[1..] == more;
    assert CanEncodeToken(SAMPLE[0], lit, dist) && CanEncodeToken(SAMPLE[1], lit, dist) && CanEncodeToken(SAMPLE[2], lit, dist);
    assert EncodeTokens(last[1..], lit, dist) == CodeBits(lit, 256);
    assert EncodeToken(last[0], lit, dist) == CodeBits(lit, 265) + ([false] + (CodeBits(dist, 1) + []));
    assert EncodeTokens(last, lit, dist) == EncodeToken(last[0], lit, dist) + CodeBits(lit, 256);
    assert EncodeTokens(more, lit, dist) == CodeBits(lit, 98) + EncodeTokens(last, lit, dist);
    assert EncodeTokens(SAMPLE, lit, dist) == CodeBits(lit, 97) + EncodeTokens(more, lit, dist);
  }

  /** The five bytes 4b 4c 42 82 00 inflate to "ababababababa": 'a', 'b', and a match of length 11 two bytes back. */
  lemma {:induction false} SampleInflates()
    ensures Inflated([0x4b, 0x4c, 0x42, 0x82, 0x00]) == Ok([97, 98, 97, 98, 97, 98, 97, 98, 97, 98, 97, 98, 97])
  {
    hide BytesToBits, EncodeTokens, TokensOk, Expand, CanEncode, FixedLit, FixedDist, Block, LowBits, Value;
    SampleExpands();
    SampleEncodes();
    var code := EncodeTokens(SAMPLE, FixedLit(), FixedDist());
    FixedInverts(SAMPLE, [], [false]);
    PrefixReads(true, 1, code + [false]);
    assert LowBits(1, 2) == [true, false] by { OneInTwoBits(); }
    assert [true, true, false] + code + [false] == [true] + LowBits(1, 2) + (code + [false]);
  }

  lemma {:induction false} OneInTwoBits()
    ensures LowBits(1, 2) == [true, false]
  {}
}
