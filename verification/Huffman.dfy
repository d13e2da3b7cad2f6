/** Canonical Huffman codes (section 3.2.2 of RFC 1951): the code, the decoder, and the table builder. */
module Huffman {
  import opened Arithmetic
  import opened Wrappers
  import opened BitStream

  const MAX_BITS: nat := 15

  /** The symbols below n whose code length is l, in ascending order. */
  function SymsWith(lengths: seq<nat>, l: nat, n: nat): (r: seq<nat>)
    requires n <= |lengths|
    ensures |r| <= n
    ensures forall j :: 0 <= j < |r| ==> r[j] < n && lengths[r[j]] == l
  {
    if n == 0 then [] else SymsWith(lengths, l, n - 1) + if lengths[n - 1] == l then [n - 1] else []
  }

  function Syms(lengths: seq<nat>, l: nat): seq<nat> { SymsWith(lengths, l, |lengths|) }

  function Count(lengths: seq<nat>, l: nat): nat { |Syms(lengths, l)| }

  /** The smallest code of length l (next_code in the RFC). */
  function First(lengths: seq<nat>, l: nat): nat
    requires l >= 1
  {
    if l == 1 then 0 else 2 * (First(lengths, l - 1) + Count(lengths, l - 1))
  }

  /** Codes of length l left unused once all lengths up to l are assigned; negative when over-subscribed. */
  function Left(lengths: seq<nat>, l: nat): int {
    if l == 0 then 1 else 2 * Left(lengths, l - 1) - Count(lengths, l)
  }

  ghost predicate Accepted(lengths: seq<nat>) {
    forall l :: 1 <= l <= MAX_BITS ==> Left(lengths, l) >= 0
  }

  ghost predicate LengthsOk(lengths: seq<nat>) {
    forall i :: 0 <= i < |lengths| ==> lengths[i] <= MAX_BITS
  }

  // ----- The code of a symbol -----

  ghost predicate HasCode(lengths: seq<nat>, s: nat) {
    s < |lengths| && 1 <= lengths[s] <= MAX_BITS
  }

  /** Codes of one length are consecutive, in symbol order. */
  ghost function Code(lengths: seq<nat>, s: nat): nat
    requires HasCode(lengths, s)
  {
    First(lengths, lengths[s]) + |SymsWith(lengths, lengths[s], s)|
  }

  /** c as n bits, most significant first: Huffman codes are packed that way. */
  ghost function HighBits(c: nat, n: nat): (b: Bits)
    ensures |b| == n
  {
    if n == 0 then [] else [c / Pow2(n - 1) % 2 == 1] + HighBits(c % Pow2(n - 1), n - 1)
  }

  ghost function CodeBits(lengths: seq<nat>, s: nat): Bits
    requires HasCode(lengths, s)
  {
    HighBits(Code(lengths, s), lengths[s])
  }

  // ----- Decoding, over the bits not read yet -----

  function DecodeFrom(lengths: seq<nat>, b: Bits, l: nat, code: nat, first: nat): Option<(nat, Bits)>
    requires l >= 1 && first <= code
    decreases 16 - l
  {
    if l > MAX_BITS || b == [] then None
    else
      var c := code + if b[0] then 1 else 0;
      var count := Count(lengths, l);
      if c - first < count then Some((Syms(lengths, l)[c - first], b[1..]))
      else DecodeFrom(lengths, b[1..], l + 1, 2 * c, 2 * (first + count))
  }

  /** The symbol whose code starts b, and what follows it. */
  function Decode(lengths: seq<nat>, b: Bits): Option<(nat, Bits)> {
    DecodeFrom(lengths, b, 1, 0, 0)
  }

  lemma {:induction false} SymIsUsed(lengths: seq<nat>, l: nat, k: nat)
    requires 1 <= l <= MAX_BITS && k < Count(lengths, l)
    ensures k < |Syms(lengths, l)|
    ensures Syms(lengths, l)[k] < |lengths| && lengths[Syms(lengths, l)[k]] == l
  {
    assert Syms(lengths, l)[k] in Syms(lengths, l);
  }

  /** A decoded symbol is a symbol, and at least one bit was consumed. */
  lemma {:induction false} DecodeShrinks(lengths: seq<nat>, b: Bits, l: nat, code: nat, first: nat)
    requires l >= 1 && first <= code
    ensures var r := DecodeFrom(lengths, b, l, code, first);
      r.Some? ==> |r.value.1| < |b| && r.value.0 < |lengths| && 1 <= lengths[r.value.0] <= MAX_BITS
    decreases 16 - l
  {
    hide Count, Syms, DecodeFrom;
    DecodeStops(lengths, b, l, code, first);
    if l <= MAX_BITS && b != [] {
      var c := code + if b[0] then 1 else 0;
      var count := Count(lengths, l);
      if first + count <= c {
        DecodeNext(lengths, b, l, code, first, c);
        DecodeShrinks(lengths, b[1..], l + 1, 2 * c, 2 * (first + count));
      }
    }
  }

  lemma {:induction false} DecodeStops(lengths: seq<nat>, b: Bits, l: nat, code: nat, first: nat)
    requires l >= 1 && first <= code
    ensures l > MAX_BITS || b == [] ==> DecodeFrom(lengths, b, l, code, first) == None
    ensures l <= MAX_BITS && b != [] ==>
      var c := code + if b[0] then 1 else 0;
      c < first + Count(lengths, l) ==>
        var r := DecodeFrom(lengths, b, l, code, first);
        r.Some? && r.value.1 == b[1..] && r.value.0 < |lengths| && lengths[r.value.0] == l
  {
    hide Syms;
    if l <= MAX_BITS && b != [] {
      var c := code + if b[0] then 1 else 0;
      if c < first + Count(lengths, l) { SymIsUsed(lengths, l, c - first); }
    }
  }

  lemma {:induction false} DecodeNext(lengths: seq<nat>, b: Bits, l: nat, code: nat, first: nat, c: nat)
    requires 1 <= l <= MAX_BITS && first <= code && b != [] && c == code + if b[0] then 1 else 0
    requires first + Count(lengths, l) <= c
    ensures DecodeFrom(lengths, b, l, code, first)
         == DecodeFrom(lengths, b[1..], l + 1, 2 * c, 2 * (first + Count(lengths, l)))
  {
    hide Syms;
  }

  // ----- Decoding inverts the code -----

  /** Used and unused codes of each length add up to all of them. */
  lemma {:induction false} Kraft(lengths: seq<nat>, l: nat)
    requires l >= 1
    ensures First(lengths, l) + Count(lengths, l) + Left(lengths, l) == Pow2(l)
  {
    if l > 1 {
      Kraft(lengths, l - 1);
    } else {
      assert Left(lengths, 0) == 1;
      assert Pow2(1) == 2 * Pow2(0);
    }
  }

  /** The symbols of a length below s are a prefix of all of them, s coming next. */
  lemma {:induction false} RankOf(lengths: seq<nat>, l: nat, s: nat, n: nat)
    requires s < n <= |lengths| && lengths[s] == l
    ensures |SymsWith(lengths, l, s)| < |SymsWith(lengths, l, n)|
    ensures SymsWith(lengths, l, n)[|SymsWith(lengths, l, s)|] == s
  {
    if n > s + 1 {
      RankOf(lengths, l, s, n - 1);
    }
  }

  lemma {:induction false} FirstGrows(lengths: seq<nat>, l: nat, L: nat)
    requires 1 <= l < L
    ensures Pow2(L - l) * (First(lengths, l) + Count(lengths, l)) <= First(lengths, L)
  {
    hide First, Count;
    var f := First(lengths, l) + Count(lengths, l);
    FirstNext(lengths, L - 1);
    if L == l + 1 {
      assert Pow2(1) == 2 * Pow2(0);
    } else {
      FirstGrows(lengths, l, L - 1);
      Doubled(Pow2(L - 1 - l), f, First(lengths, L - 1));
    }
  }

  lemma {:induction false} FirstNext(lengths: seq<nat>, l: nat)
    requires l >= 1
    ensures First(lengths, l + 1) == 2 * (First(lengths, l) + Count(lengths, l))
  {}

  lemma {:induction false} Doubled(p: nat, f: nat, x: nat)
    requires p * f <= x
    ensures 2 * p * f <= 2 * x
  {
    assert 2 * p * f == 2 * (p * f);
  }

  /** c p + r lies at or above f p, with r below p: c is at least f. */
  lemma {:induction false} HighPartAtLeast(c: nat, r: nat, f: nat, p: nat)
    requires r < p && p * f <= c * p + r
    ensures f <= c
  {
    if c < f { TimesAtLeast(p, c + 1, f); }
  }

  lemma {:induction false} TimesAtLeast(p: nat, x: nat, y: nat)
    requires x <= y
    ensures p * x <= p * y
  {}

  lemma {:induction false} SplitBit(r: nat, p: nat)
    requires p >= 1 && r < 2 * p
    ensures r / p == 0 || r / p == 1
    ensures r == r / p * p + r % p
    ensures r % p < p
    ensures (r / p % 2 == 1) == (r / p == 1)
  {
    if r < p { Quotient(r, p, 0, r); } else { Quotient(r, p, 1, r - p); }
  }

  lemma {:induction false} Quotient(r: nat, p: nat, q: nat, m: nat)
    requires r == q * p + m && m < p
    ensures r / p == q && r % p == m
  {
    var x, y := r / p, r % p;
    assert r == x * p + y && 0 <= y < p;
    if x < q { TimesAtLeast(p, x + 1, q); } else if q < x { TimesAtLeast(p, q + 1, x); }
  }

  /** The decoder, having read the high part of s's code, goes on to find s. */
  lemma {:induction false} DecodeFinds(lengths: seq<nat>, s: nat, rest: Bits, l: nat, hi: nat, r: nat)
    requires HasCode(lengths, s) && 1 <= l <= lengths[s]
    requires r < Pow2(lengths[s] - l + 1)
    requires Code(lengths, s) == hi * Pow2(lengths[s] - l + 1) + r
    requires First(lengths, l) <= 2 * hi
    ensures DecodeFrom(lengths, HighBits(r, lengths[s] - l + 1) + rest, l, 2 * hi, First(lengths, l)) == Some((s, rest))
    decreases lengths[s] - l
  {
    hide Code, First, HighBits, Count, Pow2, DecodeFrom;
    var n := lengths[s] - l + 1;
    var b := HighBits(r, n) + rest;
    var r' := HighBitsStep(r, n, rest);
    var c := 2 * hi + if b[0] then 1 else 0;
    CodeShifts(hi, r, n, c, r', if b[0] then 1 else 0);
    if n == 1 {
      DecodeLast(lengths, s, b, hi, c);
    } else {
      NotYet(lengths, s, l, c, r');
      DecodeFinds(lengths, s, rest, l + 1, c, r');
      DecodeNext(lengths, b, l, 2 * hi, First(lengths, l), c);
    }
  }

  lemma {:induction false} CodeShifts(hi: nat, r: nat, n: nat, c: nat, r': nat, bit: nat)
    requires n >= 1 && r == bit * Pow2(n - 1) + r' && c == 2 * hi + bit && r' < Pow2(n - 1)
    ensures hi * Pow2(n) + r == c * Pow2(n - 1) + r'
    ensures n == 1 ==> hi * Pow2(n) + r == c
  {
    var p := Pow2(n - 1);
    assert Pow2(n) == 2 * p;
    hide Pow2;
    assert hi * (2 * p) == 2 * hi * p;
    assert (2 * hi + bit) * p == 2 * hi * p + bit * p;
    if n == 1 { PowerZero(); }
  }

  lemma {:induction false} PowerZero()
    ensures Pow2(0) == 1
  {}

  /** The first bit of a number's high bits, and the number r' that the others are the high bits of. */
  lemma {:induction false} HighBitsStep(r: nat, n: nat, rest: Bits) returns (r': nat)
    requires n >= 1 && r < Pow2(n)
    ensures r' < Pow2(n - 1)
    ensures var b := HighBits(r, n) + rest;
      b != [] && r == (if b[0] then 1 else 0) * Pow2(n - 1) + r' && b[1..] == HighBits(r', n - 1) + rest
    ensures n == 1 ==> (HighBits(r, n) + rest)[1..] == rest
  {
    r' := r % Pow2(n - 1);
    SplitBit(r, Pow2(n - 1));
  }

  lemma {:induction false} DecodeLast(lengths: seq<nat>, s: nat, b: Bits, hi: nat, c: nat)
    requires HasCode(lengths, s) && b != [] && c == 2 * hi + if b[0] then 1 else 0
    requires c == Code(lengths, s) && First(lengths, lengths[s]) <= 2 * hi
    ensures DecodeFrom(lengths, b, lengths[s], 2 * hi, First(lengths, lengths[s])) == Some((s, b[1..]))
  {
    RankOf(lengths, lengths[s], s, |lengths|);
  }

  /** A proper prefix of s's code lies beyond the codes of its own length. */
  lemma {:induction false} NotYet(lengths: seq<nat>, s: nat, l: nat, c: nat, r: nat)
    requires HasCode(lengths, s) && 1 <= l < lengths[s]
    requires r < Pow2(lengths[s] - l) && Code(lengths, s) == c * Pow2(lengths[s] - l) + r
    ensures First(lengths, l) + Count(lengths, l) <= c
    ensures First(lengths, l + 1) == 2 * (First(lengths, l) + Count(lengths, l))
  {
    FirstGrows(lengths, l, lengths[s]);
    HighPartAtLeast(c, r, First(lengths, l) + Count(lengths, l), Pow2(lengths[s] - l));
  }

  /** Whenever the table is accepted, decoding a symbol's code gives the symbol and consumes exactly the code. */
  lemma {:induction false} DecodeInvertsCode(lengths: seq<nat>, s: nat, rest: Bits)
    requires Accepted(lengths) && HasCode(lengths, s)
    ensures Decode(lengths, CodeBits(lengths, s) + rest) == Some((s, rest))
  {
    var L := lengths[s];
    Kraft(lengths, L);
    RankOf(lengths, L, s, |lengths|);
    assert Left(lengths, L) >= 0;
    assert Code(lengths, s) == 0 * Pow2(L) + Code(lengths, s);
    DecodeFinds(lengths, s, rest, 1, 0, Code(lengths, s));
  }

  // ----- The table -----

  /** Symbols with a shorter (non-zero) code than l, among the first n. */
  ghost function Offset(lengths: seq<nat>, l: nat, n: nat): nat
    requires n <= |lengths|
  {
    if l <= 1 then 0 else Offset(lengths, l - 1, n) + |SymsWith(lengths, l - 1, n)|
  }

  lemma {:induction false} OffsetFirst(lengths: seq<nat>)
    ensures Offset(lengths, 1, |lengths|) == 0
  {}

  lemma {:induction false} OffsetNext(lengths: seq<nat>, l: nat)
    requires l >= 1
    ensures Offset(lengths, l + 1, |lengths|) == Offset(lengths, l, |lengths|) + Count(lengths, l)
  {}

  lemma {:induction false} OffsetStep(lengths: seq<nat>, l: nat, n: nat)
    requires n < |lengths|
    ensures Offset(lengths, l, n + 1) == Offset(lengths, l, n) + if 1 <= lengths[n] < l then 1 else 0
  {
    if l > 1 { OffsetStep(lengths, l - 1, n); }
  }

  lemma {:induction false} OffsetBound(lengths: seq<nat>, l: nat, n: nat)
    requires n <= |lengths|
    ensures Offset(lengths, l, n) <= n
  {
    if n > 0 {
      OffsetBound(lengths, l, n - 1);
      OffsetStep(lengths, l, n - 1);
    } else if l > 1 {
      OffsetBound(lengths, l - 1, n);
    }
  }

  lemma {:induction false} OffsetMono(lengths: seq<nat>, l: nat, m: nat)
    requires 1 <= l < m
    ensures Offset(lengths, l, |lengths|) + Count(lengths, l) <= Offset(lengths, m, |lengths|)
  {
    hide Offset, Count;
    OffsetNext(lengths, m - 1);
    if m > l + 1 { OffsetMono(lengths, l, m - 1); }
  }

  lemma {:induction false} SymsPrefix(lengths: seq<nat>, l: nat, n: nat, m: nat)
    requires n <= m <= |lengths|
    ensures |SymsWith(lengths, l, n)| <= |SymsWith(lengths, l, m)|
  {
    if n < m { SymsPrefix(lengths, l, n, m - 1); }
  }

  class Huffman {
    var counts: seq<nat>
    var symbols: seq<nat>

    /** The table is that of the given code lengths. */
    ghost predicate Represents(lengths: seq<nat>)
      reads this
    {
      && LengthsOk(lengths)
      && |counts| == 16 && |symbols| == |lengths|
      && (forall l :: 1 <= l <= MAX_BITS ==> counts[l] == Count(lengths, l))
      && SlotsFilled(symbols, lengths, |lengths|)
    }

    constructor ()
    {
      counts, symbols := [], [];
    }

    /** Fill the table; refuse an over-subscribed set of lengths. */
    method Build(lengths: seq<nat>) returns (accepted: bool)
      requires LengthsOk(lengths)
      modifies this
      ensures accepted <==> Accepted(lengths)
      ensures accepted ==> Represents(lengths)
    {
      counts := CountLengths(lengths);
      counts := counts[0 := 0];
      var left: int := 1;
      for len := 1 to 16
        invariant left == Left(lengths, len - 1)
        invariant forall l :: 1 <= l < len ==> Left(lengths, l) >= 0
      {
        left := 2 * left - counts[len];
        assert left == Left(lengths, len);
        if left < 0 { return false; }
      }
      symbols := FillSymbols(lengths, counts);
      return true;
    }
  }

  /** Every symbol below n with a code sits in its place by (length, symbol). */
  ghost predicate SlotsFilled(symbols: seq<nat>, lengths: seq<nat>, n: nat)
    requires n <= |lengths|
  {
    forall l, j: nat :: 1 <= l <= MAX_BITS ==> InPlace(symbols, lengths, n, l, j)
  }

  /** The j-th symbol of length l below n, if there is one, is j places after that length's offset. */
  ghost predicate InPlace(symbols: seq<nat>, lengths: seq<nat>, n: nat, l: nat, j: nat)
    requires n <= |lengths|
  {
    j < |SymsWith(lengths, l, n)| ==>
      Offset(lengths, l, |lengths|) + j < |symbols|
      && symbols[Offset(lengths, l, |lengths|) + j] == SymsWith(lengths, l, n)[j]
  }

  method CountLengths(lengths: seq<nat>) returns (counts: seq<nat>)
    requires LengthsOk(lengths)
    ensures |counts| == 16 && forall l :: 0 <= l <= MAX_BITS ==> counts[l] == Count(lengths, l)
  {
    var a := new nat[16](_ => 0);
    for i := 0 to |lengths|
      invariant forall l :: 0 <= l <= MAX_BITS ==> a[l] == |SymsWith(lengths, l, i)|
    {
      a[lengths[i]] := a[lengths[i]] + 1;
    }
    counts := a[..];
  }

  /** The running offsets of the canonical order. */
  method Offsets(lengths: seq<nat>, counts: seq<nat>) returns (offs: array<nat>)
    requires |counts| == 16 && forall l :: 1 <= l <= MAX_BITS ==> counts[l] == Count(lengths, l)
    ensures fresh(offs) && offs.Length == 16
    ensures forall l :: 1 <= l <= MAX_BITS ==> offs[l] == Offset(lengths, l, |lengths|)
  {
    hide Offset, SymsWith;
    offs := new nat[16](_ => 0);
    OffsetFirst(lengths);
    for len := 1 to 15
      invariant forall l :: 1 <= l <= len ==> offs[l] == Offset(lengths, l, |lengths|)
    {
      OffsetNext(lengths, len);
      offs[len + 1] := offs[len] + counts[len];
    }
  }

  /** The counting sort of build(). */
  method FillSymbols(lengths: seq<nat>, counts: seq<nat>) returns (symbols: seq<nat>)
    requires LengthsOk(lengths)
    requires |counts| == 16 && forall l :: 1 <= l <= MAX_BITS ==> counts[l] == Count(lengths, l)
    ensures |symbols| == |lengths| && SlotsFilled(symbols, lengths, |lengths|)
  {
    hide Offset, SymsWith, SlotsFilled;
    var offs := Offsets(lengths, counts);
    NothingFilled(lengths);
    var a := new nat[|lengths|](_ => 0);
    for i := 0 to |lengths|
      invariant fresh(offs) && fresh(a) && offs.Length == 16
      invariant forall l :: 1 <= l <= MAX_BITS ==>
        offs[l] == Offset(lengths, l, |lengths|) + |SymsWith(lengths, l, i)|
      invariant SlotsFilled(a[..], lengths, i)
    {
      SymsNext(lengths, i);
      var l := lengths[i];
      if l != 0 {
        SymsPrefix(lengths, l, i + 1, |lengths|);
        OffsetMono(lengths, l, 16);
        OffsetBound(lengths, 16, |lengths|);
        ghost var was := a[..];
        a[offs[l]] := i;
        FillOne(was, lengths, i);
        assert a[..] == was[offs[l] := i];
        offs[l] := offs[l] + 1;
      } else {
        FillNone(a[..], lengths, i);
      }
    }
    symbols := a[..];
  }

  lemma {:induction false} NothingFilled(lengths: seq<nat>)
    ensures forall symbols :: SlotsFilled(symbols, lengths, 0)
    ensures forall l :: |SymsWith(lengths, l, 0)| == 0
  {}

  lemma {:induction false} SymsNext(lengths: seq<nat>, i: nat)
    requires i < |lengths|
    ensures forall l :: |SymsWith(lengths, l, i + 1)| == |SymsWith(lengths, l, i)| + if lengths[i] == l then 1 else 0
  {}

  lemma {:induction false} SymsGrow(lengths: seq<nat>, l: nat, i: nat)
    requires i < |lengths|
    ensures SymsWith(lengths, l, i + 1) == SymsWith(lengths, l, i) + if lengths[i] == l then [i] else []
  {}

  lemma {:induction false} FillNone(symbols: seq<nat>, lengths: seq<nat>, i: nat)
    requires i < |lengths| && lengths[i] == 0 && SlotsFilled(symbols, lengths, i)
    ensures SlotsFilled(symbols, lengths, i + 1)
  {
    var next := i + 1;
    forall l, j: nat | 1 <= l <= MAX_BITS ensures InPlace(symbols, lengths, next, l, j) {
      assert InPlace(symbols, lengths, i, l, j);
      assert SymsWith(lengths, l, i + 1) == SymsWith(lengths, l, i);
    }
  }

  /** Writing symbol i at the end of its length's filled slots disturbs no other slot. */
  lemma {:induction false} FillOne(symbols: seq<nat>, lengths: seq<nat>, i: nat)
    requires i < |lengths| && 1 <= lengths[i] <= MAX_BITS && SlotsFilled(symbols, lengths, i)
    requires Offset(lengths, lengths[i], |lengths|) + |SymsWith(lengths, lengths[i], i)| < |symbols|
    ensures SlotsFilled(symbols[Offset(lengths, lengths[i], |lengths|) + |SymsWith(lengths, lengths[i], i)| := i],
                        lengths, i + 1)
  {
    hide Offset, SymsWith;
    var n, li := |lengths|, lengths[i];
    var at := Offset(lengths, li, n) + |SymsWith(lengths, li, i)|;
    var next := symbols[at := i];
    SymsPrefix(lengths, li, i + 1, n);
    SymsGrow(lengths, li, i);
    var m := i + 1;
    forall l, j: nat | 1 <= l <= MAX_BITS ensures InPlace(next, lengths, m, l, j) {
      SymsPrefix(lengths, l, i + 1, n);
      SymsGrow(lengths, l, i);
      assert InPlace(symbols, lengths, i, l, j);
      if l < li { OffsetMono(lengths, l, li); } else if li < l { OffsetMono(lengths, li, l); }
    }
  }
}
