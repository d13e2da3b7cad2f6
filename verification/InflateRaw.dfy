/** The loops of inflate_raw, each proved to compute the function that specifies it. */
module InflateRaw {
  import opened Arithmetic
  import opened Wrappers
  import opened Bytes
  import opened BitStream
  import opened Huffman
  import opened Inflate

  /** Walk the code lengths; -1 when the input ends or no code matches. */
  method DecodeSymbol(br: BitReader, h: Huffman, ghost lengths: seq<nat>) returns (sym: int)
    requires br.Valid() && h.Represents(lengths)
    modifies br
    ensures br.Valid()
    ensures Decode(lengths, old(br.Rest())).None? ==> sym == -1
    ensures Decode(lengths, old(br.Rest())).Some? ==> (sym, br.Rest()) == Decode(lengths, old(br.Rest())).value
  {
    hide Huffman.Represents, Offset, Syms, Count, DecodeFrom, BitReader.Rest;
    OffsetFirst(lengths);
    var code: nat, first: nat, index: nat := 0, 0, 0;
    ghost var was := br.Rest();
    for len := 1 to 16
      invariant br.Valid() && first <= code
      invariant index == Offset(lengths, len, |lengths|)
      invariant Decode(lengths, was) == DecodeFrom(lengths, br.Rest(), len, code, first)
    {
      DecodeUnfold(lengths, br.Rest(), len, code, first);
      var b := br.Bit();
      if b < 0 { return -1; }
      code := code + b;  // the low bit of code is clear
      var count := CountOf(h, lengths, len);
      if code - first < count {
        sym := SymbolAt(h, lengths, len, index, code - first);
        return;
      }
      OffsetNext(lengths, len);
      index := index + count;
      first := 2 * (first + count);
      code := 2 * code;
    }
    DecodeGivesUp(lengths, br.Rest(), code, first);
    return -1;
  }

  lemma {:induction false} DecodeUnfold(lengths: seq<nat>, b: Bits, l: nat, code: nat, first: nat)
    requires 1 <= l <= MAX_BITS && first <= code
    ensures b == [] ==> DecodeFrom(lengths, b, l, code, first) == None
    ensures b != [] ==>
      var c := code + if b[0] then 1 else 0;
      DecodeFrom(lengths, b, l, code, first)
        == if c - first < Count(lengths, l) then Some((Syms(lengths, l)[c - first], b[1..]))
           else DecodeFrom(lengths, b[1..], l + 1, 2 * c, 2 * (first + Count(lengths, l)))
  {}

  lemma {:induction false} DecodeGivesUp(lengths: seq<nat>, b: Bits, code: nat, first: nat)
    requires first <= code
    ensures DecodeFrom(lengths, b, 16, code, first) == None
  {}

  method CountOf(h: Huffman, ghost lengths: seq<nat>, len: nat) returns (count: nat)
    requires h.Represents(lengths) && 1 <= len <= MAX_BITS
    ensures count == Count(lengths, len)
  {
    count := h.counts[len];
  }

  /** In an accepted table the looked-up slot always exists, so no range error can arise here. */
  method SymbolAt(h: Huffman, ghost lengths: seq<nat>, len: nat, index: nat, j: nat) returns (sym: nat)
    requires h.Represents(lengths) && 1 <= len <= MAX_BITS
    requires index == Offset(lengths, len, |lengths|) && j < Count(lengths, len)
    ensures sym == Syms(lengths, len)[j]
  {
    assert InPlace(h.symbols, lengths, |lengths|, len, j);
    sym := h.symbols[index + j];
  }

  /** ReadBits in terms of what the decoder's specification takes. */
  method TakeBits(br: BitReader, n: nat) returns (v: int)
    requires br.Valid()
    modifies br
    ensures br.Valid()
    ensures Take(old(br.Rest()), n).None? ==> v == -1
    ensures Take(old(br.Rest()), n).Some? ==> v >= 0 && (v, br.Rest()) == Take(old(br.Rest()), n).value
  {
    v := br.ReadBits(n);
  }

  // ----- Stored blocks -----

  /** rd16: two bytes, low byte first. */
  function LittleEndian(lo: int, hi: int): int { lo + 256 * hi }

  lemma {:induction false} ValueAppend(a: Bits, b: Bits)
    ensures Value(a + b) == Value(a) + Pow2(|a|) * Value(b)
  {
    if a == [] {
      assert a + b == b;
    } else {
      ValueAppend(a[1..], b);
      assert (a + b)[1..] == a[1..] + b;
      assert Pow2(|a|) * Value(b) == 2 * (Pow2(|a| - 1) * Value(b));
    }
  }

  lemma {:induction false} ByteAt(d: seq<byte>, i: nat)
    requires i < |d|
    ensures BytesToBits(d)[8 * i..] == ByteBits(d[i]) + BytesToBits(d[i + 1..])
    ensures BytesToBits(d[i..]) == BytesToBits(d)[8 * i..]
  {
    assert d == d[..i] + d[i..];
    BytesToBitsAppend(d[..i], d[i..]);
    assert d[i..][1..] == d[i + 1..];
  }

  /** The two little-endian bytes at the front are the 16-bit number at the front. */
  lemma {:induction false} TwoBytes(d: seq<byte>)
    requires |d| >= 2
    ensures Value(BytesToBits(d)[..16]) == LittleEndian(d[0], d[1])
  {
    ByteAt(d, 0);
    ByteAt(d, 1);
    var a, b := ByteBits(d[0]), ByteBits(d[1]);
    assert BytesToBits(d)[..16] == a + b by {
      assert BytesToBits(d) == a + (b + BytesToBits(d[2..]));
    }
    ValueAppend(a, b);
    Pow2Eight();
    ValueOfLowBits(d[0], 8);
    ValueOfLowBits(d[1], 8);
  }

  lemma {:induction false} WholeBytes(d: seq<byte>, i: nat)
    requires i <= |d|
    ensures BytesToBits(d)[8 * i..] == BytesToBits(d[i..])
    ensures FirstBytes(BytesToBits(d), i) == d[..i]
  {
    assert d == d[..i] + d[i..];
    BytesToBitsAppend(d[..i], d[i..]);
    BytesToBitsToBytes(d[..i]);
    assert BytesToBits(d)[..8 * i] == BytesToBits(d[..i]);
  }

  lemma {:induction false} StoredBytes(d: seq<byte>, out: seq<byte>, len: nat)
    requires |d| >= 4 && len == LittleEndian(d[0], d[1])
    ensures 4 + len > |d| ==> StoredBlock(BytesToBits(d), out) == Err(StoredOverrun)
    ensures 4 + len <= |d| && |out| + len > MAX_INFLATE ==> StoredBlock(BytesToBits(d), out) == Err(TooLarge)
    ensures 4 + len <= |d| && |out| + len <= MAX_INFLATE
      ==> StoredBlock(BytesToBits(d), out) == Ok((BytesToBits(d[4 + len..]), out + d[4..4 + len]))
  {
    hide FirstBytes, BytesToBits, Value, StoredBlock, Aligned;
    var b := BytesToBits(d);
    WholeIsAligned(b);
    StoredFields(b, out);
    TwoBytes(d);
    WholeBytes(d, 4);
    if 4 + len <= |d| {
      WholeBytes(d[4..], len);
      assert d[4..][len..] == d[4 + len..];
      assert d[4..][..len] == d[4..4 + len];
    }
  }

  lemma {:induction false} WholeIsAligned(b: Bits)
    requires |b| % 8 == 0
    ensures Aligned(b) == b
  {}

  /** A stored block that starts on a byte boundary. */
  lemma {:induction false} StoredFields(b: Bits, out: seq<byte>)
    requires Aligned(b) == b && |b| >= 32
    ensures var len := Value(b[..16]);
      && (|b| < 32 + 8 * len ==> StoredBlock(b, out) == Err(StoredOverrun))
      && (|b| >= 32 + 8 * len && |out| + len > MAX_INFLATE ==> StoredBlock(b, out) == Err(TooLarge))
      && (|b| >= 32 + 8 * len && |out| + len <= MAX_INFLATE ==>
            StoredBlock(b, out) == Ok((b[32..][8 * len..], out + FirstBytes(b[32..], len))))
  {
    hide FirstBytes, Value, Aligned;
  }

  method ReadStored(br: BitReader, out: seq<byte>) returns (r: Result<seq<byte>, Error>)
    requires br.Valid()
    modifies br
    ensures br.Valid()
    ensures StoredBlock(old(br.Rest()), out).Err? ==> r == Err(StoredBlock(old(br.Rest()), out).error)
    ensures StoredBlock(old(br.Rest()), out).Ok? ==>
      r.Ok? && StoredBlock(old(br.Rest()), out).value == (br.Rest(), r.value)
  {
    hide StoredBlock, Aligned, BytesToBits, BitReader.Rest;
    AlignedTwice(br.Rest(), out);
    br.Align();
    var p := br.pos;
    if p + 4 > |br.data| {
      StoredTooShort(br.data[p..], out);
      return Err(ShortStored);
    }
    var len := LittleEndian(br.data[p], br.data[p + 1]);
    StoredBytes(br.data[p..], out, len);
    SliceOfTail(br.data, p, 4, 4 + len);
    p := p + 4;
    if p + len > |br.data| { return Err(StoredOverrun); }
    if |out| + len > MAX_INFLATE { return Err(TooLarge); }
    r := Ok(out + br.data[p..p + len]);
    br.Seek(p + len);
  }

  lemma {:induction false} StoredTooShort(d: seq<byte>, out: seq<byte>)
    requires |d| < 4
    ensures StoredBlock(BytesToBits(d), out) == Err(ShortStored)
  {
    hide Aligned;
    WholeIsAligned(BytesToBits(d));
  }

  lemma {:induction false} SliceOfTail(d: seq<byte>, p: nat, a: nat, b: nat)
    requires a <= b
    ensures p + b <= |d| ==> d[p..][a..b] == d[p + a..p + b] && d[p..][b..] == d[p + b..]
  {}

  lemma {:induction false} AlignedTwice(b: Bits, out: seq<byte>)
    ensures StoredBlock(Aligned(b), out) == StoredBlock(b, out)
  {
    WholeIsAligned(Aligned(b));
  }

  // ----- Compressed blocks -----

  method CopyBytes(before: seq<byte>, distance: nat, length: nat) returns (out: seq<byte>)
    requires 1 <= distance <= |before|
    ensures out == CopyBack(before, distance, length)
  {
    out := before;
    var from := |out| - distance;
    for k := 0 to length
      invariant |out| == |before| + k
      invariant CopyBack(before, distance, length) == CopyBack(out, distance, length - k)
    {
      out := out + [out[from + k]];
    }
  }

  /** The part of a back-reference after its length symbol. */
  method ReadMatch(br: BitReader, h: Huffman, ghost dist: seq<nat>, li: nat, out: seq<byte>) returns (r: Result<seq<byte>, Error>)
    requires br.Valid() && h.Represents(dist)
    modifies br
    ensures br.Valid()
    ensures MatchBlock(li, dist, old(br.Rest()), out).Err? ==> r == Err(MatchBlock(li, dist, old(br.Rest()), out).error)
    ensures MatchBlock(li, dist, old(br.Rest()), out).Ok? ==>
      r.Ok? && MatchBlock(li, dist, old(br.Rest()), out).value == (br.Rest(), r.value)
  {
    hide Huffman.Represents, Decode, CopyBack, Take, BitReader.Rest;
    if li >= 29 { return Err(BadLengthCode); }
    var le := TakeBits(br, LEN_EXTRA[li]);
    if le < 0 { return Err(TruncatedLength); }
    var length := LEN_BASE[li] + le;
    var ds := DecodeSymbol(br, h, dist);
    if ds < 0 || ds >= 30 { return Err(BadDistanceCode); }
    var de := TakeBits(br, DIST_EXTRA[ds]);
    if de < 0 { return Err(TruncatedDistance); }
    var distance := DIST_BASE[ds] + de;
    if distance > |out| { return Err(DistanceBeforeStart); }
    if |out| + length > MAX_INFLATE { return Err(TooLarge); }
    var copied := CopyBytes(out, distance, length);
    r := Ok(copied);
  }

  /** One symbol, appended to the output; the flag says it ended the block. */
  method ReadCode(br: BitReader, lh: Huffman, dh: Huffman, ghost lit: seq<nat>, ghost dist: seq<nat>, out: seq<byte>)
    returns (r: Result<(seq<byte>, bool), Error>)
    requires br.Valid() && lh.Represents(lit) && dh.Represents(dist)
    modifies br
    ensures br.Valid()
    ensures CodedStep(lit, dist, old(br.Rest()), out).Err? ==>
      r == Err(CodedStep(lit, dist, old(br.Rest()), out).error)
    ensures CodedStep(lit, dist, old(br.Rest()), out).Ok? ==>
      r.Ok? && CodedStep(lit, dist, old(br.Rest()), out).value == (br.Rest(), r.value.0, r.value.1)
  {
    hide Huffman.Represents, Decode, MatchBlock, BitReader.Rest;
    var sym := DecodeSymbol(br, lh, lit);
    if sym < 0 { return Err(BadSymbol); }
    if sym < 256 {
      if |out| >= MAX_INFLATE { return Err(TooLarge); }
      return Ok((out + [sym], false));
    }
    if sym == 256 { return Ok((out, true)); }
    var m := ReadMatch(br, dh, dist, sym - 257, out);
    if m.Err? { return Err(m.error); }
    return Ok((m.value, false));
  }

  method ReadCodes(br: BitReader, lh: Huffman, dh: Huffman, ghost lit: seq<nat>, ghost dist: seq<nat>, before: seq<byte>)
    returns (r: Result<seq<byte>, Error>)
    requires br.Valid() && lh.Represents(lit) && dh.Represents(dist)
    modifies br
    ensures br.Valid()
    ensures CodedBlock(lit, dist, old(br.Rest()), before).Err? ==>
      r == Err(CodedBlock(lit, dist, old(br.Rest()), before).error)
    ensures CodedBlock(lit, dist, old(br.Rest()), before).Ok? ==>
      r.Ok? && CodedBlock(lit, dist, old(br.Rest()), before).value == (br.Rest(), r.value)
  {
    hide Huffman.Represents, CodedStep, BitReader.Rest;
    var out: seq<byte> := before;
    ghost var want := CodedBlock(lit, dist, br.Rest(), before);
    while true
      invariant br.Valid()
      invariant want == CodedBlock(lit, dist, br.Rest(), out)
      decreases |br.Rest()|
    {
      CodedStepShrinks(lit, dist, br.Rest(), out);
      var step := ReadCode(br, lh, dh, lit, dist, out);
      if step.Err? { return Err(step.error); }
      out := step.value.0;
      if step.value.1 { return Ok(out); }
    }
  }

  // ----- Dynamic tables -----

  lemma {:induction false} ClenNone(b: Bits)
    ensures ClenFrom(b, 0) == seq(19, i => 0)
  {}

  lemma {:induction false} ClenNext(b: Bits, i: nat)
    requires i < 19 && 3 * i <= |b|
    ensures 3 * i + 3 <= |b| ==>
      ClenFrom(b, i + 1) == ClenFrom(b, i)[CLEN_ORDER[i] := Value(b[3 * i..][..3])] && b[3 * i..][3..] == b[3 * (i + 1)..]
  {
    if 3 * i + 3 <= |b| {
      assert b[3 * i..][..3] == b[3 * i..3 * (i + 1)];
    }
  }

  method ReadClen(br: BitReader, n: nat) returns (r: Result<seq<nat>, Error>)
    requires br.Valid() && n <= 19
    modifies br
    ensures br.Valid()
    ensures |old(br.Rest())| < 3 * n ==> r == Err(TruncatedClen)
    ensures 3 * n <= |old(br.Rest())| ==>
      r == Ok(ClenFrom(old(br.Rest()), n)) && br.Rest() == old(br.Rest())[3 * n..]
  {
    hide ClenFrom, Value, BitReader.Rest;
    ghost var b := br.Rest();
    ClenNone(b);
    var clen: seq<nat> := seq(19, i => 0);
    for i := 0 to n
      invariant br.Valid() && 3 * i <= |b|
      invariant clen == ClenFrom(b, i) && br.Rest() == b[3 * i..]
    {
      var v := br.ReadBits(3);
      if v < 0 { return Err(TruncatedClen); }
      ClenNext(b, i);
      clen := clen[CLEN_ORDER[i] := v];
    }
    r := Ok(clen);
  }

  /** A repeat symbol's value and length. */
  method ReadRun(br: BitReader, sym: nat, lens: seq<nat>) returns (r: Result<(nat, nat), Error>)
    requires br.Valid() && sym >= 16
    modifies br
    ensures br.Valid()
    ensures RunOf(sym, lens, old(br.Rest())).Err? ==> r == Err(RunOf(sym, lens, old(br.Rest())).error)
    ensures RunOf(sym, lens, old(br.Rest())).Ok? ==>
      r.Ok? && RunOf(sym, lens, old(br.Rest())).value == (r.value.0, r.value.1, br.Rest())
  {
    var val, rep := 0, 0;
    if sym == 16 {
      if lens == [] { return Err(RepeatAtStart); }
      val := lens[|lens| - 1];
      var e := TakeBits(br, 2);
      if e < 0 { return Err(TruncatedRepeat); }
      rep := 3 + e;
    } else if sym == 17 {
      var e := TakeBits(br, 3);
      if e < 0 { return Err(TruncatedRepeat); }
      rep := 3 + e;
    } else {
      var e := TakeBits(br, 7);
      if e < 0 { return Err(TruncatedRepeat); }
      rep := 11 + e;
    }
    r := Ok((val, rep));
  }

  method ReadLength(br: BitReader, h: Huffman, ghost clen: seq<nat>, lens: seq<nat>, total: nat)
    returns (r: Result<seq<nat>, Error>)
    requires br.Valid() && h.Represents(clen) && |lens| < total && LengthsOk(lens)
    modifies br
    ensures br.Valid()
    ensures LengthStep(clen, old(br.Rest()), lens, total).Err? ==>
      r == Err(LengthStep(clen, old(br.Rest()), lens, total).error)
    ensures LengthStep(clen, old(br.Rest()), lens, total).Ok? ==>
      r.Ok? && LengthStep(clen, old(br.Rest()), lens, total).value == (br.Rest(), r.value) && LengthsOk(r.value)
  {
    hide Huffman.Represents, Decode, BitReader.Rest;
    var sym := DecodeSymbol(br, h, clen);
    if sym < 0 { return Err(BadCodeLength); }
    if sym < 16 { return Ok(lens + [sym]); }
    var run := ReadRun(br, sym, lens);
    if run.Err? { return Err(run.error); }
    var (val, rep) := run.value;
    if |lens| + rep > total { return Err(RepeatOverruns); }
    assert seq(rep, i => val) == Repeat(val, rep);
    return Ok(lens + seq(rep, i => val));
  }

  method ReadLengths(br: BitReader, h: Huffman, ghost clen: seq<nat>, total: nat) returns (r: Result<seq<nat>, Error>)
    requires br.Valid() && h.Represents(clen)
    modifies br
    ensures br.Valid()
    ensures CodeLengths(clen, old(br.Rest()), [], total).Err? ==>
      r == Err(CodeLengths(clen, old(br.Rest()), [], total).error)
    ensures CodeLengths(clen, old(br.Rest()), [], total).Ok? ==>
      r.Ok? && CodeLengths(clen, old(br.Rest()), [], total).value == (br.Rest(), r.value) && LengthsOk(r.value)
  {
    hide Huffman.Represents, LengthStep, BitReader.Rest;
    var lens: seq<nat> := [];
    ghost var want := CodeLengths(clen, br.Rest(), [], total);
    while |lens| < total
      invariant br.Valid() && |lens| <= total && LengthsOk(lens)
      invariant want == CodeLengths(clen, br.Rest(), lens, total)
      decreases |br.Rest()|
    {
      LengthStepShrinks(clen, br.Rest(), lens, total);
      var step := ReadLength(br, h, clen, lens, total);
      if step.Err? { return step; }
      lens := step.value;
    }
    r := Ok(lens);
  }

  method ReadTables(br: BitReader, clen: seq<nat>, nlit: nat, ndist: nat)
    returns (r: Result<(seq<nat>, seq<nat>), Error>, lh: Huffman, dh: Huffman)
    requires br.Valid() && LengthsOk(clen)
    modifies br
    ensures br.Valid() && fresh(lh) && fresh(dh)
    ensures Tables(clen, nlit, ndist, old(br.Rest())).Err? ==>
      r == Err(Tables(clen, nlit, ndist, old(br.Rest())).error)
    ensures Tables(clen, nlit, ndist, old(br.Rest())).Ok? ==>
      r.Ok? && Tables(clen, nlit, ndist, old(br.Rest())).value == (br.Rest(), r.value.0, r.value.1)
      && lh.Represents(r.value.0) && dh.Represents(r.value.1)
  {
    hide Huffman.Represents, CodeLengths, BitReader.Rest, Accepted;
    lh := new Huffman();
    dh := new Huffman();
    var clh := new Huffman();
    var ok := clh.Build(clen);
    if !ok { r := Err(BadCodeLengthTable); return; }
    var lens := ReadLengths(br, clh, clen, nlit + ndist);
    if lens.Err? { r := Err(lens.error); return; }
    var lit, dist := lens.value[..nlit], lens.value[nlit..];
    r := Ok((lit, dist));
    ok := lh.Build(lit);
    if !ok { r := Err(BadHuffmanTable); return; }
    ok := dh.Build(dist);
    if !ok { r := Err(BadHuffmanTable); return; }
  }

  method ReadHeader(br: BitReader) returns (r: Result<(seq<nat>, seq<nat>), Error>, lh: Huffman, dh: Huffman)
    requires br.Valid()
    modifies br
    ensures br.Valid() && fresh(lh) && fresh(dh)
    ensures DynamicHeader(old(br.Rest())).Err? ==> r == Err(DynamicHeader(old(br.Rest())).error)
    ensures DynamicHeader(old(br.Rest())).Ok? ==>
      r.Ok? && DynamicHeader(old(br.Rest())).value == (br.Rest(), r.value.0, r.value.1)
      && lh.Represents(r.value.0) && dh.Represents(r.value.1)
  {
    hide Huffman.Represents, Value, BitReader.Rest, Tables, ClenFrom;
    lh := new Huffman();
    dh := new Huffman();
    ghost var b := br.Rest();
    var hlit := br.ReadBits(5);
    var hdist := br.ReadBits(5);
    var hclen := br.ReadBits(4);
    if hlit < 0 || hdist < 0 || hclen < 0 { r := Err(TruncatedHeader); return; }
    HeaderSlices(b);
    var nlit, ndist, ncode := hlit + 257, hdist + 1, hclen + 4;
    if nlit > 286 || ndist > 30 { r := Err(BadTableSizes); return; }
    ClenCountOk(b[10..14]);
    var clen := ReadClen(br, ncode);
    if clen.Err? { r := Err(clen.error); return; }
    assert b[14..][3 * ncode..] == b[14 + 3 * ncode..];
    r, lh, dh := ReadTables(br, clen.value, nlit, ndist);
  }

  lemma {:induction false} HeaderSlices(b: Bits)
    requires |b| >= 14
    ensures b[5..][..5] == b[5..10] && b[5..][5..] == b[10..]
    ensures b[10..][..4] == b[10..14] && b[10..][4..] == b[14..]
  {}

  // ----- The whole stream -----

  lemma {:induction false} CountConstant(lengths: seq<nat>, l: nat, v: nat, a: nat, b: nat)
    requires a <= b <= |lengths| && forall i :: a <= i < b ==> lengths[i] == v
    ensures |SymsWith(lengths, l, b)| == |SymsWith(lengths, l, a)| + if v == l then b - a else 0
  {
    if a < b { CountConstant(lengths, l, v, a, b - 1); }
  }

  lemma {:induction false} FixedLengths()
    ensures |FixedLit()| == 288 && |FixedDist()| == 30
    ensures forall i :: 0 <= i < 144 || 280 <= i < 288 ==> FixedLit()[i] == 8
    ensures (forall i :: 144 <= i < 256 ==> FixedLit()[i] == 9) && forall i :: 256 <= i < 280 ==> FixedLit()[i] == 7
    ensures forall i :: 0 <= i < 30 ==> FixedDist()[i] == 5
  {}

  lemma {:induction false} NoSyms(lengths: seq<nat>, l: nat)
    ensures |SymsWith(lengths, l, 0)| == 0
  {}

  lemma {:induction false} FixedCounts(l: nat)
    ensures Count(FixedLit(), l) == if l == 7 then 24 else if l == 8 then 152 else if l == 9 then 112 else 0
    ensures Count(FixedDist(), l) == if l == 5 then 30 else 0
  {
    FixedLengths();
    NoSyms(FixedLit(), l);
    NoSyms(FixedDist(), l);
    hide SymsWith, FixedLit, FixedDist;
    CountConstant(FixedLit(), l, 8, 0, 144);
    CountConstant(FixedLit(), l, 9, 144, 256);
    CountConstant(FixedLit(), l, 7, 256, 280);
    CountConstant(FixedLit(), l, 8, 280, 288);
    CountConstant(FixedDist(), l, 5, 0, 30);
  }

  /** The fixed tables of section 3.2.6 of RFC 1951 are accepted. */
  lemma {:induction false} FixedAccepted()
    ensures Accepted(FixedLit()) && Accepted(FixedDist())
    ensures LengthsOk(FixedLit()) && LengthsOk(FixedDist())
  {
    forall l | 1 <= l <= MAX_BITS
      ensures Left(FixedLit(), l) >= 0 && Left(FixedDist(), l) >= 0
    {
      FixedLeft(l);
    }
  }

  lemma {:induction false} FixedLeft(l: nat)
    ensures Left(FixedLit(), l) == if l <= 6 then Pow2(l) else if l == 7 then 104 else if l == 8 then 56 else 0
    ensures Left(FixedDist(), l) == if l <= 4 then Pow2(l) else 2 * Pow2(l - 5)
  {
    hide Count, FixedLit, FixedDist;
    FixedCounts(l);
    if l > 0 {
      FixedLeft(l - 1);
      assert Pow2(4) == 16;
      assert Pow2(6) == 64;
    }
  }

  method FixedTables() returns (lh: Huffman, dh: Huffman)
    ensures fresh(lh) && fresh(dh) && lh.Represents(FixedLit()) && dh.Represents(FixedDist())
  {
    hide Huffman.Represents;
    FixedAccepted();
    lh := new Huffman();
    dh := new Huffman();
    var _ := lh.Build(FixedLit());
    var _ := dh.Build(FixedDist());
  }

  method ReadDynamic(br: BitReader, out: seq<byte>) returns (r: Result<seq<byte>, Error>)
    requires br.Valid()
    modifies br
    ensures br.Valid()
    ensures Block(2, old(br.Rest()), out).Err? ==> r == Err(Block(2, old(br.Rest()), out).error)
    ensures Block(2, old(br.Rest()), out).Ok? ==>
      r.Ok? && Block(2, old(br.Rest()), out).value == (br.Rest(), r.value)
  {
    hide Huffman.Represents, Accepted, CodedBlock, DynamicHeader, BitReader.Rest;
    var tables, lh, dh := ReadHeader(br);
    if tables.Err? { return Err(tables.error); }
    r := ReadCodes(br, lh, dh, tables.value.0, tables.value.1, out);
  }

  method ReadBlock(br: BitReader, kind: nat, lh: Huffman, dh: Huffman, out: seq<byte>) returns (r: Result<seq<byte>, Error>)
    requires br.Valid() && lh.Represents(FixedLit()) && dh.Represents(FixedDist())
    modifies br
    ensures br.Valid()
    ensures Block(kind, old(br.Rest()), out).Err? ==> r == Err(Block(kind, old(br.Rest()), out).error)
    ensures Block(kind, old(br.Rest()), out).Ok? ==>
      r.Ok? && Block(kind, old(br.Rest()), out).value == (br.Rest(), r.value)
  {
    hide Huffman.Represents, StoredBlock, CodedBlock, DynamicHeader, BitReader.Rest, FixedLit, FixedDist;
    if kind == 0 {
      r := ReadStored(br, out);
    } else if kind == 1 {
      r := ReadCodes(br, lh, dh, FixedLit(), FixedDist(), out);
    } else if kind == 2 {
      r := ReadDynamic(br, out);
    } else {
      r := Err(ReservedBlockType);
    }
  }

  /** Decode a whole DEFLATE stream; every input ends in an output or an error. */
  method InflateRaw(data: seq<byte>) returns (r: Result<seq<byte>, Error>)
    ensures r == Inflated(data)
    ensures r.Ok? ==> |r.value| <= 256 * 1024 * 1024
  {
    hide Huffman.Represents, Block, BitReader.Rest, FixedLit, FixedDist, Value, BytesToBits;
    BlocksCapped(BytesToBits(data), []);
    var br := new BitReader(data);
    var lh, dh := FixedTables();
    var out: seq<byte> := [];
    while true
      invariant br.Valid() && fresh(br) && lh.Represents(FixedLit()) && dh.Represents(FixedDist())
      invariant Inflated(data) == Blocks(br.Rest(), out)
      decreases |br.Rest()|
    {
      ghost var b := br.Rest();
      var final := br.Bit();
      if final < 0 { return Err(Truncated); }
      var kind := br.ReadBits(2);
      if kind < 0 { return Err(Truncated); }
      assert b[1..][..2] == b[1..3] && b[1..][2..] == b[3..];
      BlockShrinks(kind, br.Rest(), out);
      var step := ReadBlock(br, kind, lh, dh, out);
      if step.Err? { return step; }
      out := step.value;
      if final != 0 { return Ok(out); }
    }
  }
}
