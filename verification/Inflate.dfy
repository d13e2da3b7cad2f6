/** The DEFLATE decoder (RFC 1951): what it computes on a bit stream, and the loops that compute it. */
module Inflate {
  import opened Arithmetic
  import opened Wrappers
  import opened Bytes
  import opened BitStream
  import opened Huffman

  datatype Error =
    | Truncated | ReservedBlockType
    | ShortStored | StoredOverrun | TooLarge
    | TruncatedHeader | BadTableSizes | TruncatedClen | BadCodeLengthTable
    | BadCodeLength | RepeatAtStart | TruncatedRepeat | RepeatOverruns | BadHuffmanTable
    | BadSymbol | BadLengthCode | TruncatedLength | BadDistanceCode | TruncatedDistance | DistanceBeforeStart

  /** The cap on the output: 256 MB. */
  const MAX_INFLATE: nat := 268435456

  const LEN_BASE: seq<nat> := [
    3, 4, 5, 6, 7, 8, 9, 10, 11, 13, 15, 17, 19, 23, 27, 31, 35, 43, 51, 59, 67, 83, 99, 115, 131, 163, 195, 227, 258]
  const LEN_EXTRA: seq<nat> := [
    0, 0, 0, 0, 0, 0, 0, 0, 1, 1, 1, 1, 2, 2, 2, 2, 3, 3, 3, 3, 4, 4, 4, 4, 5, 5, 5, 5, 0]
  const DIST_BASE: seq<nat> := [
    1, 2, 3, 4, 5, 7, 9, 13, 17, 25, 33, 49, 65, 97, 129, 193, 257, 385, 513, 769, 1025, 1537, 2049, 3073,
    4097, 6145, 8193, 12289, 16385, 24577]
  const DIST_EXTRA: seq<nat> := [
    0, 0, 0, 0, 1, 1, 2, 2, 3, 3, 4, 4, 5, 5, 6, 6, 7, 7, 8, 8, 9, 9, 10, 10, 11, 11, 12, 12, 13, 13]

  /** The order in which a dynamic block lists the lengths of the code length code. */
  const CLEN_ORDER: seq<nat> := [16, 17, 18, 0, 8, 7, 9, 6, 10, 5, 11, 4, 12, 3, 13, 2, 14, 1, 15]

  function FixedLit(): seq<nat> { seq(288, i => if i < 144 then 8 else if i < 256 then 9 else if i < 280 then 7 else 8) }

  function FixedDist(): seq<nat> { seq(30, i => 5) }

  // ----- What a stream decodes to -----

  /** An n-bit number and what follows it. */
  ghost function Take(b: Bits, n: nat): Option<(nat, Bits)> {
    if n <= |b| then Some((Value(b[..n]), b[n..])) else None
  }

  /** The output after copying n bytes from `distance` back, byte by byte: copies may overlap. */
  ghost function CopyBack(out: seq<byte>, distance: nat, n: nat): seq<byte>
    requires 1 <= distance <= |out|
    decreases n
  {
    if n == 0 then out else CopyBack(out + [out[|out| - distance]], distance, n - 1)
  }

  /** The first n whole bytes of a stream. */
  ghost function FirstBytes(b: Bits, n: nat): (d: seq<byte>)
    requires 8 * n <= |b|
    ensures |d| == n
  {
    BitsToBytes(b[..8 * n])
  }

  ghost function StoredBlock(b: Bits, out: seq<byte>): Result<(Bits, seq<byte>), Error> {
    var a := Aligned(b);
    if |a| < 32 then Err(ShortStored)
    else
      var len := Value(a[..16]);
      if |a| < 32 + 8 * len then Err(StoredOverrun)
      else if |out| + len > MAX_INFLATE then Err(TooLarge)
      else Ok((a[32..][8 * len..], out + FirstBytes(a[32..], len)))
  }

  /** A length symbol has been read: the rest of the back-reference. */
  ghost function MatchBlock(li: nat, dist: seq<nat>, b: Bits, out: seq<byte>): Result<(Bits, seq<byte>), Error> {
    if li >= 29 then Err(BadLengthCode)
    else match Take(b, LEN_EXTRA[li])
      case None => Err(TruncatedLength)
      case Some((le, b1)) =>
        match Decode(dist, b1)
        case None => Err(BadDistanceCode)
        case Some((ds, b2)) =>
          if ds >= 30 then Err(BadDistanceCode)
          else match Take(b2, DIST_EXTRA[ds])
            case None => Err(TruncatedDistance)
            case Some((de, b3)) =>
              var length, distance := LEN_BASE[li] + le, DIST_BASE[ds] + de;
              if distance > |out| then Err(DistanceBeforeStart)
              else if |out| + length > MAX_INFLATE then Err(TooLarge)
              else assert DIST_BASE[ds] >= 1; Ok((b3, CopyBack(out, distance, length)))
  }

  lemma {:induction false} MatchShrinks(li: nat, dist: seq<nat>, b: Bits, out: seq<byte>)
    ensures var r := MatchBlock(li, dist, b, out); r.Ok? ==> |r.value.0| <= |b|
  {
    if li < 29 && LEN_EXTRA[li] <= |b| {
      DecodeShrinks(dist, b[LEN_EXTRA[li]..], 1, 0, 0);
    }
  }

  /** One symbol of a compressed block; the flag says it was the end-of-block symbol. */
  ghost function CodedStep(lit: seq<nat>, dist: seq<nat>, b: Bits, out: seq<byte>): Result<(Bits, seq<byte>, bool), Error> {
    match Decode(lit, b)
    case None => Err(BadSymbol)
    case Some((sym, b1)) =>
      if sym < 256 then if |out| >= MAX_INFLATE then Err(TooLarge) else Ok((b1, out + [sym], false))
      else if sym == 256 then Ok((b1, out, true))
      else match MatchBlock(sym - 257, dist, b1, out)
        case Err(e) => Err(e)
        case Ok((b2, out2)) => Ok((b2, out2, false))
  }

  lemma {:induction false} CodedStepShrinks(lit: seq<nat>, dist: seq<nat>, b: Bits, out: seq<byte>)
    ensures var r := CodedStep(lit, dist, b, out); r.Ok? ==> |r.value.0| < |b|
  {
    hide MatchBlock;
    DecodeShrinks(lit, b, 1, 0, 0);
    if Decode(lit, b).Some? && Decode(lit, b).value.0 > 256 {
      MatchShrinks(Decode(lit, b).value.0 - 257, dist, Decode(lit, b).value.1, out);
    }
  }

  /** The symbols of a compressed block up to its end-of-block symbol. */
  ghost function CodedBlock(lit: seq<nat>, dist: seq<nat>, b: Bits, out: seq<byte>): Result<(Bits, seq<byte>), Error>
    decreases |b|
  {
    CodedStepShrinks(lit, dist, b, out);
    match CodedStep(lit, dist, b, out)
    case Err(e) => Err(e)
    case Ok((b1, out1, done)) => if done then Ok((b1, out1)) else CodedBlock(lit, dist, b1, out1)
  }

  /** n three-bit lengths, put in their places in the code length code. */
  ghost function ClenFrom(b: Bits, n: nat): seq<nat>
    requires n <= 19 && 3 * n <= |b|
    ensures |ClenFrom(b, n)| == 19 && LengthsOk(ClenFrom(b, n))
  {
    if n == 0 then seq(19, i => 0)
    else
      ValueBound(b[3 * (n - 1)..3 * n]);
      assert Pow2(3) == 8;
      ClenFrom(b, n - 1)[CLEN_ORDER[n - 1] := Value(b[3 * (n - 1)..3 * n])]
  }

  ghost function Repeat(v: nat, n: nat): seq<nat> { seq(n, i => v) }

  /** The run a repeat symbol stands for: its value and length. */
  ghost function RunOf(sym: nat, lens: seq<nat>, b: Bits): Result<(nat, nat, Bits), Error>
    requires sym >= 16
  {
    if sym == 16 then
      if lens == [] then Err(RepeatAtStart)
      else match Take(b, 2)
        case None => Err(TruncatedRepeat)
        case Some((e, b1)) => Ok((lens[|lens| - 1], 3 + e, b1))
    else if sym == 17 then
      match Take(b, 3)
      case None => Err(TruncatedRepeat)
      case Some((e, b1)) => Ok((0, 3 + e, b1))
    else
      match Take(b, 7)
      case None => Err(TruncatedRepeat)
      case Some((e, b1)) => Ok((0, 11 + e, b1))
  }

  /** One symbol of the run-length coded code lengths. */
  ghost function LengthStep(clen: seq<nat>, b: Bits, lens: seq<nat>, total: nat): (r: Result<(Bits, seq<nat>), Error>)
    requires |lens| < total
    ensures r.Ok? ==> |r.value.1| <= total
  {
    match Decode(clen, b)
    case None => Err(BadCodeLength)
    case Some((sym, b1)) =>
      if sym < 16 then Ok((b1, lens + [sym]))
      else match RunOf(sym, lens, b1)
        case Err(e) => Err(e)
        case Ok((val, rep, b2)) =>
          if |lens| + rep > total then Err(RepeatOverruns) else Ok((b2, lens + Repeat(val, rep)))
  }

  lemma {:induction false} LengthStepShrinks(clen: seq<nat>, b: Bits, lens: seq<nat>, total: nat)
    requires |lens| < total
    ensures var r := LengthStep(clen, b, lens, total); r.Ok? ==> |r.value.0| < |b|
  {
    DecodeShrinks(clen, b, 1, 0, 0);
  }

  /** The code lengths of both tables, run-length coded by the code length code. */
  ghost function CodeLengths(clen: seq<nat>, b: Bits, lens: seq<nat>, total: nat): (r: Result<(Bits, seq<nat>), Error>)
    requires |lens| <= total
    ensures r.Ok? ==> |r.value.1| == total && |r.value.0| <= |b|
    decreases |b|
  {
    if |lens| == total then Ok((b, lens))
    else
      LengthStepShrinks(clen, b, lens, total);
      match LengthStep(clen, b, lens, total)
      case Err(e) => Err(e)
      case Ok((b1, lens1)) => CodeLengths(clen, b1, lens1, total)
  }

  /** Both tables' code lengths, once the code length code is known. */
  ghost function Tables(clen: seq<nat>, nlit: nat, ndist: nat, b: Bits): (r: Result<(Bits, seq<nat>, seq<nat>), Error>)
    ensures r.Ok? ==> |r.value.0| <= |b| && |r.value.1| == nlit && |r.value.2| == ndist
  {
    if !Accepted(clen) then Err(BadCodeLengthTable)
    else
      match CodeLengths(clen, b, [], nlit + ndist)
      case Err(e) => Err(e)
      case Ok((b1, lens)) =>
        if !Accepted(lens[..nlit]) || !Accepted(lens[nlit..]) then Err(BadHuffmanTable)
        else Ok((b1, lens[..nlit], lens[nlit..]))
  }

  /** The header of a dynamic block: sizes, the code length code, then both tables. */
  ghost function DynamicHeader(b: Bits): (r: Result<(Bits, seq<nat>, seq<nat>), Error>)
    ensures r.Ok? ==> |r.value.0| <= |b|
  {
    if |b| < 14 then Err(TruncatedHeader)
    else
      var nlit, ndist, ncode := Value(b[..5]) + 257, Value(b[5..10]) + 1, Value(b[10..14]) + 4;
      if nlit > 286 || ndist > 30 then Err(BadTableSizes)
      else if |b| < 14 + 3 * ncode then Err(TruncatedClen)
      else
        ClenCountOk(b[10..14]);
        Tables(ClenFrom(b[14..], ncode), nlit, ndist, b[14 + 3 * ncode..])
  }

  lemma {:induction false} ClenCountOk(b: Bits)
    requires |b| == 4
    ensures Value(b) + 4 <= 19
  {
    ValueBound(b);
    assert Pow2(4) == 16;
  }

  ghost function Block(kind: nat, b: Bits, out: seq<byte>): Result<(Bits, seq<byte>), Error> {
    if kind == 0 then StoredBlock(b, out)
    else if kind == 1 then CodedBlock(FixedLit(), FixedDist(), b, out)
    else if kind == 2 then
      match DynamicHeader(b)
      case Err(e) => Err(e)
      case Ok((b1, lit, dist)) => CodedBlock(lit, dist, b1, out)
    else Err(ReservedBlockType)
  }

  /** Blocks up to and including the final one. */
  ghost function Blocks(b: Bits, out: seq<byte>): Result<seq<byte>, Error>
    decreases |b|
  {
    if |b| < 3 then Err(Truncated)
    else
      BlockShrinks(Value(b[1..3]), b[3..], out);
      match Block(Value(b[1..3]), b[3..], out)
      case Err(e) => Err(e)
      case Ok((b1, out1)) => if b[0] then Ok(out1) else Blocks(b1, out1)
  }

  /** The decoded output of a compressed byte string. */
  ghost function Inflated(data: seq<byte>): Result<seq<byte>, Error> {
    Blocks(BytesToBits(data), [])
  }

  // ----- The cap on the output holds -----

  lemma {:induction false} CopyBackSize(out: seq<byte>, distance: nat, n: nat)
    requires 1 <= distance <= |out|
    ensures |CopyBack(out, distance, n)| == |out| + n
    decreases n
  {
    if n > 0 { CopyBackSize(out + [out[|out| - distance]], distance, n - 1); }
  }

  lemma {:induction false} CodedStepCapped(lit: seq<nat>, dist: seq<nat>, b: Bits, out: seq<byte>)
    requires |out| <= MAX_INFLATE
    ensures var r := CodedStep(lit, dist, b, out); r.Ok? ==> |r.value.1| <= MAX_INFLATE
  {
    hide Decode, MatchBlock;
    if Decode(lit, b).Some? && Decode(lit, b).value.0 > 256 {
      MatchCapped(Decode(lit, b).value.0 - 257, dist, Decode(lit, b).value.1, out);
    }
  }

  lemma {:induction false} MatchCapped(li: nat, dist: seq<nat>, b: Bits, out: seq<byte>)
    ensures var r := MatchBlock(li, dist, b, out); r.Ok? ==> |r.value.1| <= MAX_INFLATE
  {
    hide Decode, Take, CopyBack;
    if MatchBlock(li, dist, b, out).Ok? {
      var b1 := Take(b, LEN_EXTRA[li]).value.1;
      var (ds, b2) := Decode(dist, b1).value;
      CopyBackSize(out, DIST_BASE[ds] + Take(b2, DIST_EXTRA[ds]).value.0, LEN_BASE[li] + Take(b, LEN_EXTRA[li]).value.0);
    }
  }

  lemma {:induction false} CodedBlockCapped(lit: seq<nat>, dist: seq<nat>, b: Bits, out: seq<byte>)
    requires |out| <= MAX_INFLATE
    ensures var r := CodedBlock(lit, dist, b, out); r.Ok? ==> |r.value.1| <= MAX_INFLATE
    decreases |b|
  {
    hide CodedStep;
    CodedStepShrinks(lit, dist, b, out);
    CodedStepCapped(lit, dist, b, out);
    var r := CodedStep(lit, dist, b, out);
    if r.Ok? && !r.value.2 { CodedBlockCapped(lit, dist, r.value.0, r.value.1); }
  }

  lemma {:induction false} BlockCapped(kind: nat, b: Bits, out: seq<byte>)
    requires |out| <= MAX_INFLATE
    ensures var r := Block(kind, b, out); r.Ok? ==> |r.value.1| <= MAX_INFLATE
  {
    hide CodedBlock, DynamicHeader, Value, FixedLit, FixedDist, BitsToBytes;
    if kind == 1 {
      CodedBlockCapped(FixedLit(), FixedDist(), b, out);
    } else if kind == 2 && DynamicHeader(b).Ok? {
      var (b1, lit, dist) := DynamicHeader(b).value;
      CodedBlockCapped(lit, dist, b1, out);
    }
  }

  lemma {:induction false} BlocksCapped(b: Bits, out: seq<byte>)
    requires |out| <= MAX_INFLATE
    ensures Blocks(b, out).Ok? ==> |Blocks(b, out).value| <= MAX_INFLATE
    decreases |b|
  {
    hide Block, Value;
    if |b| >= 3 {
      BlockShrinks(Value(b[1..3]), b[3..], out);
      BlockCapped(Value(b[1..3]), b[3..], out);
      var r := Block(Value(b[1..3]), b[3..], out);
      if r.Ok? && !b[0] { BlocksCapped(r.value.0, r.value.1); }
    }
  }

  // ----- No stage gives bits back -----

  lemma {:induction false} CodedBlockShrinks(lit: seq<nat>, dist: seq<nat>, b: Bits, out: seq<byte>)
    ensures var r := CodedBlock(lit, dist, b, out); r.Ok? ==> |r.value.0| <= |b|
    decreases |b|
  {
    CodedStepShrinks(lit, dist, b, out);
    var r := CodedStep(lit, dist, b, out);
    if r.Ok? && !r.value.2 { CodedBlockShrinks(lit, dist, r.value.0, r.value.1); }
  }

  lemma {:induction false} BlockShrinks(kind: nat, b: Bits, out: seq<byte>)
    ensures var r := Block(kind, b, out); r.Ok? ==> |r.value.0| <= |b|
  {
    if kind == 1 {
      CodedBlockShrinks(FixedLit(), FixedDist(), b, out);
    } else if kind == 2 && DynamicHeader(b).Ok? {
      var (b1, lit, dist) := DynamicHeader(b).value;
      CodedBlockShrinks(lit, dist, b1, out);
    }
  }
}
