/** A specification of DEFLATE encoding (sections 3.2.3 to 3.2.7 of RFC 1951), and the proof that decoding undoes it. */
module Deflate {
  import opened Arithmetic
  import opened Wrappers
  import opened Bytes
  import opened BitStream
  import opened Huffman
  import opened Inflate
  import opened InflateRaw

  // ----- What is encoded -----

  /** An LZ77 token. */
  datatype Token = Literal(b: byte) | Match(length: nat, distance: nat)

  /** One symbol of the run-length coded code lengths. */
  datatype Run = Len(n: nat) | CopyPrevious(times: nat) | Zeros(times: nat) | ManyZeros(times: nat)

  /** A dynamic block's header: the code length code, how many of its lengths are sent, and the coded lengths. */
  datatype Header = Header(clen: seq<nat>, ncode: nat, runs: seq<Run>, nlit: nat, ndist: nat)

  datatype BlockSpec = Stored(data: seq<byte>, check: nat, fill: Bits) | Fixed(tokens: seq<Token>) | Dynamic(header: Header, tokens: seq<Token>)

  ghost predicate TokenOk(t: Token, size: nat) {
    t.Match? ==> 3 <= t.length <= 258 && 1 <= t.distance <= 32768 && t.distance <= size
  }

  /** The LZ77 meaning of one token. */
  ghost function Apply(t: Token, out: seq<byte>): seq<byte>
    requires TokenOk(t, |out|)
  {
    match t
    case Literal(b) => out + [b]
    case Match(length, distance) => CopyBack(out, distance, length)
  }

  ghost predicate TokensOk(tokens: seq<Token>, out: seq<byte>)
    decreases tokens
  {
    tokens == [] || (TokenOk(tokens[0], |out|) && TokensOk(tokens[1..], Apply(tokens[0], out)))
  }

  ghost function Expand(tokens: seq<Token>, out: seq<byte>): seq<byte>
    requires TokensOk(tokens, out)
    decreases tokens
  {
    if tokens == [] then out else Expand(tokens[1..], Apply(tokens[0], out))
  }

  lemma {:induction false} ExpandGrows(tokens: seq<Token>, out: seq<byte>)
    requires TokensOk(tokens, out)
    ensures |out| <= |Expand(tokens, out)|
    decreases tokens
  {
    if tokens != [] {
      var t := tokens[0];
      if t.Match? { CopyBackSize(out, t.distance, t.length); }
      ExpandGrows(tokens[1..], Apply(t, out));
    }
  }

  // ----- Length and distance symbols -----

  /** The last index at or below i whose base does not exceed v. */
  ghost function IndexFrom(base: seq<nat>, v: nat, i: nat): (r: nat)
    requires i < |base| && base[0] <= v
    ensures r <= i && base[r] <= v
    ensures r < i ==> v < base[r + 1]
  {
    if base[i] <= v then i else IndexFrom(base, v, i - 1)
  }

  ghost function LengthIndex(length: nat): nat
    requires 3 <= length <= 258
  {
    IndexFrom(LEN_BASE, length, 28)
  }

  ghost function DistanceIndex(distance: nat): nat
    requires 1 <= distance <= 32768
  {
    IndexFrom(DIST_BASE, distance, 29)
  }

  lemma PowersTo13()
    ensures Pow2(0) == 1 && Pow2(1) == 2 && Pow2(2) == 4 && Pow2(3) == 8 && Pow2(4) == 16 && Pow2(5) == 32
    ensures Pow2(6) == 64 && Pow2(7) == 128 && Pow2(8) == 256 && Pow2(9) == 512 && Pow2(10) == 1024
    ensures Pow2(11) == 2048 && Pow2(12) == 4096 && Pow2(13) == 8192 && Pow2(14) == 16384 && Pow2(15) == 32768
    ensures Pow2(16) == 65536
  {}

  /**
   * Section 3.2.5: four length symbols share each number of extra bits above 0, the ranges of symbols 257 to 284 are
   * contiguous from 3 on, and symbol 285 is the length 258 alone.
   */
  lemma {:induction false} LengthSymbols(i: nat)
    requires i < 28
    ensures |LEN_BASE| == |LEN_EXTRA| == 29 && LEN_EXTRA[28] == 0
    ensures LEN_EXTRA[i] == if i < 8 then 0 else i / 4 - 1
    ensures LEN_BASE[0] == 3 && LEN_BASE[28] == 258
    ensures LEN_BASE[i + 1] == LEN_BASE[i] + Pow2(LEN_EXTRA[i]) - if i == 27 then 1 else 0
  {
    hide Pow2, LEN_BASE, LEN_EXTRA;
    PowersTo13();
    LengthExtras(i);
    LengthBases(i);
  }

  lemma {:induction false} LengthExtras(i: nat)
    requires i < 28
    ensures |LEN_EXTRA| == 29 && LEN_EXTRA[28] == 0 && LEN_EXTRA[i] == if i < 8 then 0 else i / 4 - 1
  {}

  lemma {:induction false} LengthBases(i: nat)
    requires i < 28
    ensures |LEN_BASE| == 29 && LEN_BASE[0] == 3 && LEN_BASE[28] == 258
    ensures LEN_BASE[i + 1] - LEN_BASE[i] ==
      if i < 8 then 1 else if i < 12 then 2 else if i < 16 then 4 else if i < 20 then 8 else if i < 24 then 16 else if i < 27 then 32 else 31
  {}

  /** Two distance symbols share each number of extra bits above 0, and the ranges are contiguous from 1 to 32768. */
  lemma {:induction false} DistanceSymbols(i: nat)
    requires i < 30
    ensures |DIST_BASE| == |DIST_EXTRA| == 30
    ensures DIST_EXTRA[i] == if i < 4 then 0 else i / 2 - 1
    ensures DIST_BASE[0] == 1 && DIST_BASE[i] + Pow2(DIST_EXTRA[i]) == if i == 29 then 32769 else DIST_BASE[i + 1]
  {
    hide Pow2, DIST_BASE, DIST_EXTRA;
    DistanceExtras(i);
    DistanceBases(i);
    if i >= 4 { PowerOfHalf(i); }
    PowersTo13();
  }

  lemma {:induction false} DistanceExtras(i: nat)
    requires i < 30
    ensures |DIST_EXTRA| == 30 && DIST_EXTRA[i] == if i < 4 then 0 else i / 2 - 1
  {}

  lemma {:induction false} DistanceBases(i: nat)
    requires i < 30
    ensures |DIST_BASE| == 30 && DIST_BASE[0] == 1 && DIST_BASE[29] == 24577
    ensures i < 29 ==> DIST_BASE[i + 1] - DIST_BASE[i] == Spacing(i)
  {}

  /** 2 ^ (i / 2 - 1), for the thirty distance symbols. */
  ghost function Spacing(i: nat): nat {
    if i < 4 then 1
    else if i < 6 then 2 else if i < 8 then 4 else if i < 10 then 8 else if i < 12 then 16 else if i < 14 then 32
    else if i < 16 then 64 else if i < 18 then 128 else if i < 20 then 256 else if i < 22 then 512 else if i < 24 then 1024
    else if i < 26 then 2048 else if i < 28 then 4096 else 8192
  }

  lemma {:induction false} PowerOfHalf(i: nat)
    requires 4 <= i < 30
    ensures Pow2(i / 2 - 1) == Spacing(i)
  {
    hide Pow2;
    PowersTo13();
  }

  /** Every length of a symbol's range is reachable with its extra bits: the ranges leave no gap. */
  lemma {:induction false} LengthCovered(length: nat)
    requires 3 <= length <= 258
    ensures var li := LengthIndex(length); li < 29 && 0 <= length - LEN_BASE[li] < Pow2(LEN_EXTRA[li])
  {
    var li := LengthIndex(length);
    LengthSymbols(if li < 28 then li else 0);
  }

  lemma {:induction false} DistanceCovered(distance: nat)
    requires 1 <= distance <= 32768
    ensures var di := DistanceIndex(distance); di < 30 && 0 <= distance - DIST_BASE[di] < Pow2(DIST_EXTRA[di])
  {
    var di := DistanceIndex(distance);
    DistanceSymbols(di);
  }

  // ----- Compressed blocks -----

  ghost predicate CanEncodeToken(t: Token, lit: seq<nat>, dist: seq<nat>) {
    match t
    case Literal(b) => HasCode(lit, b)
    case Match(length, distance) =>
      3 <= length <= 258 && 1 <= distance <= 32768
      && HasCode(lit, 257 + LengthIndex(length)) && HasCode(dist, DistanceIndex(distance))
  }

  ghost predicate CanEncode(tokens: seq<Token>, lit: seq<nat>, dist: seq<nat>) {
    HasCode(lit, 256) && forall i :: 0 <= i < |tokens| ==> CanEncodeToken(tokens[i], lit, dist)
  }

  ghost function EncodeDistance(distance: nat, dist: seq<nat>): Bits
    requires 1 <= distance <= 32768 && HasCode(dist, DistanceIndex(distance))
  {
    var di := DistanceIndex(distance);
    CodeBits(dist, di) + LowBits(distance - DIST_BASE[di], DIST_EXTRA[di])
  }

  ghost function EncodeToken(t: Token, lit: seq<nat>, dist: seq<nat>): Bits
    requires CanEncodeToken(t, lit, dist)
  {
    match t
    case Literal(b) => CodeBits(lit, b)
    case Match(length, distance) =>
      var li := LengthIndex(length);
      CodeBits(lit, 257 + li) + (LowBits(length - LEN_BASE[li], LEN_EXTRA[li]) + EncodeDistance(distance, dist))
  }

  /** The tokens' codes, then the end-of-block symbol. */
  ghost function EncodeTokens(tokens: seq<Token>, lit: seq<nat>, dist: seq<nat>): Bits
    requires CanEncode(tokens, lit, dist)
  {
    if tokens == [] then CodeBits(lit, 256)
    else EncodeToken(tokens[0], lit, dist) + EncodeTokens(tokens[1..], lit, dist)
  }

  /** An n-bit field is read back whatever follows it. */
  lemma {:induction false} TakeField(v: nat, n: nat, rest: Bits)
    requires v < Pow2(n)
    ensures Take(LowBits(v, n) + rest, n) == Some((v, rest))
  {
    ValueOfLowBits(v, n);
    var b := LowBits(v, n) + rest;
    assert b[..n] == LowBits(v, n) && b[n..] == rest;
  }

  lemma {:induction false} MatchInverts(length: nat, distance: nat, lit: seq<nat>, dist: seq<nat>, out: seq<byte>, rest: Bits)
    requires CanEncodeToken(Match(length, distance), lit, dist) && Accepted(dist)
    requires distance <= |out| && |out| + length <= MAX_INFLATE
    ensures var li := LengthIndex(length);
      MatchBlock(li, dist, LowBits(length - LEN_BASE[li], LEN_EXTRA[li]) + EncodeDistance(distance, dist) + rest, out)
        == Ok((rest, CopyBack(out, distance, length)))
  {
    hide Decode, CodeBits, LengthIndex, DistanceIndex, CopyBack, LowBits, Take, MatchBlock, EncodeDistance, Accepted;
    DistanceReads(distance, dist, rest);
    var li, di := LengthIndex(length), DistanceIndex(distance);
    var de, b1 := distance - DIST_BASE[di], EncodeDistance(distance, dist) + rest;
    var b2 := LowBits(de, DIST_EXTRA[di]) + rest;
    LengthReads(length, b1);
    var le := length - LEN_BASE[li];
    var b := LowBits(le, LEN_EXTRA[li]) + b1;
    Reassociate(LowBits(le, LEN_EXTRA[li]), EncodeDistance(distance, dist), rest);
    MatchBlockReads(li, dist, b, le, b1, di, b2, de, rest, out);
  }

  lemma {:induction false} LengthReads(length: nat, rest: Bits)
    requires 3 <= length <= 258
    ensures var li := LengthIndex(length);
      && li < 29 && LEN_BASE[li] <= length
      && var le := length - LEN_BASE[li];
         Take(LowBits(le, LEN_EXTRA[li]) + rest, LEN_EXTRA[li]) == Some((le, rest))
  {
    hide LengthIndex, LowBits, Take;
    LengthCovered(length);
    var li := LengthIndex(length);
    TakeField(length - LEN_BASE[li], LEN_EXTRA[li], rest);
  }

  lemma {:induction false} DistanceReads(distance: nat, dist: seq<nat>, rest: Bits)
    requires 1 <= distance <= 32768 && HasCode(dist, DistanceIndex(distance)) && Accepted(dist)
    ensures var di := DistanceIndex(distance);
      && di < 30 && DIST_BASE[di] <= distance
      && var de := distance - DIST_BASE[di];
         var b2 := LowBits(de, DIST_EXTRA[di]) + rest;
         Decode(dist, EncodeDistance(distance, dist) + rest) == Some((di, b2)) && Take(b2, DIST_EXTRA[di]) == Some((de, rest))
  {
    hide Decode, CodeBits, DistanceIndex, LowBits, Take;
    DistanceCovered(distance);
    var di := DistanceIndex(distance);
    var de := distance - DIST_BASE[di];
    var b2 := LowBits(de, DIST_EXTRA[di]) + rest;
    Reassociate(CodeBits(dist, di), LowBits(de, DIST_EXTRA[di]), rest);
    DecodeInvertsCode(dist, di, b2);
    TakeField(de, DIST_EXTRA[di], rest);
  }

  lemma {:induction false} MatchBlockReads(li: nat, dist: seq<nat>, b: Bits, le: nat, b1: Bits, ds: nat, b2: Bits, de: nat, b3: Bits,
                                           out: seq<byte>)
    requires li < 29 && Take(b, LEN_EXTRA[li]) == Some((le, b1)) && Decode(dist, b1) == Some((ds, b2))
    requires ds < 30 && Take(b2, DIST_EXTRA[ds]) == Some((de, b3))
    requires 1 <= DIST_BASE[ds] + de <= |out| && |out| + LEN_BASE[li] + le <= MAX_INFLATE
    ensures MatchBlock(li, dist, b, out) == Ok((b3, CopyBack(out, DIST_BASE[ds] + de, LEN_BASE[li] + le)))
  {
    hide Take, Decode, CopyBack;
  }

  lemma {:induction false} TokenInverts(t: Token, lit: seq<nat>, dist: seq<nat>, out: seq<byte>, rest: Bits)
    requires CanEncodeToken(t, lit, dist) && Accepted(lit) && Accepted(dist)
    requires TokenOk(t, |out|) && |Apply(t, out)| <= MAX_INFLATE
    ensures CodedStep(lit, dist, EncodeToken(t, lit, dist) + rest, out) == Ok((rest, Apply(t, out), false))
  {
    hide Decode, CodeBits, LengthIndex, DistanceIndex, MatchBlock, CopyBack, LowBits;
    match t
    case Literal(b) =>
      DecodeInvertsCode(lit, b, rest);
    case Match(length, distance) =>
      MatchTokenInverts(length, distance, lit, dist, out, rest);
  }

  lemma {:induction false} MatchTokenInverts(length: nat, distance: nat, lit: seq<nat>, dist: seq<nat>, out: seq<byte>, rest: Bits)
    requires CanEncodeToken(Match(length, distance), lit, dist) && Accepted(lit) && Accepted(dist)
    requires distance <= |out| && |CopyBack(out, distance, length)| <= MAX_INFLATE
    ensures CodedStep(lit, dist, EncodeToken(Match(length, distance), lit, dist) + rest, out)
         == Ok((rest, CopyBack(out, distance, length), false))
  {
    hide Decode, CodeBits, LengthIndex, MatchBlock, CopyBack, LowBits, EncodeDistance, Accepted, EncodeToken, CodedStep;
    MatchTokenBits(length, distance, lit, dist, rest);
    var li := LengthIndex(length);
    var b1 := LowBits(length - LEN_BASE[li], LEN_EXTRA[li]) + EncodeDistance(distance, dist) + rest;
    DecodeInvertsCode(lit, 257 + li, b1);
    CopyBackSize(out, distance, length);
    MatchInverts(length, distance, lit, dist, out, rest);
    MatchStep(lit, dist, CodeBits(lit, 257 + li) + b1, li, b1, out);
  }

  lemma {:induction false} MatchTokenBits(length: nat, distance: nat, lit: seq<nat>, dist: seq<nat>, rest: Bits)
    requires CanEncodeToken(Match(length, distance), lit, dist)
    ensures var li := LengthIndex(length);
      && li < 29 && LEN_BASE[li] <= length
      && EncodeToken(Match(length, distance), lit, dist) + rest
           == CodeBits(lit, 257 + li) + (LowBits(length - LEN_BASE[li], LEN_EXTRA[li]) + EncodeDistance(distance, dist) + rest)
  {
    hide CodeBits, LengthIndex, LowBits, EncodeDistance, EncodeToken;
    MatchToken(length, distance, lit, dist);
    var li := LengthIndex(length);
    var field, d := LowBits(length - LEN_BASE[li], LEN_EXTRA[li]), EncodeDistance(distance, dist);
    Reassociate(CodeBits(lit, 257 + li), field + d, rest);
  }

  lemma {:induction false} MatchToken(length: nat, distance: nat, lit: seq<nat>, dist: seq<nat>)
    requires CanEncodeToken(Match(length, distance), lit, dist)
    ensures var li := LengthIndex(length);
      && li < 29 && LEN_BASE[li] <= length
      && EncodeToken(Match(length, distance), lit, dist)
           == CodeBits(lit, 257 + li) + (LowBits(length - LEN_BASE[li], LEN_EXTRA[li]) + EncodeDistance(distance, dist))
  {
    hide CodeBits, LengthIndex, LowBits, EncodeDistance, DistanceIndex, HasCode, Pow2;
    LengthCovered(length);
  }

  lemma {:induction false} MatchStep(lit: seq<nat>, dist: seq<nat>, b: Bits, li: nat, b1: Bits, out: seq<byte>)
    requires Decode(lit, b) == Some((257 + li, b1)) && MatchBlock(li, dist, b1, out).Ok?
    ensures CodedStep(lit, dist, b, out)
         == var r := MatchBlock(li, dist, b1, out).value; Ok((r.0, r.1, false))
  {
    hide Decode, MatchBlock;
  }

  /** Decoding a compressed block gives exactly the LZ77 expansion of its tokens. */
  lemma {:induction false} CodedInverts(tokens: seq<Token>, lit: seq<nat>, dist: seq<nat>, out: seq<byte>, rest: Bits)
    requires Accepted(lit) && Accepted(dist) && CanEncode(tokens, lit, dist)
    requires TokensOk(tokens, out) && |Expand(tokens, out)| <= MAX_INFLATE
    ensures CodedBlock(lit, dist, EncodeTokens(tokens, lit, dist) + rest, out) == Ok((rest, Expand(tokens, out)))
    decreases tokens
  {
    hide Decode, CodeBits, EncodeToken, CanEncodeToken, Apply;
    if tokens == [] {
      DecodeInvertsCode(lit, 256, rest);
    } else {
      var t, more := tokens[0], tokens[1..];
      var b1 := EncodeTokens(more, lit, dist) + rest;
      assert EncodeTokens(tokens, lit, dist) + rest == EncodeToken(t, lit, dist) + b1;
      ExpandGrows(more, Apply(t, out));
      TokenInverts(t, lit, dist, out, b1);
      CodedInverts(more, lit, dist, Apply(t, out), rest);
    }
  }

  // ----- Dynamic headers -----

  ghost function RunSymbol(r: Run): nat {
    match r
    case Len(n) => n
    case CopyPrevious(_) => 16
    case Zeros(_) => 17
    case ManyZeros(_) => 18
  }

  ghost predicate RunOk(r: Run, lens: seq<nat>) {
    match r
    case Len(n) => n < 16
    case CopyPrevious(times) => 3 <= times <= 6 && lens != []
    case Zeros(times) => 3 <= times <= 10
    case ManyZeros(times) => 11 <= times <= 138
  }

  ghost function ApplyRun(r: Run, lens: seq<nat>): seq<nat>
    requires RunOk(r, lens)
  {
    match r
    case Len(n) => lens + [n]
    case CopyPrevious(times) => lens + Repeat(lens[|lens| - 1], times)
    case Zeros(times) => lens + Repeat(0, times)
    case ManyZeros(times) => lens + Repeat(0, times)
  }

  ghost predicate RunsOk(runs: seq<Run>, lens: seq<nat>)
    decreases runs
  {
    runs == [] || (RunOk(runs[0], lens) && RunsOk(runs[1..], ApplyRun(runs[0], lens)))
  }

  ghost function ExpandRuns(runs: seq<Run>, lens: seq<nat>): seq<nat>
    requires RunsOk(runs, lens)
    decreases runs
  {
    if runs == [] then lens else ExpandRuns(runs[1..], ApplyRun(runs[0], lens))
  }

  lemma {:induction false} ExpandRunsGrows(runs: seq<Run>, lens: seq<nat>)
    requires RunsOk(runs, lens)
    ensures |lens| + |runs| <= |ExpandRuns(runs, lens)|
    decreases runs
  {
    if runs != [] { ExpandRunsGrows(runs[1..], ApplyRun(runs[0], lens)); }
  }

  ghost function EncodeRun(r: Run, clen: seq<nat>): Bits
    requires HasCode(clen, RunSymbol(r))
  {
    CodeBits(clen, RunSymbol(r)) +
    match r
    case Len(_) => []
    case CopyPrevious(times) => LowBits(if times >= 3 then times - 3 else 0, 2)
    case Zeros(times) => LowBits(if times >= 3 then times - 3 else 0, 3)
    case ManyZeros(times) => LowBits(if times >= 11 then times - 11 else 0, 7)
  }

  ghost function EncodeRuns(runs: seq<Run>, clen: seq<nat>): Bits
    requires forall i :: 0 <= i < |runs| ==> HasCode(clen, RunSymbol(runs[i]))
  {
    if runs == [] then [] else EncodeRun(runs[0], clen) + EncodeRuns(runs[1..], clen)
  }

  lemma {:induction false} RunInverts(r: Run, clen: seq<nat>, lens: seq<nat>, total: nat, rest: Bits)
    requires Accepted(clen) && HasCode(clen, RunSymbol(r)) && RunOk(r, lens)
    requires |lens| < total && |ApplyRun(r, lens)| <= total
    ensures LengthStep(clen, EncodeRun(r, clen) + rest, lens, total) == Ok((rest, ApplyRun(r, lens)))
  {
    hide Decode, CodeBits, LowBits, Take;
    PowersTo13();
    var extra := EncodeRun(r, clen)[|CodeBits(clen, RunSymbol(r))|..];
    assert EncodeRun(r, clen) + rest == CodeBits(clen, RunSymbol(r)) + (extra + rest);
    DecodeInvertsCode(clen, RunSymbol(r), extra + rest);
    match r
    case Len(_) => assert extra + rest == rest;
    case CopyPrevious(times) => TakeField(times - 3, 2, rest);
    case Zeros(times) => TakeField(times - 3, 3, rest);
    case ManyZeros(times) => TakeField(times - 11, 7, rest);
  }

  lemma {:induction false} RunsInvert(runs: seq<Run>, clen: seq<nat>, lens: seq<nat>, total: nat, rest: Bits)
    requires Accepted(clen) && RunsOk(runs, lens)
    requires forall i :: 0 <= i < |runs| ==> HasCode(clen, RunSymbol(runs[i]))
    requires |ExpandRuns(runs, lens)| == total && |lens| <= total
    ensures CodeLengths(clen, EncodeRuns(runs, clen) + rest, lens, total) == Ok((rest, ExpandRuns(runs, lens)))
    decreases runs
  {
    hide EncodeRun, RunOk, ApplyRun, LengthStep, RunSymbol;
    ExpandRunsGrows(runs, lens);
    if runs == [] {
      assert EncodeRuns(runs, clen) + rest == rest;
    } else {
      var more := runs[1..];
      var b1 := EncodeRuns(more, clen) + rest;
      assert EncodeRuns(runs, clen) + rest == EncodeRun(runs[0], clen) + b1;
      ExpandRunsGrows(more, ApplyRun(runs[0], lens));
      RunInverts(runs[0], clen, lens, total, b1);
      RunsInvert(more, clen, ApplyRun(runs[0], lens), total, rest);
    }
  }

  /** Position j of the code length code is among the first n positions sent. */
  ghost predicate Sent(j: nat, n: nat)
    requires n <= 19
  {
    exists i :: 0 <= i < n && CLEN_ORDER[i] == j
  }

  ghost predicate ClenOk(clen: seq<nat>, ncode: nat) {
    && |clen| == 19 && 4 <= ncode <= 19
    && (forall j :: 0 <= j < 19 ==> clen[j] <= 7)
    && (forall j :: 0 <= j < 19 && clen[j] != 0 ==> Sent(j, ncode))
  }

  ghost function EncodeClen(clen: seq<nat>, n: nat): (b: Bits)
    requires |clen| == 19 && n <= 19
    ensures |b| == 3 * n
  {
    if n == 0 then [] else EncodeClen(clen, n - 1) + LowBits(clen[CLEN_ORDER[n - 1]], 3)
  }

  lemma {:induction false} ClenPartly(clen: seq<nat>, ncode: nat, n: nat, b: Bits)
    requires ClenOk(clen, ncode) && n <= 19 && EncodeClen(clen, n) <= b
    ensures forall j: nat :: j < 19 ==> ClenFrom(b, n)[j] == if Sent(j, n) then clen[j] else 0
  {
    hide LowBits, Value, CLEN_ORDER;
    if n > 0 {
      ClenOrderBound(n);
      var c := CLEN_ORDER[n - 1];
      ClenPartly(clen, ncode, n - 1, b);
      LastClen(clen, n, b);
      assert Pow2(3) == 8;
      ValueOfLowBits(clen[c], 3);
      forall j: nat | j < 19 ensures Sent(j, n) <==> Sent(j, n - 1) || j == c {
        assert CLEN_ORDER[n - 1] == c;
      }
    }
  }

  lemma {:induction false} ClenOrderBound(n: nat)
    requires 0 < n <= 19
    ensures |CLEN_ORDER| == 19 && CLEN_ORDER[n - 1] < 19
  {}

  /** The three bits of the n-th length sent. */
  lemma {:induction false} LastClen(clen: seq<nat>, n: nat, b: Bits)
    requires |clen| == 19 && 0 < n <= 19 && EncodeClen(clen, n) <= b
    ensures b[3 * (n - 1)..3 * n] == LowBits(clen[CLEN_ORDER[n - 1]], 3)
  {
    hide LowBits;
    var all, less := EncodeClen(clen, n), EncodeClen(clen, n - 1);
    assert b[3 * (n - 1)..3 * n] == all[|less|..];
  }

  lemma {:induction false} ClenInverts(clen: seq<nat>, ncode: nat, rest: Bits)
    requires ClenOk(clen, ncode)
    ensures ClenFrom(EncodeClen(clen, ncode) + rest, ncode) == clen
  {
    ClenPartly(clen, ncode, ncode, EncodeClen(clen, ncode) + rest);
  }

  ghost predicate HeaderOk(h: Header) {
    && ClenOk(h.clen, h.ncode) && Accepted(h.clen)
    && 257 <= h.nlit <= 286 && 1 <= h.ndist <= 30
    && RunsOk(h.runs, [])
    && (forall i :: 0 <= i < |h.runs| ==> HasCode(h.clen, RunSymbol(h.runs[i])))
    && |ExpandRuns(h.runs, [])| == h.nlit + h.ndist
    && Accepted(LitLengths(h)) && Accepted(DistLengths(h))
  }

  ghost function LitLengths(h: Header): seq<nat>
    requires RunsOk(h.runs, []) && h.nlit <= |ExpandRuns(h.runs, [])|
  {
    ExpandRuns(h.runs, [])[..h.nlit]
  }

  ghost function DistLengths(h: Header): seq<nat>
    requires RunsOk(h.runs, []) && h.nlit <= |ExpandRuns(h.runs, [])|
  {
    ExpandRuns(h.runs, [])[h.nlit..]
  }

  ghost function EncodeHeader(h: Header): Bits
    requires HeaderOk(h)
  {
    LowBits(h.nlit - 257, 5) + LowBits(h.ndist - 1, 5) + LowBits(h.ncode - 4, 4)
    + (EncodeClen(h.clen, h.ncode) + EncodeRuns(h.runs, h.clen))
  }

  lemma {:induction false} ThreeFields(x: nat, y: nat, z: nat, rest: Bits)
    requires x < 32 && y < 32 && z < 16
    ensures var b := LowBits(x, 5) + LowBits(y, 5) + LowBits(z, 4) + rest;
      Value(b[..5]) == x && Value(b[5..10]) == y && Value(b[10..14]) == z && b[14..] == rest
  {
    PowersTo13();
    var b := LowBits(x, 5) + LowBits(y, 5) + LowBits(z, 4) + rest;
    assert b[..5] == LowBits(x, 5) && b[5..10] == LowBits(y, 5) && b[10..14] == LowBits(z, 4);
    ValueOfLowBits(x, 5);
    ValueOfLowBits(y, 5);
    ValueOfLowBits(z, 4);
  }

  /** A dynamic header decodes to the code lengths it encodes. */
  lemma {:induction false} HeaderInverts(h: Header, rest: Bits)
    requires HeaderOk(h)
    ensures DynamicHeader(EncodeHeader(h) + rest) == Ok((rest, LitLengths(h), DistLengths(h)))
  {
    hide LowBits, Value, ClenFrom, EncodeClen, EncodeRuns, Accepted, ClenOk, CodeLengths, RunsOk, ExpandRuns;
    HeaderSizes(h);
    var after := EncodeClen(h.clen, h.ncode) + EncodeRuns(h.runs, h.clen) + rest;
    var b := EncodeHeader(h) + rest;
    assert b == LowBits(h.nlit - 257, 5) + LowBits(h.ndist - 1, 5) + LowBits(h.ncode - 4, 4) + after;
    ThreeFields(h.nlit - 257, h.ndist - 1, h.ncode - 4, after);
    assert after == EncodeClen(h.clen, h.ncode) + (EncodeRuns(h.runs, h.clen) + rest);
    ClenInverts(h.clen, h.ncode, EncodeRuns(h.runs, h.clen) + rest);
    assert b[14 + 3 * h.ncode..] == after[3 * h.ncode..] == EncodeRuns(h.runs, h.clen) + rest;
    RunsInvert(h.runs, h.clen, [], h.nlit + h.ndist, rest);
  }

  lemma {:induction false} HeaderSizes(h: Header)
    requires HeaderOk(h)
    ensures 4 <= h.ncode <= 19 && |h.clen| == 19
  {}

  // ----- Whole streams -----

  ghost predicate BlockOk(k: BlockSpec, out: seq<byte>) {
    match k
    case Stored(data, check, fill) => |data| <= 65535 && check <= 65535 && |fill| >= 7
    case Fixed(tokens) => TokensOk(tokens, out)
    case Dynamic(h, tokens) => HeaderOk(h) && TokensOk(tokens, out) && CanEncode(tokens, LitLengths(h), DistLengths(h))
  }

  ghost function ExpandBlock(k: BlockSpec, out: seq<byte>): seq<byte>
    requires BlockOk(k, out)
  {
    match k
    case Stored(data, _, _) => out + data
    case Fixed(tokens) => Expand(tokens, out)
    case Dynamic(_, tokens) => Expand(tokens, out)
  }

  ghost predicate BlocksOk(blocks: seq<BlockSpec>, out: seq<byte>)
    decreases blocks
  {
    blocks != [] && BlockOk(blocks[0], out) && (|blocks| == 1 || BlocksOk(blocks[1..], ExpandBlock(blocks[0], out)))
  }

  ghost function ExpandBlocks(blocks: seq<BlockSpec>, out: seq<byte>): seq<byte>
    requires BlocksOk(blocks, out)
    decreases blocks
  {
    if |blocks| == 1 then ExpandBlock(blocks[0], out) else ExpandBlocks(blocks[1..], ExpandBlock(blocks[0], out))
  }

  ghost function Kind(k: BlockSpec): nat {
    match k case Stored(_, _, _) => 0 case Fixed(_) => 1 case Dynamic(_, _) => 2
  }

  /** The fill's bits up to the next byte boundary, off bits having been written. */
  ghost function Padding(off: nat, fill: Bits): (b: Bits)
    requires |fill| >= 7
    ensures |b| < 8 && (off + |b|) % 8 == 0
  {
    fill[..(8 - off % 8) % 8]
  }

  /** Every literal, length and distance symbol has a fixed code. */
  lemma {:induction false} FixedEncodes(tokens: seq<Token>, out: seq<byte>)
    requires TokensOk(tokens, out)
    ensures CanEncode(tokens, FixedLit(), FixedDist())
    decreases tokens
  {
    if tokens != [] {
      FixedEncodes(tokens[1..], Apply(tokens[0], out));
      forall i | 0 <= i < |tokens| ensures CanEncodeToken(tokens[i], FixedLit(), FixedDist()) {
        assert i > 0 ==> tokens[i] == tokens[1..][i - 1];
      }
    }
  }

  /** A block's contents; a stored block starts with padding, of whatever bits, and carries its length and a check field. */
  ghost function EncodeBlock(k: BlockSpec, out: seq<byte>, off: nat): Bits
    requires BlockOk(k, out)
  {
    match k
    case Stored(data, check, fill) =>
      Padding(off, fill) + (LowBits(|data|, 16) + LowBits(check, 16) + BytesToBits(data))
    case Fixed(tokens) => FixedEncodes(tokens, out); EncodeTokens(tokens, FixedLit(), FixedDist())
    case Dynamic(h, tokens) => EncodeHeader(h) + EncodeTokens(tokens, LitLengths(h), DistLengths(h))
  }

  /** Blocks with their three-bit prefixes, the last one marked final; off counts the bits already written. */
  ghost function Encode(blocks: seq<BlockSpec>, out: seq<byte>, off: nat): Bits
    requires BlocksOk(blocks, out)
    decreases blocks
  {
    var k := blocks[0];
    var front := [|blocks| == 1] + LowBits(Kind(k), 2) + EncodeBlock(k, out, off + 3);
    if |blocks| == 1 then front else front + Encode(blocks[1..], ExpandBlock(k, out), off + |front|)
  }

  lemma {:induction false} StoredInverts(data: seq<byte>, check: nat, fill: Bits, out: seq<byte>, off: nat, rest: Bits)
    requires BlockOk(Stored(data, check, fill), out) && |out| + |data| <= MAX_INFLATE
    requires (off + |EncodeBlock(Stored(data, check, fill), out, off)| + |rest|) % 8 == 0
    ensures StoredBlock(EncodeBlock(Stored(data, check, fill), out, off) + rest, out) == Ok((rest, out + data))
  {
    hide LowBits, Value, BytesToBits, BitsToBytes;
    var sizes := LowBits(|data|, 16) + LowBits(check, 16);
    var body := BytesToBits(data) + rest;
    var b := EncodeBlock(Stored(data, check, fill), out, off) + rest;
    assert b == Padding(off, fill) + (sizes + body);
    AlignedDropsPadding(off, fill, sizes + body);
    var a := sizes + body;
    PowersTo13();
    ValueOfLowBits(|data|, 16);
    assert a[..16] == LowBits(|data|, 16);
    assert a[32..] == body;
    BytesToBitsToBytes(data);
    assert body[..8 * |data|] == BytesToBits(data) && body[8 * |data|..] == rest;
  }

  lemma {:induction false} PaddingAligns(off: nat, p: nat, n: nat)
    requires p == (8 - off % 8) % 8 && (off + p + n) % 8 == 0
    ensures (p + n) % 8 == p
  {}

  lemma {:induction false} AlignedDropsPadding(off: nat, fill: Bits, a: Bits)
    requires |fill| >= 7 && (off + |Padding(off, fill)| + |a|) % 8 == 0
    ensures Aligned(Padding(off, fill) + a) == a
  {
    var p := Padding(off, fill);
    PaddingAligns(off, |p|, |a|);
    assert (p + a)[|p|..] == a;
  }

  lemma {:induction false} BlockInverts(k: BlockSpec, out: seq<byte>, off: nat, rest: Bits)
    requires BlockOk(k, out) && |ExpandBlock(k, out)| <= MAX_INFLATE
    requires (off + |EncodeBlock(k, out, off)| + |rest|) % 8 == 0
    ensures Block(Kind(k), EncodeBlock(k, out, off) + rest, out) == Ok((rest, ExpandBlock(k, out)))
  {
    hide StoredBlock, CodedBlock, DynamicHeader, EncodeTokens, EncodeHeader, FixedLit, FixedDist, CanEncode, TokensOk, Expand;
    match k
    case Stored(data, check, fill) =>
      hide Padding;
      StoredInverts(data, check, fill, out, off, rest);
    case Fixed(tokens) =>
      hide Block;
      FixedInverts(tokens, out, rest);
    case Dynamic(h, tokens) =>
      DynamicInverts(h, tokens, out, rest);
  }

  lemma {:induction false} FixedInverts(tokens: seq<Token>, out: seq<byte>, rest: Bits)
    requires TokensOk(tokens, out) && |Expand(tokens, out)| <= MAX_INFLATE
    ensures CanEncode(tokens, FixedLit(), FixedDist())
    ensures Block(1, EncodeTokens(tokens, FixedLit(), FixedDist()) + rest, out) == Ok((rest, Expand(tokens, out)))
  {
    hide CodedBlock, EncodeTokens, FixedLit, FixedDist, CanEncode, TokensOk, Expand;
    FixedEncodes(tokens, out);
    FixedAccepted();
    CodedInverts(tokens, FixedLit(), FixedDist(), out, rest);
  }

  lemma {:induction false} DynamicInverts(h: Header, tokens: seq<Token>, out: seq<byte>, rest: Bits)
    requires HeaderOk(h) && TokensOk(tokens, out) && CanEncode(tokens, LitLengths(h), DistLengths(h))
    requires |Expand(tokens, out)| <= MAX_INFLATE
    ensures Block(2, EncodeHeader(h) + EncodeTokens(tokens, LitLengths(h), DistLengths(h)) + rest, out)
         == Ok((rest, Expand(tokens, out)))
  {
    hide StoredBlock, CodedBlock, DynamicHeader, EncodeTokens, EncodeHeader, FixedLit, FixedDist, CanEncode, TokensOk, Expand;
    var b1 := EncodeTokens(tokens, LitLengths(h), DistLengths(h)) + rest;
    assert EncodeHeader(h) + EncodeTokens(tokens, LitLengths(h), DistLengths(h)) + rest == EncodeHeader(h) + b1;
    HeaderInverts(h, b1);
    CodedInverts(tokens, LitLengths(h), DistLengths(h), out, rest);
  }

  lemma {:induction false} ExpandBlocksGrows(blocks: seq<BlockSpec>, out: seq<byte>)
    requires BlocksOk(blocks, out)
    ensures |ExpandBlock(blocks[0], out)| <= |ExpandBlocks(blocks, out)|
    decreases blocks
  {
    if |blocks| > 1 {
      var next := ExpandBlock(blocks[0], out);
      ExpandBlocksGrows(blocks[1..], next);
      ExpandBlockGrows(blocks[1], next);
    }
  }

  lemma {:induction false} ExpandBlockGrows(k: BlockSpec, out: seq<byte>)
    requires BlockOk(k, out)
    ensures |out| <= |ExpandBlock(k, out)|
  {
    match k
    case Stored(_, _, _) =>
    case Fixed(tokens) => ExpandGrows(tokens, out);
    case Dynamic(_, tokens) => ExpandGrows(tokens, out);
  }

  lemma {:induction false} BlocksInvert(blocks: seq<BlockSpec>, out: seq<byte>, off: nat, rest: Bits)
    requires BlocksOk(blocks, out) && |ExpandBlocks(blocks, out)| <= MAX_INFLATE
    requires (off + |Encode(blocks, out, off)| + |rest|) % 8 == 0
    ensures Blocks(Encode(blocks, out, off) + rest, out) == Ok(ExpandBlocks(blocks, out))
    decreases blocks
  {
    hide Block, BlockOk, EncodeBlock, ExpandBlock, LowBits, Value;
    var k := blocks[0];
    var next := ExpandBlock(k, out);
    var code := EncodeBlock(k, out, off + 3);
    var prefix := [|blocks| == 1] + LowBits(Kind(k), 2);
    var off' := off + |prefix + code|;
    var b1 := if |blocks| == 1 then rest else Encode(blocks[1..], next, off') + rest;
    var b := Encode(blocks, out, off) + rest;
    assert b == prefix + (code + b1);
    PrefixReads(|blocks| == 1, Kind(k), code + b1);
    ExpandBlocksGrows(blocks, out);
    BlockInverts(k, out, off + 3, b1);
    if |blocks| > 1 {
      BlocksInvert(blocks[1..], next, off', rest);
    }
  }

  lemma {:induction false} PrefixReads(final: bool, kind: nat, rest: Bits)
    requires kind < 4
    ensures var b := [final] + LowBits(kind, 2) + rest;
      b[0] == final && Value(b[1..3]) == kind && b[3..] == rest
  {
    PowersTo13();
    ValueOfLowBits(kind, 2);
    var b := [final] + LowBits(kind, 2) + rest;
    assert b[1..3] == LowBits(kind, 2) && b[3..] == rest;
  }

  /** A bit stream as bytes, its last byte filled up. */
  ghost function Packed(b: Bits, fill: Bits): seq<byte>
    requires |fill| >= 7
  {
    BitsToBytes(b + Padding(|b|, fill))
  }

  lemma {:induction false} PackedBits(b: Bits, fill: Bits)
    requires |fill| >= 7
    ensures BytesToBits(Packed(b, fill)) == b + Padding(|b|, fill)
  {
    BitsToBytesToBits(b + Padding(|b|, fill));
  }

  ghost function Deflated(blocks: seq<BlockSpec>, fill: Bits): seq<byte>
    requires BlocksOk(blocks, []) && |fill| >= 7
  {
    Packed(Encode(blocks, [], 0), fill)
  }

  /** Inflating an encoding, whatever bytes follow it, gives back exactly what was encoded. */
  lemma {:induction false} InflateUndoesDeflate(blocks: seq<BlockSpec>, fill: Bits, trailing: seq<byte>)
    requires BlocksOk(blocks, []) && |ExpandBlocks(blocks, [])| <= MAX_INFLATE && |fill| >= 7
    ensures Inflated(Deflated(blocks, fill) + trailing) == Ok(ExpandBlocks(blocks, []))
  {
    hide Encode, BlocksOk, ExpandBlocks, Packed, Blocks;
    var b := Encode(blocks, [], 0);
    PackedBits(b, fill);
    BytesToBitsAppend(Deflated(blocks, fill), trailing);
    var rest := Padding(|b|, fill) + BytesToBits(trailing);
    assert BytesToBits(Deflated(blocks, fill) + trailing) == b + rest;
    BlocksInvert(blocks, [], 0, rest);
  }

  /** A stored block with the complement of its length and zero bits for padding. */
  ghost function StoredAsTold(data: seq<byte>): BlockSpec
    requires |data| <= 65535
  {
    Stored(data, 65535 - |data|, seq(7, i => false))
  }

  lemma {:induction false} StoredPieces(data: seq<byte>, out: seq<byte>) returns (blocks: seq<BlockSpec>)
    ensures BlocksOk(blocks, out) && ExpandBlocks(blocks, out) == out + data
    decreases |data|
  {
    if |data| <= 65535 {
      blocks := [StoredAsTold(data)];
    } else {
      var head, tail := data[..65535], data[65535..];
      var more := StoredPieces(tail, out + head);
      blocks := [StoredAsTold(head)] + more;
      assert blocks[1..] == more;
      assert out + head + tail == out + data;
    }
  }

  /** Every output within the cap has an encoding that inflates to it. */
  lemma {:induction false} EveryOutputHasAnEncoding(data: seq<byte>) returns (stream: seq<byte>)
    requires |data| <= 256 * 1024 * 1024
    ensures Inflated(stream) == Ok(data)
  {
    hide Encode, BlocksOk, ExpandBlocks, Packed, Inflated, Deflated;
    var blocks := StoredPieces(data, []);
    assert [] + data == data;
    var fill := seq(7, i => false);
    InflateUndoesDeflate(blocks, fill, []);
    stream := Deflated(blocks, fill) + [];
  }
}
