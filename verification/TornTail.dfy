/** What a second recovery finds: the log is reopened for appending without trimming the tail a crash left behind. */
module TornTail {
  import opened Wrappers
  import opened Bytes
  import opened Crc32
  import opened Wal

  const MAGIC_BYTES: seq<byte> := [0x57, 0x41, 0x4C, 0x52]

  /** Whole records, the first m bytes of the frame of r, and what was appended after the restart. */
  ghost function Reopened(recs: seq<Record>, r: Record, m: nat, more: seq<Record>): seq<byte>
    requires m <= |Frame(r)|
  {
    Frames(recs) + (Frame(r)[..m] + Frames(more))
  }

  // ----- Frames, byte by byte -----

  lemma {:induction false} FromLeFour(b: seq<byte>)
    requires |b| == 4
    ensures FromLe(b) == b[0] as int + 0x100 * (b[1] as int) + 0x1_0000 * (b[2] as int) + 0x100_0000 * (b[3] as int)
  {
    assert FromLe(b[3..]) == b[3] by { assert b[3..][1..] == []; }
    assert b[2..][1..] == b[3..] && b[1..][1..] == b[2..];
    assert FromLe(b[2..]) == b[2] + 256 * FromLe(b[3..]);
    assert FromLe(b[1..]) == b[1] + 256 * FromLe(b[2..]);
  }

  lemma {:induction false} LeMagic()
    ensures Le(RECORD_MAGIC, 4) == MAGIC_BYTES
  {
    assert Le(0x52, 1) == [0x52];
    assert Le(0x524C, 2) == [0x4C, 0x52];
    assert Le(0x52_4C41, 3) == [0x41, 0x4C, 0x52];
  }

  lemma {:induction false} MagicIs(b: seq<byte>)
    requires |b| == 4
    ensures FromLe(b) == RECORD_MAGIC <==> b == MAGIC_BYTES
  {
    hide Le, FromLe;
    LeMagic();
    LeOfFromLe(b);
    Powers();
    FromLeOfLe(RECORD_MAGIC, 4);
  }

  /** A frame starts with the magic, the length of its payload and four more bytes. */
  lemma {:induction false} FrameBytes(r: Record)
    requires Loggable(r)
    ensures |Frame(r)| == HEADER_BYTES + |Encode(r)| && Frame(r)[..4] == MAGIC_BYTES
    ensures FromLe(Frame(r)[4..8]) == |Encode(r)| && Frame(r)[4..8] == Le(|Encode(r)|, 4)
    ensures Frame(r)[HEADER_BYTES..] == Encode(r)
  {
    hide Encode, Le, FromLe, Crc32Of, Pow256;
    LeMagic();
    FromLeOfLe(|Encode(r)|, 4);
    assert Frame(r)[4..8] == Le(|Encode(r)|, 4);
  }

  lemma {:induction false} FramesStart(recs: seq<Record>)
    requires AllLoggable(recs) && recs != []
    ensures |Frames(recs)| >= HEADER_BYTES && Frames(recs)[..4] == MAGIC_BYTES
  {
    hide Frame, Loggable;
    FrameBytes(recs[0]);
  }

  // ----- One torn tail and what comes after it -----

  /** The length replay reads behind a torn tail of at least four bytes. */
  lemma {:induction false} MisreadLength(r: Record, m: nat, tail: seq<byte>)
    requires Loggable(r) && 4 <= m < |Frame(r)| && |tail| >= 4 && tail[..4] == MAGIC_BYTES
    ensures var s := Frame(r)[..m] + tail;
      && |s| >= 8 && FromLe(s[..4]) == RECORD_MAGIC
      && (m == 4 ==> FromLe(s[4..8]) == RECORD_MAGIC)
      && (m < 8 ==> FromLe(s[4..8]) >= 0x4157_0000)
      && (m >= 8 ==> FromLe(s[4..8]) == |Encode(r)|)
  {
    hide Frame, Encode, FromLe, Le;
    FrameBytes(r);
    var s := Frame(r)[..m] + tail;
    assert s[..4] == Frame(r)[..4];
    MagicIs(s[..4]);
    MagicIs(s[4..8]);
    FromLeFour(s[4..8]);
    if m == 4 {
      assert s[4..8] == tail[..4];
    } else if m == 5 {
      assert s[6] == tail[1] && s[7] == tail[2];
    } else if m == 6 {
      assert s[6] == tail[0] && s[7] == tail[1];
    } else if m == 7 {
      assert s[7] == tail[0];
    } else {
      assert s[4..8] == Frame(r)[4..8];
    }
  }

  /**
   * Replay of a log reopened behind a torn tail of m bytes, in every case: without a tail nothing is lost; a tail of one
   * to three bytes makes replay fail; behind a longer one the next frames are taken for the rest of the torn record, and
   * as long as they are shorter than the length read there, they are dropped without an error.
   */
  lemma {:induction false} ReplayAfterTornTail(recs: seq<Record>, r: Record, m: nat, more: seq<Record>)
    requires AllLoggable(recs) && Loggable(r) && AllLoggable(more) && m < |Frame(r)|
    ensures m == 0 ==> Replayed(Reopened(recs, r, m, more)) == Ok(recs + more)
    ensures more == [] ==> Replayed(Reopened(recs, r, m, more)) == Ok(recs)
    ensures more != [] && 1 <= m <= 3 ==> Replayed(Reopened(recs, r, m, more)) == Err(BadMagic)
    ensures more != [] && m >= 4 ==>
      var s := Frame(r)[..m] + Frames(more);
      && |s| >= HEADER_BYTES
      && var len := FromLe(s[4..8]);
      && (m == 4 ==> len == RECORD_MAGIC) && (m < 8 ==> len >= 0x4157_0000) && (m >= 8 ==> len == |Encode(r)|)
      && Replayed(Reopened(recs, r, m, more)) ==
        if HEADER_BYTES + len > |s| then Ok(recs)
        else
          var payload, rest := s[HEADER_BYTES..HEADER_BYTES + len], s[HEADER_BYTES + len..];
          if Crc32Of(payload) != FromLe(s[8..12]) then if rest == [] then Ok(recs) else Err(CrcMismatch)
          else if Decode(payload) == None then if rest == [] then Ok(recs) else Err(Undecodable)
          else After(recs + [Decode(payload).value], Replayed(rest))
  {
    hide Frame, Encode, FromLe, Le, Crc32Of, Decode, Replayed, Loggable;
    var s := Frame(r)[..m] + Frames(more);
    ReplayPast(recs, s);
    assert recs + [] == recs;
    if more == [] {
      assert s == Frame(r)[..m];
      TornFrame(r, m);
    } else if m == 0 {
      assert s == Frames(more);
      ReplayInvertsFrames(more);
    } else {
      FramesStart(more);
      ReplayedStep(s);
      if m >= 4 {
        MisreadLength(r, m, Frames(more));
        StepBehind(recs, s);
      } else {
        FrameBytes(r);
        MagicIs(s[..4]);
        assert s[m] == Frames(more)[0];
      }
    }
  }

  /** What a first frame that is whole, torn or damaged does to the replay of the records before it. */
  lemma {:induction false} StepBehind(recs: seq<Record>, s: seq<byte>)
    requires AllLoggable(recs) && |s| >= HEADER_BYTES && FromLe(s[..4]) == RECORD_MAGIC
    ensures var len := FromLe(s[4..8]);
      Replayed(Frames(recs) + s) ==
        if HEADER_BYTES + len > |s| then Ok(recs)
        else
          var payload, rest := s[HEADER_BYTES..HEADER_BYTES + len], s[HEADER_BYTES + len..];
          if Crc32Of(payload) != FromLe(s[8..12]) then if rest == [] then Ok(recs) else Err(CrcMismatch)
          else if Decode(payload) == None then if rest == [] then Ok(recs) else Err(Undecodable)
          else After(recs + [Decode(payload).value], Replayed(rest))
  {
    hide Frames, FromLe, Crc32Of, Decode, Replayed, Loggable;
    ReplayPast(recs, s);
    ReplayedStep(s);
    assert recs + [] == recs;
    var len := FromLe(s[4..8]);
    if HEADER_BYTES + len <= |s| {
      var payload, rest := s[HEADER_BYTES..HEADER_BYTES + len], s[HEADER_BYTES + len..];
      if Crc32Of(payload) == FromLe(s[8..12]) && Decode(payload) != None {
        AfterOne(recs, Decode(payload).value, Replayed(rest));
      }
    }
  }

  /**
   * What a failed append leaves is replayed as if it had not happened if and only if part of the frame is missing: when
   * only the flush failed, the record comes back although its caller was told that it was not logged.
   */
  lemma {:induction false} FailedAppendReplays(recs: seq<Record>, r: Record, io: Io)
    requires AllLoggable(recs) && Loggable(r)
    ensures Replayed(Frames(recs) + Landed(Frame(r), io)) == Ok(if io.written >= |Frame(r)| then recs + [r] else recs)
  {
    hide Frame, Frames, Replayed, Loggable;
    ReplayPast(recs, Landed(Frame(r), io));
    if io.written >= |Frame(r)| {
      OneFrame(r);
      ReplayInvertsFrames([r]);
    } else {
      TornFrame(r, io.written);
      assert recs + [] == recs;
    }
  }

  // ----- When a second recovery is right -----

  /** A short record of the other kind. */
  ghost function Spoiler(r: Record): Record {
    Record(if r.op == AddDocument then RemoveDocument else AddDocument, [], [], [], [], 0)
  }

  lemma {:induction false} SpoilerIsShort(r: Record)
    ensures Loggable(Spoiler(r)) && |Encode(Spoiler(r))| == 21
  {
    Powers();
    assert |Str([])| == 4;
  }

  lemma {:induction false} DecodedOp(payload: seq<byte>)
    ensures Decode(payload).Some? ==> payload != [] && payload[0] == OpCode(Decode(payload).value.op)
  {
    hide ReadStr, DecodePairs;
    if |payload| >= 1 { assert FromLe(payload[..1]) == payload[0] by { assert payload[..1][1..] == []; } }
  }

  lemma {:induction false} EncodedOp(r: Record)
    ensures |Encode(r)| >= 1 && Encode(r)[0] == OpCode(r.op)
  {
    hide Str, Pairs;
    assert Le(OpCode(r.op), 1) == [OpCode(r.op)];
  }

  /** Behind a torn tail, the payload read never decodes to the appended record. */
  lemma {:induction false} SpoilerIsMisread(r: Record, m: nat)
    requires Loggable(r) && 8 <= m < |Frame(r)|
    ensures |Frame(Spoiler(r))| == HEADER_BYTES + 21
    ensures var s := Frame(r)[..m] + Frame(Spoiler(r));
      HEADER_BYTES + |Encode(r)| <= |s| ==>
        Decode(s[HEADER_BYTES..HEADER_BYTES + |Encode(r)|]) != Some(Spoiler(r))
  {
    hide Frame, Encode, FromLe, Decode;
    var q := Spoiler(r);
    var s := Frame(r)[..m] + Frame(q);
    FrameBytes(r);
    SpoilerIsShort(r);
    FrameBytes(q);
    EncodedOp(r);
    assert Le(21, 4)[0] == 21;
    if HEADER_BYTES + |Encode(r)| <= |s| {
      var payload := s[HEADER_BYTES..HEADER_BYTES + |Encode(r)|];
      DecodedOp(payload);
      assert payload[0] == s[HEADER_BYTES];
      if m > HEADER_BYTES {
        assert s[HEADER_BYTES] == Frame(r)[HEADER_BYTES] == Frame(r)[HEADER_BYTES..][0];
      } else {
        assert s[HEADER_BYTES] == Frame(q)[HEADER_BYTES - m];
        assert Frame(q)[..4][..] == MAGIC_BYTES && Frame(q)[4] == Frame(q)[4..8][0];
        assert forall i :: 0 <= i < 4 ==> Frame(q)[i] == Frame(q)[..4][i];
      }
    }
  }

  /** After any torn tail there is a next record that the second recovery does not bring back. */
  lemma {:induction false} TornTailLosesTheNext(recs: seq<Record>, r: Record, m: nat)
    requires AllLoggable(recs) && Loggable(r) && 0 < m < |Frame(r)|
    ensures Loggable(Spoiler(r)) && Replayed(Reopened(recs, r, m, [Spoiler(r)])) != Ok(recs + [Spoiler(r)])
  {
    hide Frame, Encode, FromLe, Le, Crc32Of, Decode, Replayed, Loggable, Spoiler;
    var q := Spoiler(r);
    SpoilerIsShort(r);
    FrameBytes(q);
    ReplayAfterTornTail(recs, r, m, [q]);
    assert |recs + [q]| == |recs| + 1;
    OneFrame(q);
    if m >= 8 {
      SpoilerIsMisread(r, m);
      var s := Frame(r)[..m] + Frame(q);
      if HEADER_BYTES + |Encode(r)| <= |s| {
        var payload := s[HEADER_BYTES..HEADER_BYTES + |Encode(r)|];
        var rest := Replayed(s[HEADER_BYTES + |Encode(r)|..]);
        if Decode(payload).Some? && rest.Ok? {
          var x := Decode(payload).value;
          assert (recs + [x] + rest.value)[|recs|] == x && (recs + [q])[|recs|] == q;
        }
      }
    }
  }

  lemma {:induction false} OneFrame(r: Record)
    ensures Frames([r]) == Frame(r)
  {
    hide Frame;
    assert [r][1..] == [];
    assert Frame(r) + [] == Frame(r);
  }

  /** Where the first n bytes of a log end: behind whole records, and m bytes into the next frame. */
  lemma {:induction false} CutAt(recs: seq<Record>, n: nat)
    requires n <= |Frames(recs)|
    ensures var k := Complete(recs, n);
      && |Frames(recs[..k])| <= n
      && var m := n - |Frames(recs[..k])|;
      && (k == |recs| ==> m == 0) && (k < |recs| ==> m < |Frame(recs[k])|)
      && Frames(recs)[..n] == Frames(recs[..k]) + if k < |recs| then Frame(recs[k])[..m] else []
    decreases recs
  {
    hide Frame, Frames;
    var k := Complete(recs, n);
    FramesCons(recs);
    FramesCons(recs[..k]);
    if k == 0 {
      assert recs[..0] == [];
      if recs != [] { SliceOfSum(Frame(recs[0]), Frames(recs[1..]), n); }
    } else {
      var size := |Frame(recs[0])|;
      CutAt(recs[1..], n - size);
      assert recs[..k][0] == recs[0] && recs[..k][1..] == recs[1..][..k - 1];
      SliceOfSum(Frame(recs[0]), Frames(recs[1..]), n);
      var tail := if k < |recs| then Frame(recs[k])[..n - |Frames(recs[..k])|] else [];
      Reassociate(Frame(recs[0]), Frames(recs[1..][..k - 1]), tail);
    }
  }

  lemma {:induction false} FramesCons(recs: seq<Record>)
    ensures Frames(recs) == if recs == [] then [] else Frame(recs[0]) + Frames(recs[1..])
  {
    hide Frame;
  }

  lemma {:induction false} SliceOfSum(a: seq<byte>, b: seq<byte>, n: nat)
    requires n <= |a| + |b|
    ensures (a + b)[..n] == if n < |a| then a[..n] else a + b[..n - |a|]
  {}

  /** Everything logged after the restart comes back behind what the crash left. */
  ghost predicate SecondRecoveryRight(recs: seq<Record>, n: nat)
    requires n <= |Frames(recs)|
  {
    forall more :: AllLoggable(more) ==> Replayed(Frames(recs)[..n] + Frames(more)) == Ok(recs[..Complete(recs, n)] + more)
  }

  /** A second recovery is right, whatever was logged in between, if and only if the first crash left whole frames. */
  lemma {:induction false} SecondRecoveryNeedsBoundary(recs: seq<Record>, n: nat)
    requires AllLoggable(recs) && n <= |Frames(recs)|
    ensures SecondRecoveryRight(recs, n) <==> n == |Frames(recs[..Complete(recs, n)])|
  {
    hide Frame, Frames, Replayed, Loggable;
    var k := Complete(recs, n);
    CutAt(recs, n);
    var whole, m := recs[..k], n - |Frames(recs[..k])|;
    if m == 0 {
      assert Frames(recs)[..n] == Frames(whole);
      forall more | AllLoggable(more) ensures Replayed(Frames(recs)[..n] + Frames(more)) == Ok(whole + more) {
        ReplayInvertsFrames(more);
        ReplayPast(whole, Frames(more));
      }
    } else {
      var q := Spoiler(recs[k]);
      TornTailLosesTheNext(whole, recs[k], m);
      assert Frames(recs)[..n] + Frames([q]) == Reopened(whole, recs[k], m, [q]);
      assert AllLoggable([q]);
    }
  }
}
