/** The write-ahead log: record encoding, framing, appending, and replay of a log that may be torn or damaged. */
module Wal {
  import opened Wrappers
  import opened Bytes
  import opened Crc32

  type Text = seq<byte>

  datatype Op = AddDocument | RemoveDocument
  datatype Pair = Pair(key: Text, value: Text)

  /** One logical mutation; the metadata pairs are in key order, each key once. */
  datatype Record = Record(op: Op, uri: Text, title: Text, text: Text, meta: seq<Pair>, docId: nat)

  datatype Error = BadMagic | CrcMismatch | Undecodable | NotOpen | WriteFailed

  const RECORD_MAGIC: nat := 0x524C_4157
  const HEADER_BYTES: nat := 12

  // ----- Records -----

  function OpCode(op: Op): nat { match op case AddDocument => 1 case RemoveDocument => 2 }

  function Pairs(meta: seq<Pair>): seq<byte>
    decreases meta
  {
    if meta == [] then [] else Str(meta[0].key) + Str(meta[0].value) + Pairs(meta[1..])
  }

  function Encode(r: Record): seq<byte> {
    Le(OpCode(r.op), 1) + Str(r.uri) + Str(r.title) + Str(r.text) + Le(|r.meta|, 4) + Pairs(r.meta) + Le(r.docId, 4)
  }

  predicate HasKey(meta: seq<Pair>, key: Text) { exists i :: 0 <= i < |meta| && meta[i].key == key }

  /** A key already present keeps its first value. */
  function Emplace(meta: seq<Pair>, p: Pair): seq<Pair> { if HasKey(meta, p.key) then meta else meta + [p] }

  ghost function DecodePairs(s: seq<byte>, n: nat, meta: seq<Pair>): Option<(seq<Pair>, seq<byte>)>
    decreases n
  {
    if n == 0 then Some((meta, s))
    else
      match ReadStr(s)
      case None => None
      case Some((key, s1)) =>
        match ReadStr(s1)
        case None => None
        case Some((value, s2)) => DecodePairs(s2, n - 1, Emplace(meta, Pair(key, value)))
  }

  /** The metadata and the document id, after the three strings. */
  ghost function DecodeTail(op: Op, uri: Text, title: Text, text: Text, s: seq<byte>): Option<Record> {
    match ReadNum(s, 4)
    case None => None
    case Some((n, s1)) =>
      match DecodePairs(s1, n, [])
      case None => None
      case Some((meta, s2)) =>
        match ReadNum(s2, 4)
        case None => None
        case Some((id, _)) => Some(Record(op, uri, title, text, meta, id))
  }

  ghost function DecodeStrings(op: Op, s: seq<byte>): Option<Record> {
    match ReadStr(s)
    case None => None
    case Some((uri, s1)) =>
      match ReadStr(s1)
      case None => None
      case Some((title, s2)) =>
        match ReadStr(s2)
        case None => None
        case Some((text, s3)) => DecodeTail(op, uri, title, text, s3)
  }

  ghost function Decode(s: seq<byte>): Option<Record> {
    match ReadNum(s, 1)
    case None => None
    case Some((op, s1)) =>
      if op == 1 then DecodeStrings(AddDocument, s1)
      else if op == 2 then DecodeStrings(RemoveDocument, s1)
      else None
  }

  ghost predicate DistinctKeys(meta: seq<Pair>) {
    forall i, j :: 0 <= i < j < |meta| ==> meta[i].key != meta[j].key
  }

  /** Every length fits its 32-bit field. */
  ghost predicate Encodable(r: Record) {
    && |r.uri| < Pow256(4) && |r.title| < Pow256(4) && |r.text| < Pow256(4)
    && |r.meta| < Pow256(4) && r.docId < Pow256(4) && DistinctKeys(r.meta)
    && forall i :: 0 <= i < |r.meta| ==> |r.meta[i].key| < Pow256(4) && |r.meta[i].value| < Pow256(4)
  }

  lemma {:induction false} PairsReadBack(done: seq<Pair>, meta: seq<Pair>, rest: seq<byte>)
    requires DistinctKeys(done + meta)
    requires forall i :: 0 <= i < |meta| ==> |meta[i].key| < Pow256(4) && |meta[i].value| < Pow256(4)
    ensures DecodePairs(Pairs(meta) + rest, |meta|, done) == Some((done + meta, rest))
    decreases meta
  {
    hide Pow256, Str, ReadStr;
    if meta == [] {
      assert Pairs(meta) + rest == rest && done + meta == done;
    } else {
      var p := meta[0];
      var s2 := Pairs(meta[1..]) + rest;
      var s1 := Str(p.value) + s2;
      assert Pairs(meta) + rest == Str(p.key) + s1;
      ReadStrOf(p.key, s1);
      ReadStrOf(p.value, s2);
      forall i | 0 <= i < |done| ensures done[i].key != p.key {
        assert (done + meta)[i] == done[i] && (done + meta)[|done|] == p;
      }
      assert done + meta == (done + [p]) + meta[1..];
      PairsReadBack(done + [p], meta[1..], rest);
    }
  }

  /** Decoding undoes encoding, whatever bytes follow. */
  lemma {:induction false} DecodeInvertsEncode(r: Record)
    requires Encodable(r)
    ensures Decode(Encode(r)) == Some(r)
  {
    hide Str, ReadStr, Le, FromLe, ReadNum, Pairs, DecodePairs, DistinctKeys, Pow256;
    var tail := Le(|r.meta|, 4) + (Pairs(r.meta) + Le(r.docId, 4));
    var s2 := Str(r.text) + tail;
    var s1 := Str(r.title) + s2;
    var s0 := Str(r.uri) + s1;
    assert Encode(r) == Le(OpCode(r.op), 1) + s0;
    Powers();
    ReadNumOf(OpCode(r.op), 1, s0);
    ReadStrOf(r.uri, s1);
    ReadStrOf(r.title, s2);
    ReadStrOf(r.text, tail);
    TailReadsBack(r);
  }

  lemma {:induction false} TailReadsBack(r: Record)
    requires Encodable(r)
    ensures DecodeTail(r.op, r.uri, r.title, r.text, Le(|r.meta|, 4) + (Pairs(r.meta) + Le(r.docId, 4))) == Some(r)
  {
    hide Le, FromLe, ReadNum, Pairs, DecodePairs;
    ReadNumOf(|r.meta|, 4, Pairs(r.meta) + Le(r.docId, 4));
    assert [] + r.meta == r.meta;
    PairsReadBack([], r.meta, Le(r.docId, 4));
    ReadNumOf(r.docId, 4, []);
    assert Le(r.docId, 4) + [] == Le(r.docId, 4);
  }

  // ----- Frames -----

  function FrameOf(payload: seq<byte>): seq<byte> {
    Le(RECORD_MAGIC, 4) + Le(|payload|, 4) + Le(Crc32Of(payload), 4) + payload
  }

  function Frame(r: Record): seq<byte> { FrameOf(Encode(r)) }

  function Frames(recs: seq<Record>): seq<byte>
    decreases recs
  {
    if recs == [] then [] else Frame(recs[0]) + Frames(recs[1..])
  }

  lemma {:induction false} FramesAppend(a: seq<Record>, b: seq<Record>)
    ensures Frames(a + b) == Frames(a) + Frames(b)
    decreases a
  {
    hide Frame;
    if a == [] {
      assert a + b == b;
    } else {
      FramesAppend(a[1..], b);
      assert (a + b)[0] == a[0] && (a + b)[1..] == a[1..] + b;
      Reassociate(Frame(a[0]), Frames(a[1..]), Frames(b));
    }
  }

  lemma {:induction false} Reassociate(a: seq<byte>, b: seq<byte>, c: seq<byte>)
    ensures a + b + c == a + (b + c)
  {}

  /** Replay of the rest of a log. A short or failing last record is a torn append; anywhere else it is damage. */
  ghost function Replayed(s: seq<byte>): Result<seq<Record>, Error>
    decreases |s|
  {
    if |s| < HEADER_BYTES then Ok([])
    else
      var len := FromLe(s[4..8]);
      if FromLe(s[..4]) != RECORD_MAGIC then Err(BadMagic)
      else if HEADER_BYTES + len > |s| then Ok([])
      else
        var payload, rest := s[HEADER_BYTES..HEADER_BYTES + len], s[HEADER_BYTES + len..];
        if Crc32Of(payload) != FromLe(s[8..12]) then if rest == [] then Ok([]) else Err(CrcMismatch)
        else
          match Decode(payload)
          case None => if rest == [] then Ok([]) else Err(Undecodable)
          case Some(r) =>
            match Replayed(rest)
            case Err(e) => Err(e)
            case Ok(more) => Ok([r] + more)
  }

  ghost predicate Loggable(r: Record) { Encodable(r) && |Encode(r)| < Pow256(4) }

  ghost predicate AllLoggable(recs: seq<Record>) { forall i :: 0 <= i < |recs| ==> Loggable(recs[i]) }

  /** The header fields of a frame, read back from a log that starts with it. */
  lemma {:induction false} FrameReadsBack(payload: seq<byte>, rest: seq<byte>)
    requires |payload| < Pow256(4)
    ensures var s := FrameOf(payload) + rest;
      && |FrameOf(payload)| == HEADER_BYTES + |payload| && FromLe(s[..4]) == RECORD_MAGIC
      && FromLe(s[4..8]) == |payload| && FromLe(s[8..12]) == Crc32Of(payload)
      && s[HEADER_BYTES..HEADER_BYTES + |payload|] == payload && s[HEADER_BYTES + |payload|..] == rest
  {
    hide Le, FromLe, Crc32Of, Pow256;
    var s := FrameOf(payload) + rest;
    Powers();
    FromLeOfLe(RECORD_MAGIC, 4);
    FromLeOfLe(|payload|, 4);
    FromLeOfLe(Crc32Of(payload), 4);
    assert s[..4] == Le(RECORD_MAGIC, 4) && s[4..8] == Le(|payload|, 4) && s[8..12] == Le(Crc32Of(payload), 4);
  }

  /** A whole record in front is replayed before the rest. */
  lemma {:induction false} ReplayFirst(r: Record, rest: seq<byte>)
    requires Loggable(r)
    ensures Replayed(Frame(r) + rest) == (match Replayed(rest) case Err(e) => Err(e) case Ok(more) => Ok([r] + more))
  {
    hide FromLe, Crc32Of, FrameOf, Encode, Decode;
    FrameReadsBack(Encode(r), rest);
    DecodeInvertsEncode(r);
  }

  /** Bytes of an incomplete frame replay to nothing. */
  lemma {:induction false} TornFrame(r: Record, m: nat)
    requires Loggable(r) && m < |Frame(r)|
    ensures Replayed(Frame(r)[..m]) == Ok([])
  {
    hide FromLe, Crc32Of, FrameOf, Encode, Decode;
    FrameReadsBack(Encode(r), []);
    assert Frame(r) + [] == Frame(r);
    var torn := Frame(r)[..m];
    if m >= HEADER_BYTES {
      assert torn[..4] == Frame(r)[..4] && torn[4..8] == Frame(r)[4..8];
    }
  }

  /** How many records lie completely within the first n bytes of their log. */
  ghost function Complete(recs: seq<Record>, n: nat): (k: nat)
    ensures k <= |recs|
    decreases recs
  {
    if recs == [] || n < |Frame(recs[0])| then 0 else 1 + Complete(recs[1..], n - |Frame(recs[0])|)
  }

  /** Whatever byte a crash cuts the log at, replay gives exactly the completely logged records. */
  lemma {:induction false} ReplayOfPrefix(recs: seq<Record>, n: nat)
    requires AllLoggable(recs) && n <= |Frames(recs)|
    ensures Replayed(Frames(recs)[..n]) == Ok(recs[..Complete(recs, n)])
    decreases recs
  {
    hide Frame, Loggable, Replayed;
    if recs == [] {
      NothingToReplay();
    } else if n < |Frame(recs[0])| {
      assert Frames(recs)[..n] == Frame(recs[0])[..n];
      TornFrame(recs[0], n);
    } else {
      var left := n - |Frame(recs[0])|;
      ReplayOfPrefix(recs[1..], left);
      assert Frames(recs)[..n] == Frame(recs[0]) + Frames(recs[1..])[..left];
      ReplayFirst(recs[0], Frames(recs[1..])[..left]);
      assert recs[..Complete(recs, n)] == [recs[0]] + recs[1..][..Complete(recs[1..], left)];
    }
  }

  lemma {:induction false} NothingToReplay()
    ensures Replayed([]) == Ok([])
  {}

  lemma {:induction false} CompleteAll(recs: seq<Record>)
    ensures Complete(recs, |Frames(recs)|) == |recs|
    decreases recs
  {
    hide Frame;
    if recs != [] { CompleteAll(recs[1..]); }
  }

  /** Replay undoes logging. */
  lemma {:induction false} ReplayInvertsFrames(recs: seq<Record>)
    requires AllLoggable(recs)
    ensures Replayed(Frames(recs)) == Ok(recs)
  {
    hide Replayed, Frame;
    ReplayOfPrefix(recs, |Frames(recs)|);
    CompleteAll(recs);
    assert Frames(recs)[..|Frames(recs)|] == Frames(recs) && recs[..|recs|] == recs;
  }

  // ----- Damage -----

  /** Replay gets past the whole records in front of a damaged one. */
  lemma {:induction false} ReplayPast(recs: seq<Record>, rest: seq<byte>)
    requires AllLoggable(recs)
    ensures Replayed(Frames(recs) + rest)
      == (match Replayed(rest) case Err(e) => Err(e) case Ok(more) => Ok(recs + more))
    decreases recs
  {
    hide Frame, Loggable, Replayed;
    if recs == [] {
      assert Frames(recs) + rest == rest;
      if Replayed(rest).Ok? { assert [] + Replayed(rest).value == Replayed(rest).value; }
    } else {
      assert Frames(recs) + rest == Frame(recs[0]) + (Frames(recs[1..]) + rest);
      ReplayPast(recs[1..], rest);
      ReplayFirst(recs[0], Frames(recs[1..]) + rest);
      if Replayed(rest).Ok? { assert [recs[0]] + (recs[1..] + Replayed(rest).value) == recs + Replayed(rest).value; }
    }
  }

  /** A frame whose payload bytes are not the ones its checksum was taken over. */
  lemma {:induction false} DamagedFrame(payload: seq<byte>, bad: seq<byte>, rest: seq<byte>)
    requires |payload| == |bad| < Pow256(4) && Crc32Of(bad) != Crc32Of(payload)
    ensures Replayed(FrameOf(payload)[..HEADER_BYTES] + bad + rest) == if rest == [] then Ok([]) else Err(CrcMismatch)
  {
    hide FromLe, Crc32Of, FrameOf, Decode, Pow256;
    FrameReadsBack(payload, rest);
    var good, s := FrameOf(payload) + rest, FrameOf(payload)[..HEADER_BYTES] + bad + rest;
    assert s[..4] == good[..4] && s[4..8] == good[4..8] && s[8..12] == good[8..12];
    assert s[HEADER_BYTES..HEADER_BYTES + |bad|] == bad && s[HEADER_BYTES + |bad|..] == rest;
  }

  /**
   * One changed byte in the payload of record i of a log: reported as damage unless record i is the last one, which is
   * then dropped as a torn append.
   */
  lemma {:induction false} ChangedPayloadByte(recs: seq<Record>, i: nat, j: nat, x: byte)
    requires AllLoggable(recs) && i < |recs| && j < |Encode(recs[i])| && x != Encode(recs[i])[j]
    ensures var at := |Frames(recs[..i])| + HEADER_BYTES + j;
      && at < |Frames(recs)| && Frames(recs)[at] == Encode(recs[i])[j]
      && Replayed(Frames(recs)[at := x]) == if i + 1 == |recs| then Ok(recs[..i]) else Err(CrcMismatch)
  {
    hide Frame, Loggable, Replayed, Encode, FrameOf, Crc32Of, Pow256;
    LogAround(recs, i);
    var payload, rest := Encode(recs[i]), Frames(recs[i + 1..]);
    var head := FrameOf(payload)[..HEADER_BYTES];
    var bad := payload[j := x];
    OneByteChangesCrc32(payload, j, x);
    DamagedFrame(payload, bad, rest);
    ReplayPast(recs[..i], head + bad + rest);
    var at := |Frames(recs[..i])| + HEADER_BYTES + j;
    assert Frames(recs)[at := x] == Frames(recs[..i]) + (head + bad + rest);
    RestOfLog(recs, i);
    assert recs[..i] + [] == recs[..i];
  }

  /** A log around its record i. */
  lemma {:induction false} LogAround(recs: seq<Record>, i: nat)
    requires i < |recs| && Loggable(recs[i])
    ensures |Encode(recs[i])| < Pow256(4) && |FrameOf(Encode(recs[i]))| == HEADER_BYTES + |Encode(recs[i])|
    ensures var payload := Encode(recs[i]);
      Frames(recs) == Frames(recs[..i]) + (FrameOf(payload)[..HEADER_BYTES] + payload + Frames(recs[i + 1..]))
  {
    hide Encode, FrameOf;
    var payload := Encode(recs[i]);
    FrameReadsBack(payload, []);
    assert FrameOf(payload) + [] == FrameOf(payload);
    assert FrameOf(payload) == FrameOf(payload)[..HEADER_BYTES] + payload;
    assert recs == recs[..i] + recs[i..];
    FramesAppend(recs[..i], recs[i..]);
    assert recs[i..][0] == recs[i] && recs[i..][1..] == recs[i + 1..];
  }

  lemma {:induction false} RestOfLog(recs: seq<Record>, i: nat)
    requires i < |recs| && AllLoggable(recs)
    ensures Frames(recs[i + 1..]) == [] <==> i + 1 == |recs|
  {
    hide FrameOf, Encode;
    if i + 1 < |recs| { LogAround(recs[i + 1..], 0); }
  }

  /** A log whose record i has another number in its length field. */
  ghost function WithLength(recs: seq<Record>, i: nat, len: nat): seq<byte>
    requires i < |recs| && |Frames(recs[i..])| >= HEADER_BYTES
  {
    var rest := Frames(recs[i..]);
    Frames(recs[..i]) + (rest[..4] + Le(len, 4) + rest[8..])
  }

  /**
   * The length field is not covered by the checksum. A changed one makes record i and everything after it look like one
   * torn append, however many of them were acknowledged, exactly when it points past the end of the log, or onto its end
   * with a payload that then fails its checksum or does not decode.
   */
  lemma {:induction false} ChangedLengthLooksTorn(recs: seq<Record>, i: nat, len: nat)
    requires AllLoggable(recs) && i < |recs| && len < Pow256(4)
    ensures |Frames(recs[i..])| >= HEADER_BYTES
    ensures var rest := Frames(recs[i..]);
      Replayed(WithLength(recs, i, len)) == Ok(recs[..i])
      <==> (|| HEADER_BYTES + len > |rest|
            || (HEADER_BYTES + len == |rest|
                && (Crc32Of(rest[HEADER_BYTES..]) != FromLe(rest[8..12]) || Decode(rest[HEADER_BYTES..]) == None)))
  {
    hide FrameOf, Encode, FromLe, Le, Crc32Of, Decode, Replayed, Pow256;
    var rest := Frames(recs[i..]);
    LogAround(recs[i..], 0);
    assert recs[i..][0] == recs[i];
    FrameReadsBack(Encode(recs[i]), Frames(recs[i..][1..]));
    var bad := rest[..4] + Le(len, 4) + rest[8..];
    FromLeOfLe(len, 4);
    assert bad[..4] == rest[..4] && bad[4..8] == Le(len, 4) && bad[8..12] == rest[8..12];
    assert bad[HEADER_BYTES..] == rest[HEADER_BYTES..];
    if HEADER_BYTES + len == |rest| { assert bad[HEADER_BYTES..HEADER_BYTES + len] == rest[HEADER_BYTES..]; }
    ReplayedStep(bad);
    ReplayPast(recs[..i], bad);
    assert recs[..i] + [] == recs[..i];
    if Replayed(bad).Ok? && Replayed(bad).value != [] { assert |recs[..i] + Replayed(bad).value| > i; }
  }

  method EncodeRecord(r: Record) returns (payload: seq<byte>)
    ensures payload == Encode(r)
  {
    hide Le, Str;
    var w := new Writer();
    w.Num(OpCode(r.op), 1);
    w.Text(r.uri);
    w.Text(r.title);
    w.Text(r.text);
    w.Num(|r.meta|, 4);
    WritePairs(w, r.meta);
    w.Num(r.docId, 4);
    payload := w.buf;
  }

  method WritePairs(w: Writer, meta: seq<Pair>)
    modifies w
    ensures w.buf == old(w.buf) + Pairs(meta)
  {
    hide Str;
    assert meta[0..] == meta;
    for i := 0 to |meta|
      invariant w.buf + Pairs(meta[i..]) == old(w.buf) + Pairs(meta)
    {
      assert meta[i..][0] == meta[i] && meta[i..][1..] == meta[i + 1..];
      w.Text(meta[i].key);
      w.Text(meta[i].value);
    }
  }

  method DecodeRecord(payload: seq<byte>) returns (r: Option<Record>)
    ensures r == Decode(payload)
  {
    hide ReadNum, ReadStr, DecodePairs;
    var reader := new Reader(payload);
    var op := reader.Num(1);
    if op == None || (op.value != 1 && op.value != 2) { return None; }
    var uri := reader.Text();
    if uri == None { return None; }
    var title := reader.Text();
    if title == None { return None; }
    var text := reader.Text();
    if text == None { return None; }
    var n := reader.Num(4);
    if n == None { return None; }
    var meta := ReadPairs(reader, n.value);
    if meta == None { return None; }
    var id := reader.Num(4);
    if id == None { return None; }
    r := Some(Record(if op.value == 1 then AddDocument else RemoveDocument, uri.value, title.value, text.value, meta.value, id.value));
  }

  method ReadPairs(reader: Reader, n: nat) returns (r: Option<seq<Pair>>)
    modifies reader
    ensures match DecodePairs(old(reader.rest), n, [])
      case None => r == None
      case Some((meta, left)) => r == Some(meta) && reader.rest == left
  {
    hide ReadStr;
    var meta: seq<Pair> := [];
    for i := 0 to n
      invariant DecodePairs(reader.rest, n - i, meta) == DecodePairs(old(reader.rest), n, [])
    {
      var key := reader.Text();
      if key == None { return None; }
      var value := reader.Text();
      if value == None { return None; }
      meta := Emplace(meta, Pair(key.value, value.value));
    }
    r := Some(meta);
  }

  // ----- The log file -----

  /** What the system makes of one append: how many bytes it accepts before an error, and whether the flush succeeds. */
  datatype Io = Io(written: nat, synced: bool)

  predicate Accepts(io: Io, bytes: seq<byte>) { io.written >= |bytes| && io.synced }

  /** The part of the bytes that reaches the file; a failed append may leave some or, when only the flush fails, all. */
  function Landed(bytes: seq<byte>, io: Io): seq<byte> { if io.written >= |bytes| then bytes else bytes[..io.written] }

  /** An open log: `file` is what is on disk, `size` the count the log keeps of it. */
  class Log {
    var isOpen: bool
    var file: seq<byte>
    var size: nat

    constructor Closed()
      ensures !isOpen && file == [] && size == 0
    {
      isOpen, file, size := false, [], 0;
    }

    constructor (file: seq<byte>)
      ensures isOpen && this.file == file && size == |file|
    {
      isOpen, this.file, size := true, file, |file|;
    }

    /** The write loop and the flush; only a success is counted. */
    method Write(bytes: seq<byte>, io: Io) returns (ok: bool)
      requires isOpen
      modifies `file, `size
      ensures ok <==> Accepts(io, bytes)
      ensures file == old(file) + Landed(bytes, io)
      ensures size == old(size) + if ok then |bytes| else 0
    {
      file := file + Landed(bytes, io);
      ok := io.written >= |bytes| && io.synced;
      if ok { size := size + |bytes|; }
    }

    method Append(r: Record, io: Io) returns (result: Result<(), Error>)
      modifies `file, `size
      ensures result.Ok? <==> isOpen && Accepts(io, Frame(r))
      ensures file == old(file) + if isOpen then Landed(Frame(r), io) else []
      ensures size == old(size) + if result.Ok? then |Frame(r)| else 0
    {
      hide Frame;
      if !isOpen { return Err(NotOpen); }
      var frame := MakeFrame(r);
      var ok := Write(frame, io);
      result := if ok then Ok(()) else Err(WriteFailed);
    }

    /** One write and one flush for a whole group of records. */
    method AppendBatch(recs: seq<Record>, io: Io) returns (result: Result<(), Error>)
      modifies `file, `size
      ensures result.Ok? <==> isOpen && (recs == [] || Accepts(io, Frames(recs)))
      ensures file == old(file) + if isOpen then Landed(Frames(recs), io) else []
      ensures size == old(size) + if result.Ok? then |Frames(recs)| else 0
    {
      hide Frame;
      if !isOpen { return Err(NotOpen); }
      if recs == [] {
        assert Frames(recs) == [] && Landed([], io) == [];
        return Ok(());
      }
      var buf: seq<byte> := [];
      assert recs[0..] == recs;
      for i := 0 to |recs|
        invariant file == old(file) && size == old(size) && isOpen
        invariant buf + Frames(recs[i..]) == Frames(recs)
      {
        assert recs[i..][0] == recs[i] && recs[i..][1..] == recs[i + 1..];
        var frame := MakeFrame(recs[i]);
        buf := buf + frame;
      }
      assert buf + Frames(recs[|recs|..]) == buf;
      var ok := Write(buf, io);
      result := if ok then Ok(()) else Err(WriteFailed);
    }

    method Truncate(truncated: bool, synced: bool) returns (result: Result<(), Error>)
      modifies `file, `size
      ensures result.Ok? <==> isOpen && truncated && synced
      ensures file == if isOpen && truncated then [] else old(file)
      ensures size == if result.Ok? then 0 else old(size)
    {
      if !isOpen { return Err(NotOpen); }
      if !truncated { return Err(WriteFailed); }
      file := [];
      if !synced { return Err(WriteFailed); }
      size := 0;
      result := Ok(());
    }
  }

  method MakeFrame(r: Record) returns (frame: seq<byte>)
    ensures frame == Frame(r)
  {
    hide Le, Crc, Encode;
    var payload := EncodeRecord(r);
    var crc := Checksum(payload);
    var w := new Writer();
    w.Num(RECORD_MAGIC, 4);
    w.Num(|payload|, 4);
    w.Num(Number(crc), 4);
    w.Raw(payload);
    frame := w.buf;
  }

  ghost function After(done: seq<Record>, rest: Result<seq<Record>, Error>): Result<seq<Record>, Error> {
    match rest
    case Err(e) => Err(e)
    case Ok(more) => Ok(done + more)
  }

  /** Read a log from its beginning. */
  method Replay(blob: seq<byte>) returns (r: Result<seq<Record>, Error>)
    ensures r == Replayed(blob)
  {
    hide FromLe, Crc, Decode, Replayed;
    var out: seq<Record> := [];
    var pos: nat := 0;
    assert blob[0..] == blob;
    if Replayed(blob).Ok? { assert [] + Replayed(blob).value == Replayed(blob).value; }
    while pos + HEADER_BYTES <= |blob|
      invariant pos <= |blob|
      invariant After(out, Replayed(blob[pos..])) == Replayed(blob)
      decreases |blob| - pos
    {
      var magic, len, crc := FromLe(blob[pos..pos + 4]), FromLe(blob[pos + 4..pos + 8]), FromLe(blob[pos + 8..pos + 12]);
      ReplayedAt(blob, pos);
      if magic != RECORD_MAGIC { return Err(BadMagic); }
      var body: nat := pos + HEADER_BYTES;
      if body + len > |blob| {
        assert out + [] == out;
        return Ok(out);
      }
      var payload := blob[body..body + len];
      var actual := Checksum(payload);
      var rec := DecodeRecord(payload);
      if Number(actual) != crc || rec == None {
        assert out + [] == out;
        if body + len == |blob| { return Ok(out); }
        return Err(if Number(actual) != crc then CrcMismatch else Undecodable);
      }
      AfterOne(out, rec.value, Replayed(blob[body + len..]));
      out := out + [rec.value];
      pos := body + len;
    }
    ReplayedStep(blob[pos..]);
    assert out + [] == out;
    r := Ok(out);
  }

  lemma {:induction false} SliceOfRest(blob: seq<byte>, pos: nat, a: nat, b: nat)
    requires pos + b <= |blob| && a <= b
    ensures blob[pos..][a..b] == blob[pos + a..pos + b] && blob[pos..][b..] == blob[pos + b..]
  {}

  /** One step of reading, at a position of the log. */
  lemma {:induction false} ReplayedAt(blob: seq<byte>, pos: nat)
    requires pos + HEADER_BYTES <= |blob|
    ensures var s, body, len := Replayed(blob[pos..]), pos + HEADER_BYTES, FromLe(blob[pos + 4..pos + 8]);
      && (FromLe(blob[pos..pos + 4]) != RECORD_MAGIC ==> s == Err(BadMagic))
      && (FromLe(blob[pos..pos + 4]) == RECORD_MAGIC && body + len > |blob| ==> s == Ok([]))
      && (FromLe(blob[pos..pos + 4]) == RECORD_MAGIC && body + len <= |blob| ==>
            var payload, done := blob[body..body + len], body + len == |blob|;
            if Crc32Of(payload) != FromLe(blob[pos + 8..pos + 12]) then s == (if done then Ok([]) else Err(CrcMismatch))
            else if Decode(payload) == None then s == (if done then Ok([]) else Err(Undecodable))
            else s == After([Decode(payload).value], Replayed(blob[body + len..])))
  {
    hide FromLe, Crc32Of, Decode, Replayed;
    SliceOfRest(blob, pos, 0, 4);
    SliceOfRest(blob, pos, 4, 8);
    SliceOfRest(blob, pos, 8, 12);
    ReplayedStep(blob[pos..]);
    var len := FromLe(blob[pos + 4..pos + 8]);
    if pos + HEADER_BYTES + len <= |blob| { SliceOfRest(blob, pos, HEADER_BYTES, HEADER_BYTES + len); }
  }

  lemma {:induction false} AfterOne(done: seq<Record>, r: Record, rest: Result<seq<Record>, Error>)
    ensures After(done + [r], rest) == After(done, After([r], rest))
  {
    if rest.Ok? { assert done + [r] + rest.value == done + ([r] + rest.value); }
  }

  lemma {:induction false} ReplayedStep(s: seq<byte>)
    ensures |s| < HEADER_BYTES ==> Replayed(s) == Ok([])
    ensures |s| >= HEADER_BYTES ==>
      var len := FromLe(s[4..8]);
      && (FromLe(s[..4]) != RECORD_MAGIC ==> Replayed(s) == Err(BadMagic))
      && (FromLe(s[..4]) == RECORD_MAGIC && HEADER_BYTES + len > |s| ==> Replayed(s) == Ok([]))
      && (FromLe(s[..4]) == RECORD_MAGIC && HEADER_BYTES + len <= |s| ==>
            var payload, rest := s[HEADER_BYTES..HEADER_BYTES + len], s[HEADER_BYTES + len..];
            if Crc32Of(payload) != FromLe(s[8..12]) then Replayed(s) == (if rest == [] then Ok([]) else Err(CrcMismatch))
            else if Decode(payload) == None then Replayed(s) == (if rest == [] then Ok([]) else Err(Undecodable))
            else Replayed(s) == After([Decode(payload).value], Replayed(rest)))
  {
    hide FromLe, Crc32Of, Decode;
  }
}
