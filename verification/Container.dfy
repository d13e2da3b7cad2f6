/** The sectioned file container: header, section table, payloads, checksum trailer. */
module Container {
  import opened Wrappers
  import opened Bytes
  import opened Crc32

  datatype Error =
    | TooShort | CrcMismatch | BadMagic | UnsupportedMajor | TooManySections | BadSectionTable | SectionOutOfBounds

  const MAGIC: seq<byte> := [0x52, 0x41, 0x47, 0x44, 0x42, 0, 0, 0]
  const MAJOR: nat := 1
  const HEADER_SIZE: nat := 28
  const ENTRY_SIZE: nat := 20

  datatype Section = Section(tag: nat, payload: seq<byte>)
  datatype Entry = Entry(tag: nat, off: nat, len: nat)

  /** The sections in ascending tag order, as an ordered map keeps them. */
  datatype Contents = Contents(sections: seq<Section>, flags: nat, major: nat, minor: nat)

  ghost predicate Ascending(s: seq<Section>) {
    forall i, j :: 0 <= i < j < |s| ==> s[i].tag < s[j].tag
  }

  /** Add a section, or overwrite the one with its tag. */
  function Put(s: seq<Section>, x: Section): (r: seq<Section>)
    requires Ascending(s)
    ensures Ascending(r)
    ensures forall y :: y in r <==> y == x || (y in s && y.tag != x.tag)
  {
    if s == [] then [x]
    else
      var rest, last := s[..|s| - 1], s[|s| - 1];
      assert s == rest + [last];
      if last.tag < x.tag then s + [x]
      else if last.tag == x.tag then rest + [x]
      else Put(rest, x) + [last]
  }

  // ----- Layout -----

  function Header(c: Contents): seq<byte> {
    MAGIC + Le(c.major, 2) + Le(c.minor, 2) + Le(c.flags, 4) + Le(|c.sections|, 4) + Le(0, 8)
  }

  /** One table entry per section; payloads lie one after the other from `cursor` on. */
  function Table(s: seq<Section>, cursor: nat): seq<byte>
    decreases s
  {
    if s == [] then []
    else Le(s[0].tag, 4) + Le(cursor, 8) + Le(|s[0].payload|, 8) + Table(s[1..], cursor + |s[0].payload|)
  }

  function Payloads(s: seq<Section>): seq<byte>
    decreases s
  {
    if s == [] then [] else s[0].payload + Payloads(s[1..])
  }

  function Body(c: Contents): seq<byte> {
    Header(c) + Table(c.sections, HEADER_SIZE + ENTRY_SIZE * |c.sections|) + Payloads(c.sections)
  }

  function Serialized(c: Contents): seq<byte> { Body(c) + Le(Crc32Of(Body(c)), 4) }

  lemma {:induction false} TableSize(s: seq<Section>, cursor: nat)
    ensures |Table(s, cursor)| == ENTRY_SIZE * |s|
    decreases s
  {
    if s != [] { TableSize(s[1..], cursor + |s[0].payload|); }
  }

  // ----- Parsing -----

  ghost function ParseEntries(b: seq<byte>, n: nat): Option<seq<Entry>>
    decreases n
  {
    if n == 0 then Some([])
    else
      match ReadNum(b, 4)
      case None => None
      case Some((tag, b1)) =>
        match ReadNum(b1, 8)
        case None => None
        case Some((off, b2)) =>
          match ReadNum(b2, 8)
          case None => None
          case Some((len, b3)) =>
            match ParseEntries(b3, n - 1)
            case None => None
            case Some(rest) => Some([Entry(tag, off, len)] + rest)
  }

  /** The sections the entries point at, a repeated tag overwriting. */
  ghost function Extract(blob: seq<byte>, entries: seq<Entry>, s: seq<Section>): Result<seq<Section>, Error>
    requires |blob| >= 4 && Ascending(s)
    decreases entries
  {
    if entries == [] then Ok(s)
    else
      var e, limit := entries[0], |blob| - 4;
      if e.off > limit || e.len > limit - e.off then Err(SectionOutOfBounds)
      else Extract(blob, entries[1..], Put(s, Section(e.tag, blob[e.off..e.off + e.len])))
  }

  /** The fixed fields after the magic: major, minor, flags, section count. */
  ghost function Field(blob: seq<byte>, at: nat, k: nat): nat
    requires at + k <= |blob|
  {
    FromLe(blob[at..at + k])
  }

  ghost function Parsed(blob: seq<byte>): Result<Contents, Error> {
    if |blob| < HEADER_SIZE + 4 then Err(TooShort)
    else if Crc32Of(blob[..|blob| - 4]) != FromLe(blob[|blob| - 4..]) then Err(CrcMismatch)
    else if blob[..8] != MAGIC then Err(BadMagic)
    else if Field(blob, 8, 2) != MAJOR then Err(UnsupportedMajor)
    else
      var n := Field(blob, 16, 4);
      if n > |blob| / ENTRY_SIZE then Err(TooManySections)
      else
        match ParseEntries(blob[HEADER_SIZE..], n)
        case None => Err(BadSectionTable)
        case Some(entries) =>
          match Extract(blob, entries, [])
          case Err(e) => Err(e)
          case Ok(s) => Ok(Contents(s, Field(blob, 12, 4), MAJOR, Field(blob, 10, 2)))
  }

  // ----- Parsing undoes serializing -----

  ghost predicate Storable(c: Contents) {
    && Ascending(c.sections)
    && (forall i :: 0 <= i < |c.sections| ==> c.sections[i].tag < Pow256(4))
    && c.major == MAJOR && c.minor < Pow256(2) && c.flags < Pow256(4)
    && |c.sections| < Pow256(4) && |Body(c)| < Pow256(8)
  }

  ghost function EntriesOf(s: seq<Section>, cursor: nat): seq<Entry>
    decreases s
  {
    if s == [] then []
    else [Entry(s[0].tag, cursor, |s[0].payload|)] + EntriesOf(s[1..], cursor + |s[0].payload|)
  }

  lemma {:induction false} EntriesReadBack(s: seq<Section>, cursor: nat, rest: seq<byte>)
    requires forall i :: 0 <= i < |s| ==> s[i].tag < Pow256(4)
    requires cursor + |Payloads(s)| < Pow256(8)
    ensures ParseEntries(Table(s, cursor) + rest, |s|) == Some(EntriesOf(s, cursor))
    decreases s
  {
    hide Pow256, Le, FromLe, ReadNum;
    if s != [] {
      var next := cursor + |s[0].payload|;
      EntriesReadBack(s[1..], next, rest);
      var b3 := Table(s[1..], next) + rest;
      var b2 := Le(|s[0].payload|, 8) + b3;
      var b1 := Le(cursor, 8) + b2;
      assert Table(s, cursor) + rest == Le(s[0].tag, 4) + b1;
      ReadNumOf(s[0].tag, 4, b1);
      ReadNumOf(cursor, 8, b2);
      ReadNumOf(|s[0].payload|, 8, b3);
    }
  }

  lemma {:induction false} PutLast(s: seq<Section>, x: Section)
    requires Ascending(s + [x])
    ensures Ascending(s) && Put(s, x) == s + [x]
  {
    forall i, j | 0 <= i < j < |s| ensures s[i].tag < s[j].tag {
      assert (s + [x])[i].tag < (s + [x])[j].tag;
    }
    if s != [] { assert (s + [x])[|s| - 1].tag < (s + [x])[|s|].tag; }
  }

  /** Payloads stored from `cursor` on are found again at their offsets. */
  lemma {:induction false} SectionsReadBack(blob: seq<byte>, done: seq<Section>, s: seq<Section>, cursor: nat)
    requires |blob| >= 4 && Ascending(done + s)
    requires cursor + |Payloads(s)| <= |blob| - 4 && blob[cursor..cursor + |Payloads(s)|] == Payloads(s)
    ensures Ascending(done) && Extract(blob, EntriesOf(s, cursor), done) == Ok(done + s)
    decreases s
  {
    hide Put, Payloads, Ascending, Extract, EntriesOf;
    FirstOf(done, s);
    if s == [] {
      assert done + s == done;
      ExtractStep(blob, EntriesOf(s, cursor), done);
      EntriesStep(s, cursor);
    } else {
      var x, next := s[0], cursor + |s[0].payload|;
      assert done + s == (done + [x]) + s[1..];
      FirstPayload(blob, s, cursor);
      FirstOf(done + [x], s[1..]);
      PutLast(done, x);
      SectionsReadBack(blob, done + [x], s[1..], next);
      EntriesStep(s, cursor);
      ExtractStep(blob, EntriesOf(s, cursor), done);
    }
  }

  lemma {:induction false} ExtractStep(blob: seq<byte>, entries: seq<Entry>, s: seq<Section>)
    requires |blob| >= 4 && Ascending(s)
    ensures entries == [] ==> Extract(blob, entries, s) == Ok(s)
    ensures entries != [] && entries[0].off + entries[0].len <= |blob| - 4 ==>
      var e := entries[0];
      Extract(blob, entries, s) == Extract(blob, entries[1..], Put(s, Section(e.tag, blob[e.off..e.off + e.len])))
  {
    hide Put, Ascending;
  }

  lemma {:induction false} EntriesStep(s: seq<Section>, cursor: nat)
    ensures s == [] ==> EntriesOf(s, cursor) == []
    ensures s != [] ==>
      && EntriesOf(s, cursor) != [] && EntriesOf(s, cursor)[0] == Entry(s[0].tag, cursor, |s[0].payload|)
      && EntriesOf(s, cursor)[1..] == EntriesOf(s[1..], cursor + |s[0].payload|)
  {}

  lemma {:induction false} FirstOf(a: seq<Section>, b: seq<Section>)
    requires Ascending(a + b)
    ensures Ascending(a)
  {
    forall i, j | 0 <= i < j < |a| ensures a[i].tag < a[j].tag {
      assert (a + b)[i].tag < (a + b)[j].tag;
    }
  }

  lemma {:induction false} FirstPayload(blob: seq<byte>, s: seq<Section>, cursor: nat)
    requires s != [] && cursor + |Payloads(s)| <= |blob| && blob[cursor..cursor + |Payloads(s)|] == Payloads(s)
    ensures var next := cursor + |s[0].payload|;
      && blob[cursor..next] == s[0].payload
      && next + |Payloads(s[1..])| == cursor + |Payloads(s)|
      && blob[next..next + |Payloads(s[1..])|] == Payloads(s[1..])
  {
    var all, next := blob[cursor..cursor + |Payloads(s)|], cursor + |s[0].payload|;
    assert all[..|s[0].payload|] == s[0].payload && all[|s[0].payload|..] == Payloads(s[1..]);
    assert blob[cursor..next] == all[..|s[0].payload|];
    assert blob[next..next + |Payloads(s[1..])|] == all[|s[0].payload|..];
  }

  lemma {:induction false} HeaderFields(c: Contents, rest: seq<byte>)
    requires Storable(c)
    ensures var blob := Header(c) + rest;
      && |Header(c)| == HEADER_SIZE && blob[..8] == MAGIC && blob[HEADER_SIZE..] == rest
      && Field(blob, 8, 2) == c.major && Field(blob, 10, 2) == c.minor
      && Field(blob, 12, 4) == c.flags && Field(blob, 16, 4) == |c.sections|
  {
    hide Le, FromLe;
    var blob := Header(c) + rest;
    Powers();
    FromLeOfLe(c.major, 2);
    FromLeOfLe(c.minor, 2);
    FromLeOfLe(c.flags, 4);
    FromLeOfLe(|c.sections|, 4);
    assert blob[8..10] == Le(c.major, 2) && blob[10..12] == Le(c.minor, 2);
    assert blob[12..16] == Le(c.flags, 4) && blob[16..20] == Le(|c.sections|, 4);
  }

  /** Where the parts of a stored container lie. */
  lemma {:induction false} Layout(c: Contents)
    requires |Header(c)| == HEADER_SIZE
    ensures var n, cursor := |c.sections|, HEADER_SIZE + ENTRY_SIZE * |c.sections|;
      var trailer, blob := Le(Crc32Of(Body(c)), 4), Serialized(c);
      && |blob| == cursor + |Payloads(c.sections)| + 4
      && blob[..|blob| - 4] == Body(c) && blob[|blob| - 4..] == trailer
      && blob == Header(c) + (Table(c.sections, cursor) + (Payloads(c.sections) + trailer))
      && blob[cursor..cursor + |Payloads(c.sections)|] == Payloads(c.sections)
  {
    hide Le, Crc32Of, Header, Table, Payloads;
    TableSize(c.sections, HEADER_SIZE + ENTRY_SIZE * |c.sections|);
  }

  /** Everything that can be stored is read back unchanged. */
  lemma {:induction false} ParseInvertsSerialize(c: Contents)
    requires Storable(c)
    ensures Parsed(Serialized(c)) == Ok(c)
  {
    hide Le, FromLe, Crc32Of, ParseEntries, Extract, Header, Table, Payloads, Serialized, EntriesOf;
    var cursor := HEADER_SIZE + ENTRY_SIZE * |c.sections|;
    var tail := Payloads(c.sections) + Le(Crc32Of(Body(c)), 4);
    Powers();
    FromLeOfLe(Crc32Of(Body(c)), 4);
    HeaderFields(c, Table(c.sections, cursor) + tail);
    Layout(c);
    BodySize(c);
    EntriesReadBack(c.sections, cursor, tail);
    assert [] + c.sections == c.sections;
    SectionsReadBack(Serialized(c), [], c.sections, cursor);
  }

  lemma {:induction false} BodySize(c: Contents)
    requires |Header(c)| == HEADER_SIZE
    ensures |Body(c)| == HEADER_SIZE + ENTRY_SIZE * |c.sections| + |Payloads(c.sections)|
  {
    hide Header, Table, Payloads;
    TableSize(c.sections, HEADER_SIZE + ENTRY_SIZE * |c.sections|);
  }

  // ----- Damage -----

  /** A parsed container with any one byte changed, header, table, payload or trailer, is rejected. */
  lemma {:induction false} OneByteChangeIsRejected(blob: seq<byte>, i: nat, x: byte)
    requires Parsed(blob).Ok? && i < |blob| && x != blob[i]
    ensures Parsed(blob[i := x]) == Err(CrcMismatch)
  {
    hide Crc32Of, FromLe, ParseEntries, Extract;
    var bad, cut := blob[i := x], |blob| - 4;
    if i < cut {
      OneByteChangesCrc32(blob[..cut], i, x);
      assert bad[..cut] == blob[..cut][i := x] && bad[cut..] == blob[cut..];
    } else {
      assert bad[..cut] == blob[..cut];
      assert bad[cut..][i - cut] == x && blob[cut..][i - cut] == blob[i];
      LeOfFromLe(bad[cut..]);
      LeOfFromLe(blob[cut..]);
    }
  }

  // ----- The loops -----

  method Serialize(c: Contents) returns (blob: seq<byte>)
    ensures blob == Serialized(c)
  {
    hide Le, Crc, Header, Table, Payloads;
    var w := new Writer();
    assert [] + Header(c) == Header(c);
    WriteHeader(w, c);
    WriteTable(w, c.sections, HEADER_SIZE + ENTRY_SIZE * |c.sections|);
    WritePayloads(w, c.sections);
    assert w.buf == Body(c);
    var crc := Checksum(w.buf);
    w.Num(Number(crc), 4);
    blob := w.buf;
  }

  method WriteHeader(w: Writer, c: Contents)
    modifies w
    ensures w.buf == old(w.buf) + Header(c)
  {
    hide Le;
    w.Raw(MAGIC);
    w.Num(c.major, 2);
    w.Num(c.minor, 2);
    w.Num(c.flags, 4);
    w.Num(|c.sections|, 4);
    w.Num(0, 8);
  }

  method WriteTable(w: Writer, s: seq<Section>, first: nat)
    modifies w
    ensures w.buf == old(w.buf) + Table(s, first)
  {
    hide Le, Table;
    var cursor: nat := first;
    assert s[0..] == s;
    for i := 0 to |s|
      invariant w.buf + Table(s[i..], cursor) == old(w.buf) + Table(s, first)
    {
      TableStep(w.buf, s, i, cursor);
      w.Num(s[i].tag, 4);
      w.Num(cursor, 8);
      w.Num(|s[i].payload|, 8);
      cursor := cursor + |s[i].payload|;
    }
    TableSize(s[|s|..], cursor);
  }

  lemma {:induction false} TableStep(buf: seq<byte>, s: seq<Section>, i: nat, cursor: nat)
    requires i < |s|
    ensures buf + Table(s[i..], cursor) ==
      buf + Le(s[i].tag, 4) + Le(cursor, 8) + Le(|s[i].payload|, 8) + Table(s[i + 1..], cursor + |s[i].payload|)
  {
    hide Le;
    assert s[i..][0] == s[i] && s[i..][1..] == s[i + 1..];
  }

  method WritePayloads(w: Writer, s: seq<Section>)
    modifies w
    ensures w.buf == old(w.buf) + Payloads(s)
  {
    assert s[0..] == s;
    for i := 0 to |s|
      invariant w.buf + Payloads(s[i..]) == old(w.buf) + Payloads(s)
    {
      assert s[i..][0] == s[i] && s[i..][1..] == s[i + 1..];
      w.Raw(s[i].payload);
    }
  }

  method ReadEntries(r: Reader, n: nat) returns (entries: Option<seq<Entry>>)
    modifies r
    ensures entries == ParseEntries(old(r.rest), n)
  {
    hide ReadNum;
    var done: seq<Entry> := [];
    NothingPrepended(ParseEntries(r.rest, n));
    for i := 0 to n
      invariant Prepended(done, ParseEntries(r.rest, n - i)) == ParseEntries(old(r.rest), n)
    {
      var tag := r.Num(4);
      if tag == None { return None; }
      var off := r.Num(8);
      if off == None { return None; }
      var len := r.Num(8);
      if len == None { return None; }
      PrependOne(done, Entry(tag.value, off.value, len.value), ParseEntries(r.rest, n - i - 1));
      done := done + [Entry(tag.value, off.value, len.value)];
    }
    assert done + [] == done;
    entries := Some(done);
  }

  lemma {:induction false} NothingPrepended(rest: Option<seq<Entry>>)
    ensures Prepended([], rest) == rest
  {
    if rest.Some? { assert [] + rest.value == rest.value; }
  }

  lemma {:induction false} PrependOne(done: seq<Entry>, e: Entry, rest: Option<seq<Entry>>)
    ensures Prepended(done + [e], rest) == Prepended(done, Prepended([e], rest))
  {
    if rest.Some? { assert done + [e] + rest.value == done + ([e] + rest.value); }
  }

  ghost function Prepended(done: seq<Entry>, rest: Option<seq<Entry>>): Option<seq<Entry>> {
    match rest
    case None => None
    case Some(more) => Some(done + more)
  }

  method ExtractSections(blob: seq<byte>, entries: seq<Entry>) returns (r: Result<seq<Section>, Error>)
    requires |blob| >= 4
    ensures r == Extract(blob, entries, [])
  {
    hide Put;
    var limit := |blob| - 4;
    var s: seq<Section> := [];
    assert entries[0..] == entries;
    for i := 0 to |entries|
      invariant Ascending(s) && Extract(blob, entries[i..], s) == Extract(blob, entries, [])
    {
      assert entries[i..][0] == entries[i] && entries[i..][1..] == entries[i + 1..];
      var e := entries[i];
      if e.off > limit || e.len > limit - e.off { return Err(SectionOutOfBounds); }
      s := Put(s, Section(e.tag, blob[e.off..e.off + e.len]));
    }
    r := Ok(s);
  }

  method Parse(blob: seq<byte>) returns (r: Result<Contents, Error>)
    ensures r == Parsed(blob)
  {
    hide FromLe, Crc, ParseEntries, Extract;
    if |blob| < HEADER_SIZE + 4 { return Err(TooShort); }
    var crc := Checksum(blob[..|blob| - 4]);
    if Number(crc) != FromLe(blob[|blob| - 4..]) { return Err(CrcMismatch); }
    var reader := new Reader(blob);
    var magic := reader.Raw(8);
    if magic.value != MAGIC { return Err(BadMagic); }
    var major := ReadField(reader, blob, 8, 2);
    var minor := ReadField(reader, blob, 10, 2);
    if major != MAJOR { return Err(UnsupportedMajor); }
    var flags := ReadField(reader, blob, 12, 4);
    var n := ReadField(reader, blob, 16, 4);
    var _ := ReadField(reader, blob, 20, 8);
    if n > |blob| / ENTRY_SIZE { return Err(TooManySections); }
    var entries := ReadEntries(reader, n);
    if entries == None { return Err(BadSectionTable); }
    var s := ExtractSections(blob, entries.value);
    r := match s case Err(e) => Err(e) case Ok(sections) => Ok(Contents(sections, flags, major, minor));
  }

  /** A fixed header field; the size check has already ruled out running short. */
  method ReadField(reader: Reader, ghost blob: seq<byte>, at: nat, k: nat) returns (v: nat)
    requires at + k <= |blob| && reader.rest == blob[at..]
    modifies reader
    ensures v == Field(blob, at, k) && reader.rest == blob[at + k..]
  {
    var r := reader.Num(k);
    v := r.value;
    assert blob[at..][..k] == blob[at..at + k];
  }
}
