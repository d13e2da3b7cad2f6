/** The corpus object: documents, tombstones and an optional log that is written before anything changes. */
module Corpus {
  import opened Wrappers
  import opened Bytes
  import opened Wal
  import opened Recovery

  datatype Failure = NotFound | LogFailed(error: Error) | BuildFailed | OpenFailed | SaveFailed

  // ----- An upsert whose two log writes may fail -----

  /** The contents after an upsert, by whether the removal of the old document and the addition of the new one went through. */
  function Upserted(s: State, m: Mutation, removed: bool, added: bool): State
    requires m.Upsert?
  {
    var kept := if removed && Find(s, m.uri).Some? then Without(s, Find(s, m.uri).value) else s;
    if added then WithDocument(kept, AddRecord(m.uri, m.text, m.meta, m.title)) else kept
  }

  /** What an upsert appends to the log. */
  function UpsertBytes(s: State, m: Mutation, removal: Io, addition: Io): seq<byte>
    requires m.Upsert?
  {
    (match Find(s, m.uri)
     case None => []
     case Some(id) => Landed(Frame(RemoveRecord(id)), removal))
    + Landed(Frame(AddRecord(m.uri, m.text, m.meta, m.title)), addition)
  }

  /** The removal an upsert starts with, if there is one, is logged. */
  predicate RemovalAccepted(s: State, m: Mutation, removal: Io)
    requires m.Upsert?
  {
    Find(s, m.uri).Some? ==> Accepts(removal, Frame(RemoveRecord(Find(s, m.uri).value)))
  }

  /**
   * An upsert replaces the live document or changes nothing if and only if there was none, or both writes went the same
   * way: an error after the removal loses the old document, and a success after a failed removal leaves both live.
   */
  lemma {:induction false} UpsertIsAllOrNothing(s: State, m: Mutation, removed: bool, added: bool)
    requires m.Upsert?
    ensures Upserted(s, m, removed, added) == Mutated(s, m) <==> added && (Find(s, m.uri) == None || removed)
    ensures Upserted(s, m, removed, added) == s <==> !added && (Find(s, m.uri) == None || !removed)
  {
    FindFromFirst(s, m.uri, 0);
    var r := Upserted(s, m, removed, added);
    assert |r.docs| == |s.docs| + if added then 1 else 0;
    if Find(s, m.uri).Some? {
      var id := Find(s, m.uri).value;
      assert id in Mutated(s, m).deleted && id !in s.deleted && (id in r.deleted <==> removed);
    }
  }

  /** With both writes accepted the log grows by exactly the mutation's records. */
  lemma {:induction false} AcceptedUpsertLogs(s: State, m: Mutation, removal: Io, addition: Io)
    requires m.Upsert? && RemovalAccepted(s, m, removal)
    requires Accepts(addition, Frame(AddRecord(m.uri, m.text, m.meta, m.title)))
    ensures UpsertBytes(s, m, removal, addition) == Frames(RecordsOf(s, m))
  {
    hide Frame, Frames, Find;
    FramesOfFew(RecordsOf(s, m));
  }

  /** A mutation logs at most two records. */
  lemma {:induction false} FramesOfFew(recs: seq<Record>)
    ensures |recs| == 0 ==> Frames(recs) == []
    ensures |recs| == 1 ==> Frames(recs) == Frame(recs[0])
    ensures |recs| == 2 ==> Frames(recs) == Frame(recs[0]) + Frame(recs[1])
  {
    hide Frame;
    if |recs| == 1 { assert recs[1..] == []; }
    if |recs| == 2 {
      assert recs[1..][1..] == [] && recs[1..][0] == recs[1];
      assert Frames(recs[1..]) == Frame(recs[1]);
    }
  }

  /** One document was appended, the one with these fields. */
  ghost predicate Appended(was: seq<Document>, docs: seq<Document>, uri: Text, text: Text, meta: seq<Pair>, title: Text) {
    var n := |was|;
    && |docs| == n + 1 && docs[..n] == was
    && docs[n].uri == uri && docs[n].title == title && docs[n].text == text && docs[n].meta == meta
  }

  // ----- The object -----

  class Corpus {
    var docs: seq<Document>
    var deleted: set<nat>
    var wal: Log
    var replaying: bool

    ghost function Contents(): State
      reads this
    {
      State(docs, deleted)
    }

    /** The corpus and its log stand where the machine does. */
    ghost predicate Tracks(k: Machine)
      reads this, wal
    {
      Logging() && Contents() == k.live && wal.file == Frames(k.logged)
    }

    /** A corpus whose log is not open yet. */
    constructor (docs: seq<Document>, deleted: set<nat>)
      ensures this.docs == docs && this.deleted == deleted && !replaying && !wal.isOpen && fresh(wal)
    {
      this.docs, this.deleted, replaying := docs, deleted, false;
      wal := new Log.Closed();
    }

    /** Whether changes are being logged. */
    predicate Logging()
      reads this, wal
    {
      wal.isOpen && !replaying
    }

    method FindByUri(uri: Text) returns (r: Option<nat>)
      ensures r == Find(Contents(), uri)
    {
      if uri == [] { return None; }
      for i := 0 to |docs|
        invariant FindFrom(Contents(), uri, i) == Find(Contents(), uri)
      {
        if i in deleted { continue; }
        if docs[i].uri == uri { return Some(i); }
      }
      r := None;
    }

    /** Log, then append: a document whose record was not logged is not added. */
    method AddDocument(uri: Text, text: Text, meta: seq<Pair>, title: Text, io: Io) returns (r: Result<nat, Failure>)
      modifies this`docs, wal`file, wal`size
      ensures r.Ok? <==> !old(Logging()) || Accepts(io, Frame(AddRecord(uri, text, meta, title)))
      ensures r.Ok? ==> r.value == |old(docs)|
      ensures Contents() == if r.Ok? then WithDocument(old(Contents()), AddRecord(uri, text, meta, title)) else old(Contents())
      ensures r.Ok? ==> Appended(old(docs), docs, uri, text, meta, title)
      ensures wal.file == old(wal.file) + if old(Logging()) then Landed(Frame(AddRecord(uri, text, meta, title)), io) else []
      ensures forall k :: old(Tracks(k)) && r.Ok? ==> Tracks(Next(k, Mutate(Add(uri, text, meta, title))))
    {
      hide Frame, Frames;
      ghost var logged := AddRecord(uri, text, meta, title);
      if wal.isOpen && !replaying {
        var w := wal.Append(AddRecord(uri, text, meta, title), io);
        if w.Err? { return Err(LogFailed(w.error)); }
      }
      var id := |docs|;
      docs := docs + [Document(uri, title, text, meta)];
      r := Ok(id);
      FramesOfFew([logged]);
      forall k | old(Tracks(k)) ensures Tracks(Next(k, Mutate(Add(uri, text, meta, title)))) {
        FramesAppend(k.logged, [logged]);
      }
    }

    /** Check, log, then tombstone: a no-op removal writes nothing. */
    method RemoveDocument(id: nat, io: Io) returns (r: Result<(), Failure>)
      modifies this`deleted, wal`file, wal`size
      ensures id >= |docs| || id in old(deleted) ==> r == Err(NotFound) && wal.file == old(wal.file)
      ensures id < |docs| && id !in old(deleted) ==>
        && r != Err(NotFound) && (r.Ok? <==> !old(Logging()) || Accepts(io, Frame(RemoveRecord(id))))
        && wal.file == old(wal.file) + if old(Logging()) then Landed(Frame(RemoveRecord(id)), io) else []
      ensures Contents() == if r.Ok? then Without(old(Contents()), id) else old(Contents())
      ensures forall k :: old(Tracks(k)) && (r.Ok? || r == Err(NotFound)) ==> Tracks(Next(k, Mutate(Remove(id))))
    {
      hide Frame, Frames;
      if id >= |docs| || id in deleted {
        forall k: Machine ensures k.logged + [] == k.logged {}
        return Err(NotFound);
      }
      if wal.isOpen && !replaying {
        var w := wal.Append(RemoveRecord(id), io);
        if w.Err? { return Err(LogFailed(w.error)); }
      }
      deleted := deleted + {id};
      r := Ok(());
      FramesOfFew([RemoveRecord(id)]);
      forall k | old(Tracks(k)) ensures Tracks(Next(k, Mutate(Remove(id)))) {
        FramesAppend(k.logged, [RemoveRecord(id)]);
      }
    }

    /** Replace the live document with the uri, if any; the outcome of its removal is not looked at. */
    method UpsertDocument(uri: Text, text: Text, meta: seq<Pair>, title: Text, removal: Io, addition: Io)
      returns (r: Result<nat, Failure>)
      modifies this`docs, this`deleted, wal`file, wal`size
      ensures r.Ok? <==> !old(Logging()) || Accepts(addition, Frame(AddRecord(uri, text, meta, title)))
      ensures r.Ok? ==> r.value == |old(docs)| && Appended(old(docs), docs, uri, text, meta, title)
      ensures var s, m := old(Contents()), Upsert(uri, text, meta, title);
        && Contents() == Upserted(s, m, !old(Logging()) || RemovalAccepted(s, m, removal), r.Ok?)
        && wal.file == old(wal.file) + (if old(Logging()) then UpsertBytes(s, m, removal, addition) else [])
        && (r.Ok? && RemovalAccepted(s, m, removal) ==> forall k :: old(Tracks(k)) ==> Tracks(Next(k, Mutate(m))))
    {
      hide Frame, Frames, Appended;
      ghost var m, s, file, logging := Upsert(uri, text, meta, title), Contents(), wal.file, Logging();
      FindFromFirst(s, uri, 0);
      var existing := FindByUri(uri);
      if existing.Some? {
        var _ := RemoveDocument(existing.value, removal);
      }
      r := AddDocument(uri, text, meta, title, addition);
      assert logging ==> wal.file == file + UpsertBytes(s, m, removal, addition);
      if logging && r.Ok? && RemovalAccepted(s, m, removal) {
        AcceptedUpsertLogs(s, m, removal, addition);
        UpsertIsAllOrNothing(s, m, true, true);
        forall k | old(Tracks(k)) ensures Tracks(Next(k, Mutate(m))) { FramesAppend(k.logged, RecordsOf(s, m)); }
      }
    }

    /**
     * Write a snapshot, then empty the log. `saved`, `truncated` and `synced` say which of the steps the system carries
     * out; without a saved snapshot the log is kept.
     */
    method Checkpoint(saved: bool, truncated: bool, synced: bool) returns (r: Result<(), Failure>, snapshot: Option<State>)
      modifies wal`file, wal`size
      ensures snapshot == if saved then Some(Contents()) else None
      ensures r.Ok? <==> saved && (wal.isOpen ==> truncated && synced)
      ensures wal.file == if saved && truncated && wal.isOpen then [] else old(wal.file)
      ensures forall k :: old(Tracks(k)) && r.Ok? ==>
        Tracks(Next(k, Event.Checkpoint)) && snapshot == Some(Next(k, Event.Checkpoint).snapshot)
    {
      if !saved { return Err(SaveFailed), None; }
      snapshot := Some(State(docs, deleted));
      if !wal.isOpen { return Ok(()), snapshot; }
      var t := wal.Truncate(truncated, synced);
      r := if t.Ok? then Ok(()) else Err(LogFailed(t.error));
    }

    /**
     * Replay the log on disk through the ordinary mutations, rebuild the indexes if there was anything to replay, then
     * open the log for appending. A damaged log leaves the corpus as it was; a torn tail stays in the file.
     */
    method OpenWal(blob: seq<byte>, built: bool, opens: bool) returns (r: Result<(), Failure>)
      requires !replaying
      modifies this, wal`file, wal`size
      ensures r.Ok? <==> Replayed(blob).Ok? && (Replayed(blob).value != [] ==> built) && opens
      ensures Contents() == if Replayed(blob).Ok? then ReplayEffects(old(Contents()), Replayed(blob).value) else old(Contents())
      ensures r.Ok? ==> wal.isOpen && wal.file == blob && fresh(wal)
      ensures r == Err(OpenFailed) ==> !wal.isOpen && fresh(wal)
      ensures r.Err? && r != Err(OpenFailed) ==> wal == old(wal)
      ensures !replaying && old(wal).file == old(wal.file)
    {
      hide Replayed, ReplayEffect, Frame, Frames;
      var recs := Wal.Replay(blob);
      if recs.Err? { return Err(LogFailed(recs.error)); }
      if recs.value != [] {
        replaying := true;
        ReplayAll(recs.value);
        replaying := false;
        if !built { return Err(BuildFailed); }
      }
      if !opens {
        wal := new Log.Closed();
        return Err(OpenFailed);
      }
      wal := new Log(blob);
      r := Ok(());
    }

    method ReplayAll(recs: seq<Record>)
      requires replaying
      modifies this`docs, this`deleted, wal`file, wal`size
      ensures Contents() == ReplayEffects(old(Contents()), recs)
      ensures wal.file == old(wal.file)
    {
      hide Frame, Frames;
      assert recs[0..] == recs;
      for i := 0 to |recs|
        invariant wal.file == old(wal.file)
        invariant ReplayEffects(Contents(), recs[i..]) == ReplayEffects(old(Contents()), recs)
      {
        ghost var before := Contents();
        assert recs[i..][0] == recs[i] && recs[i..][1..] == recs[i + 1..];
        ReplayOne(recs[i]);
        assert Contents() == ReplayEffect(before, recs[i]);
      }
    }

    /** An add is replayed as an upsert; a removal that no longer applies is ignored. Nothing is logged meanwhile. */
    method ReplayOne(rec: Record)
      requires replaying
      modifies this`docs, this`deleted, wal`file, wal`size
      ensures Contents() == ReplayEffect(old(Contents()), rec)
      ensures rec.op == Op.AddDocument ==> Appended(old(docs), docs, rec.uri, rec.text, rec.meta, rec.title)
      ensures wal.file == old(wal.file)
    {
      hide Frame, Frames;
      if rec.op == Op.AddDocument {
        FindFromFirst(Contents(), rec.uri, 0);
        var existing := FindByUri(rec.uri);
        if existing.Some? {
          var _ := RemoveDocument(existing.value, Io(0, true));
        }
        var _ := AddDocument(rec.uri, rec.text, rec.meta, rec.title, Io(0, true));
      } else {
        var _ := RemoveDocument(rec.docId, Io(0, true));
      }
    }
  }

  /**
   * Restart after a crash: a corpus loaded from the snapshot that opens the first n bytes of the log is what the run had
   * built after exactly the completely logged records, and with the whole log the live corpus.
   */
  method Restart(snapshot: State, blob: seq<byte>, ghost start: State, ghost events: seq<Event>, ghost n: nat)
    returns (c: Corpus, r: Result<(), Failure>)
    requires UniqueUris(start) && RunAddsNew(Machine(start, start, []), events)
    requires var k := Run(Machine(start, start, []), events);
      AllLoggable(k.logged) && n <= |Frames(k.logged)| && snapshot == k.snapshot && blob == Frames(k.logged)[..n]
    ensures var k := Run(Machine(start, start, []), events);
      && r.Ok? && c.Logging() && c.wal.file == blob
      && c.Contents() == Effects(k.snapshot, k.logged[..Complete(k.logged, n)])
      && (n == |Frames(k.logged)| ==> c.Tracks(k))
  {
    hide Replayed, Frames, Effects, ReplayEffects, Run, UniqueUris, RunAddsNew, AllLoggable, Complete;
    ghost var k := Run(Machine(start, start, []), events);
    CrashRecovery(start, events, n);
    c := new Corpus(snapshot.docs, snapshot.deleted);
    assert c.Contents() == k.snapshot;
    r := c.OpenWal(blob, true, true);
    if n == |Frames(k.logged)| { assert blob == Frames(k.logged); }
  }
}
