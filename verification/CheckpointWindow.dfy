/** A crash between saving the snapshot and truncating the log: the log is replayed over the state it led to. */
module CheckpointWindow {
  import opened Wrappers
  import opened Bytes
  import opened Wal
  import opened Recovery

  function DocumentOf(r: Record): (d: Document)
    ensures d.uri == r.uri && d.title == r.title && d.text == r.text && d.meta == r.meta
  {
    Document(r.uri, r.title, r.text, r.meta)
  }

  /** The documents the records add, in order. */
  function Added(recs: seq<Record>): seq<Document> {
    if recs == [] then []
    else
      var last := recs[|recs| - 1];
      Added(recs[..|recs| - 1]) + if last.op == AddDocument then [DocumentOf(last)] else []
  }

  /** The document of the last addition of the uri. */
  function LastAdded(recs: seq<Record>, uri: Text): Option<Document> {
    if recs == [] then None
    else
      var last := recs[|recs| - 1];
      if last.op == AddDocument && last.uri == uri then Some(DocumentOf(last))
      else LastAdded(recs[..|recs| - 1], uri)
  }

  /** The live document found under a uri. */
  function Shown(s: State, uri: Text): Option<Document> {
    match Find(s, uri)
    case None => None
    case Some(id) => if id < |s.docs| then Some(s.docs[id]) else None
  }

  /** Tombstones are of documents that exist. */
  ghost predicate TombstonesOk(s: State) { forall id :: id in s.deleted ==> id < |s.docs| }

  // ----- One record -----

  lemma {:induction false} ShownIs(s: State, uri: Text, i: nat)
    requires uri != [] && UniqueUri(s, uri) && LiveAs(s, i, uri)
    ensures Shown(s, uri) == Some(s.docs[i])
  {
    FindFromFirst(s, uri, 0);
  }

  lemma {:induction false} ShownNone(s: State, uri: Text)
    requires forall i: nat :: !LiveAs(s, i, uri)
    ensures Shown(s, uri) == None
  {
    FindFromFirst(s, uri, 0);
  }

  /** Replaying an addition shows its document under its uri and changes nothing under the others. */
  lemma {:induction false} ReplayedAddShows(s: State, r: Record, uri: Text)
    requires UniqueUris(s) && TombstonesOk(s) && r.op == AddDocument && uri != []
    ensures var t := ReplayEffect(s, r);
      && TombstonesOk(t) && UniqueUri(t, uri) && t.docs == s.docs + [DocumentOf(r)]
      && Shown(t, uri) == if r.uri == uri then Some(DocumentOf(r)) else Shown(s, uri)
  {
    var t := ReplayEffect(s, r);
    FindFromFirst(s, r.uri, 0);
    FindFromFirst(s, uri, 0);
    assert UniqueUri(s, uri);
    forall i: nat ensures LiveAs(t, i, uri) <==> if r.uri == uri then i == |s.docs| else LiveAs(s, i, uri) {
      if i < |s.docs| {
        assert t.docs[i] == s.docs[i];
        assert LiveAs(t, i, uri) ==> LiveAs(s, i, uri);
      }
    }
    if r.uri == uri {
      ShownIs(t, uri, |s.docs|);
    } else if i: nat :| LiveAs(s, i, uri) {
      ShownIs(s, uri, i);
      ShownIs(t, uri, i);
    } else {
      ShownNone(s, uri);
      ShownNone(t, uri);
    }
  }

  /** Removing a document shows nothing new. */
  lemma {:induction false} RemovalShows(s: State, id: nat, uri: Text)
    requires UniqueUris(s) && TombstonesOk(s) && uri != []
    ensures TombstonesOk(Without(s, id)) && UniqueUri(Without(s, id), uri)
    ensures Shown(Without(s, id), uri) == Shown(s, uri) || Shown(Without(s, id), uri) == None
  {
    var t := Without(s, id);
    assert UniqueUri(s, uri);
    assert forall i: nat :: LiveAs(t, i, uri) ==> LiveAs(s, i, uri);
    if i: nat :| LiveAs(t, i, uri) {
      ShownIs(t, uri, i);
      ShownIs(s, uri, i);
    } else {
      ShownNone(t, uri);
    }
  }

  // ----- What was logged -----

  /** Every removal among the records was of a document live at that point. */
  ghost predicate RemovalsApply(s: State, recs: seq<Record>) {
    forall i :: 0 <= i < |recs| && recs[i].op == RemoveDocument ==> Live(Effects(s, recs[..i]), recs[i].docId)
  }

  lemma {:induction false} EffectGrows(s: State, r: Record)
    ensures s.deleted <= Effect(s, r).deleted && |s.docs| <= |Effect(s, r).docs|
  {}

  /** A logged removal leaves a tombstone that is never lifted. */
  lemma {:induction false} RemovedStays(s: State, recs: seq<Record>, i: nat, n: nat)
    requires RemovalsApply(s, recs) && i < n <= |recs| && recs[i].op == RemoveDocument
    ensures recs[i].docId in Effects(s, recs[..n]).deleted
  {
    hide Effects, Effect;
    NextEffect(s, recs, n - 1);
    if i == n - 1 {
      assert Live(Effects(s, recs[..i]), recs[i].docId);
      TombstoneSet(Effects(s, recs[..i]), recs[i]);
    } else {
      RemovedStays(s, recs, i, n - 1);
      EffectGrows(Effects(s, recs[..n - 1]), recs[n - 1]);
    }
  }

  lemma {:induction false} TombstoneSet(s: State, r: Record)
    requires r.op == RemoveDocument && Live(s, r.docId)
    ensures r.docId in Effect(s, r).deleted
  {}

  /** Under a uri the records have added, they show the document added last or, once it is removed, nothing. */
  lemma {:induction false} LoggedShows(s: State, recs: seq<Record>, n: nat, uri: Text)
    requires UniqueUris(s) && TombstonesOk(s) && AddsAreNew(s, recs) && n <= |recs| && uri != []
    ensures UniqueUris(Effects(s, recs[..n])) && TombstonesOk(Effects(s, recs[..n]))
    ensures var last, shown := LastAdded(recs[..n], uri), Shown(Effects(s, recs[..n]), uri);
      last.Some? ==> shown == last || shown == None
  {
    hide Effects, Shown, Find, UniqueUri, Effect, ReplayEffect, TombstonesOk;
    if n == 0 {
      NoEffects(s);
      assert recs[..0] == [];
    } else {
      var t, r := Effects(s, recs[..n - 1]), recs[n - 1];
      LoggedShows(s, recs, n - 1, uri);
      NextEffect(s, recs, n - 1);
      assert recs[..n][..n - 1] == recs[..n - 1];
      if r.op == AddDocument {
        AddReplaysExactlyWhenNew(t, r);
        forall u: Text | u != [] ensures UniqueUri(Effect(t, r), u) { ReplayedAddShows(t, r, u); }
        ReplayedAddShows(t, r, uri);
      } else {
        RemoveEffect(t, r);
        forall u: Text | u != [] ensures UniqueUri(Effect(t, r), u) { RemovalShows(t, r.docId, u); }
        RemovalShows(t, r.docId, uri);
      }
    }
  }

  lemma {:induction false} RemoveEffect(s: State, r: Record)
    requires r.op == RemoveDocument
    ensures Effect(s, r) == ReplayEffect(s, r) == Without(s, r.docId)
    ensures r.docId in s.deleted ==> Without(s, r.docId) == s
  {}

  // ----- The log over its own outcome -----

  /** Every removal among the records is of a document already removed. */
  ghost predicate RemovalsDone(s: State, recs: seq<Record>) {
    forall i :: 0 <= i < |recs| && recs[i].op == RemoveDocument ==> recs[i].docId in s.deleted
  }

  /** Replay appends every added document once more, and shows the ones added last. */
  lemma {:induction false} ReplayShows(s: State, recs: seq<Record>, n: nat, uri: Text)
    requires UniqueUris(s) && TombstonesOk(s) && RemovalsDone(s, recs) && n <= |recs| && uri != []
    ensures var t := ReplayEffects(s, recs[..n]);
      && UniqueUris(t) && TombstonesOk(t) && s.deleted <= t.deleted
      && t.docs == s.docs + Added(recs[..n])
      && (Added(recs[..n]) == [] ==> t == s)
      && Shown(t, uri) == if LastAdded(recs[..n], uri).Some? then LastAdded(recs[..n], uri) else Shown(s, uri)
  {
    hide ReplayEffects, Shown, Find, UniqueUri, Effect, ReplayEffect, TombstonesOk;
    if n == 0 {
      NoEffects(s);
      assert recs[..0] == [];
      assert s.docs + [] == s.docs;
    } else {
      var t, r := ReplayEffects(s, recs[..n - 1]), recs[n - 1];
      ReplayShows(s, recs, n - 1, uri);
      NextEffect(s, recs, n - 1);
      assert recs[..n][..n - 1] == recs[..n - 1];
      if r.op == AddDocument {
        forall u: Text | u != [] ensures UniqueUri(ReplayEffect(t, r), u) { ReplayedAddShows(t, r, u); }
        ReplayedAddShows(t, r, uri);
        ReplayGrows(t, r);
        assert t.docs + [DocumentOf(r)] == s.docs + (Added(recs[..n - 1]) + [DocumentOf(r)]);
      } else {
        RemoveEffect(t, r);
        assert Added(recs[..n]) == Added(recs[..n - 1]);
      }
    }
  }

  lemma {:induction false} ReplayGrows(s: State, r: Record)
    ensures s.deleted <= ReplayEffect(s, r).deleted
  {}

  /**
   * The log replayed over the state it led to: every added document is appended once more, so the state is the same if
   * and only if none was added, and a uri shows the same if and only if it was not added or is still live: a document
   * added and removed since the last checkpoint comes back.
   */
  lemma {:induction false} ReplayOverOutcome(s: State, recs: seq<Record>)
    requires UniqueUris(s) && TombstonesOk(s) && AddsAreNew(s, recs) && RemovalsApply(s, recs)
    ensures var live, again := Effects(s, recs), ReplayEffects(Effects(s, recs), recs);
      && UniqueUris(again) && again.docs == live.docs + Added(recs)
      && (again == live <==> Added(recs) == [])
      && forall uri: Text :: uri != [] ==>
           (Shown(again, uri) == Shown(live, uri) <==> (LastAdded(recs, uri).Some? ==> Find(live, uri).Some?))
  {
    hide Effects, ReplayEffects, Effect, ReplayEffect, Added, LastAdded, UniqueUris, TombstonesOk;
    assert recs[..|recs|] == recs;
    var live, again := Effects(s, recs), ReplayEffects(Effects(s, recs), recs);
    forall i | 0 <= i < |recs| && recs[i].op == RemoveDocument ensures recs[i].docId in live.deleted {
      RemovedStays(s, recs, i, |recs|);
    }
    LoggedShows(s, recs, |recs|, [0]);
    ReplayShows(live, recs, |recs|, [0]);
    forall uri: Text | uri != []
      ensures Shown(again, uri) == Shown(live, uri) <==> (LastAdded(recs, uri).Some? ==> Find(live, uri).Some?)
    {
      LoggedShows(s, recs, |recs|, uri);
      ReplayShows(live, recs, |recs|, uri);
      FindFromFirst(live, uri, 0);
    }
  }

  // ----- Runs -----

  lemma {:induction false} MutationApplies(s: State, recs: seq<Record>, m: Mutation)
    requires RemovalsApply(s, recs)
    ensures RemovalsApply(s, recs + RecordsOf(Effects(s, recs), m))
  {
    hide Effects;
    var live := Effects(s, recs);
    var more := RecordsOf(live, m);
    var all := recs + more;
    if m.Upsert? { FindFromFirst(live, m.uri, 0); }
    forall i | 0 <= i < |all| && all[i].op == RemoveDocument ensures Live(Effects(s, all[..i]), all[i].docId) {
      if i < |recs| {
        assert all[..i] == recs[..i] && all[i] == recs[i];
      } else {
        assert all[i] == more[i - |recs|] && i == |recs|;
        assert all[..i] == recs;
      }
    }
  }

  lemma {:induction false} RunApplies(k: Machine, events: seq<Event>)
    requires Recoverable(k) && RunAddsNew(k, events) && RemovalsApply(k.snapshot, k.logged)
    ensures var r := Run(k, events); RemovalsApply(r.snapshot, r.logged)
    decreases events
  {
    if events != [] {
      hide Effects, RecordsOf, AddsNew;
      if events[0].Mutate? {
        MutationStaysRecoverable(k, events[0].m);
        MutationApplies(k.snapshot, k.logged, events[0].m);
      } else {
        FreshIsRecoverable(k);
      }
      RunApplies(Next(k, events[0]), events[1..]);
    }
  }

  /**
   * A crash after a checkpoint has saved its snapshot and before it has truncated the log: recovery replays the log over
   * a snapshot that already holds it. It rebuilds the live corpus if and only if nothing was added since the checkpoint
   * before, and a uri shows the same document if and only if it was not added since then or is live.
   */
  lemma {:induction false} CheckpointCrash(start: State, events: seq<Event>)
    requires UniqueUris(start) && TombstonesOk(start) && RunAddsNew(Machine(start, start, []), events)
    ensures var k := Run(Machine(start, start, []), events);
      var again := ReplayEffects(k.live, k.logged);
      && (AllLoggable(k.logged) ==> Replayed(Frames(k.logged)) == Ok(k.logged))
      && UniqueUris(again) && again.docs == k.live.docs + Added(k.logged)
      && (again == k.live <==> Added(k.logged) == [])
      && forall uri: Text :: uri != [] ==>
           (Shown(again, uri) == Shown(k.live, uri) <==> (LastAdded(k.logged, uri).Some? ==> Find(k.live, uri).Some?))
  {
    hide Effects, ReplayEffects, Run, UniqueUris, RunAddsNew, Added, LastAdded, Shown, Find, Replayed, Frames, RemovalsApply,
      TombstonesOk;
    var first := Machine(start, start, []);
    var k := Run(first, events);
    StartIsRecoverable(start);
    NothingApplied(start);
    RunStaysRecoverable(first, events);
    RunApplies(first, events);
    SnapshotIsOk(first, events);
    LogReplaysExactlyWhenAddsAreNew(k.snapshot, k.logged);
    ReplayOverOutcome(k.snapshot, k.logged);
    if AllLoggable(k.logged) { ReplayInvertsFrames(k.logged); }
  }

  lemma {:induction false} NothingApplied(s: State)
    ensures RemovalsApply(s, [])
  {}

  lemma {:induction false} SnapshotIsOk(k: Machine, events: seq<Event>)
    requires UniqueUris(k.snapshot) && TombstonesOk(k.snapshot) && TombstonesOk(k.live)
    requires Recoverable(k) && RunAddsNew(k, events)
    ensures UniqueUris(Run(k, events).snapshot) && TombstonesOk(Run(k, events).snapshot)
    decreases events
  {
    if events != [] {
      hide UniqueUris, AddsNew, Effects, PrefixesReplay, TombstonesOk, Mutated;
      if events[0].Mutate? {
        MutationStaysRecoverable(k, events[0].m);
        MutationMarksDocuments(k.live, events[0].m);
      } else {
        FreshIsRecoverable(k);
      }
      SnapshotIsOk(Next(k, events[0]), events[1..]);
    }
  }

  lemma {:induction false} MutationMarksDocuments(s: State, m: Mutation)
    requires TombstonesOk(s)
    ensures TombstonesOk(Mutated(s, m))
  {}

  /** A document added and removed again before a checkpoint is back after a crash in the middle of it. */
  lemma {:induction false} RemovedComesBack(r: Record)
    requires r.op == AddDocument && r.uri != []
    ensures var start := State([], {});
      var k := Run(Machine(start, start, []), [Mutate(Add(r.uri, r.text, r.meta, r.title)), Mutate(Remove(0))]);
      && RunAddsNew(Machine(start, start, []), [Mutate(Add(r.uri, r.text, r.meta, r.title)), Mutate(Remove(0))])
      && Shown(k.live, r.uri) == None && Shown(ReplayEffects(k.live, k.logged), r.uri) == Some(DocumentOf(r))
  {
    var start, add := State([], {}), Add(r.uri, r.text, r.meta, r.title);
    var events := [Mutate(add), Mutate(Remove(0))];
    var one, logged := State([DocumentOf(r)], {}), [AddRecord(r.uri, r.text, r.meta, r.title), RemoveRecord(0)];
    assert start.docs + [DocumentOf(r)] == one.docs;
    var k1 := Next(Machine(start, start, []), Mutate(add));
    assert k1.live == one && k1.logged == [logged[0]];
    var k := Next(k1, Mutate(Remove(0)));
    assert k.live == State([DocumentOf(r)], {0}) && k.logged == logged;
    assert events[1..] == [Mutate(Remove(0))] && events[1..][1..] == [];
    assert Run(k1, events[1..]) == Run(k, []);
    ShownNone(k.live, r.uri);
    assert logged[..1] == [logged[0]] && logged[..2] == logged;
    assert LastAdded(logged[..1], r.uri) == Some(DocumentOf(r));
    ReplayShows(k.live, logged, 2, r.uri);
  }
}
