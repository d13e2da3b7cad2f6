/** The corpus and its log: log before mutate, replay as upsert, checkpoints, and recovery after a crash. */
module Recovery {
  import opened Wrappers
  import opened Bytes
  import opened Wal

  datatype Document = Document(uri: Text, title: Text, text: Text, meta: seq<Pair>)

  /** Documents by id, and the ids of the removed ones. */
  datatype State = State(docs: seq<Document>, deleted: set<nat>)

  datatype Mutation =
    | Add(uri: Text, text: Text, meta: seq<Pair>, title: Text)
    | Upsert(uri: Text, text: Text, meta: seq<Pair>, title: Text)
    | Remove(id: nat)

  ghost predicate Live(s: State, i: nat) { i < |s.docs| && i !in s.deleted }

  ghost predicate LiveAs(s: State, i: nat, uri: Text) { Live(s, i) && s.docs[i].uri == uri }

  /** The first live document with a non-empty uri, from id i on. */
  function FindFrom(s: State, uri: Text, i: nat): Option<nat>
    decreases |s.docs| - i
  {
    if uri == [] || i >= |s.docs| then None
    else if i !in s.deleted && s.docs[i].uri == uri then Some(i)
    else FindFrom(s, uri, i + 1)
  }

  function Find(s: State, uri: Text): Option<nat> { FindFrom(s, uri, 0) }

  lemma {:induction false} FindFromFirst(s: State, uri: Text, i: nat)
    ensures match FindFrom(s, uri, i)
      case None => uri == [] || forall j: nat :: i <= j ==> !LiveAs(s, j, uri)
      case Some(j) => uri != [] && i <= j && LiveAs(s, j, uri) && forall k: nat :: i <= k < j ==> !LiveAs(s, k, uri)
    decreases |s.docs| - i
  {
    if uri != [] && i < |s.docs| { FindFromFirst(s, uri, i + 1); }
  }

  // ----- What each record does -----

  function AddRecord(uri: Text, text: Text, meta: seq<Pair>, title: Text): Record {
    Record(AddDocument, uri, title, text, meta, 0)
  }

  function RemoveRecord(id: nat): Record { Record(RemoveDocument, [], [], [], [], id) }

  function WithDocument(s: State, r: Record): State { s.(docs := s.docs + [Document(r.uri, r.title, r.text, r.meta)]) }

  /** Removing an unknown or already removed id does nothing. */
  function Without(s: State, id: nat): State {
    if id >= |s.docs| || id in s.deleted then s else s.(deleted := s.deleted + {id})
  }

  /** A record's effect when it was logged. */
  function Effect(s: State, r: Record): State {
    match r.op
    case AddDocument => WithDocument(s, r)
    case RemoveDocument => Without(s, r.docId)
  }

  /** A record's effect when it is replayed: an add also removes the live document with its uri. */
  function ReplayEffect(s: State, r: Record): State {
    match r.op
    case AddDocument =>
      (match Find(s, r.uri)
       case None => WithDocument(s, r)
       case Some(id) => WithDocument(Without(s, id), r))
    case RemoveDocument => Without(s, r.docId)
  }

  function Effects(s: State, recs: seq<Record>): State
    decreases recs
  {
    if recs == [] then s else Effects(Effect(s, recs[0]), recs[1..])
  }

  function ReplayEffects(s: State, recs: seq<Record>): State
    decreases recs
  {
    if recs == [] then s else ReplayEffects(ReplayEffect(s, recs[0]), recs[1..])
  }

  /** The records a mutation logs, in order. */
  function RecordsOf(s: State, m: Mutation): seq<Record> {
    match m
    case Add(uri, text, meta, title) => [AddRecord(uri, text, meta, title)]
    case Upsert(uri, text, meta, title) =>
      (match Find(s, uri)
       case None => [AddRecord(uri, text, meta, title)]
       case Some(id) => [RemoveRecord(id), AddRecord(uri, text, meta, title)])
    case Remove(id) => if id >= |s.docs| || id in s.deleted then [] else [RemoveRecord(id)]
  }

  /** The live corpus after a mutation. */
  function Mutated(s: State, m: Mutation): State {
    match m
    case Add(uri, text, meta, title) => WithDocument(s, AddRecord(uri, text, meta, title))
    case Upsert(uri, text, meta, title) =>
      (match Find(s, uri)
       case None => WithDocument(s, AddRecord(uri, text, meta, title))
       case Some(id) => WithDocument(Without(s, id), AddRecord(uri, text, meta, title)))
    case Remove(id) => Without(s, id)
  }

  /** What an addition or upsert logs brings back a document with exactly its fields, after those that were there. */
  lemma {:induction false} LoggedDocument(s: State, m: Mutation)
    requires !m.Remove?
    ensures var t, n := ReplayEffects(s, RecordsOf(s, m)), |s.docs|;
      && |t.docs| == n + 1 && t.docs[..n] == s.docs
      && t.docs[n].uri == m.uri && t.docs[n].title == m.title && t.docs[n].text == m.text && t.docs[n].meta == m.meta
  {
    hide Find, ReplayEffects;
    var logged := AddRecord(m.uri, m.text, m.meta, m.title);
    match Find(s, m.uri) {
      case None => OneEffect(s, logged);
      case Some(id) =>
        OneEffect(s, logged);
        TwoEffects(s, RemoveRecord(id), logged);
    }
  }

  // ----- One live document per uri -----

  /** At most one live document has the uri. */
  ghost predicate UniqueUri(s: State, uri: Text) {
    forall i: nat, j: nat :: LiveAs(s, i, uri) && LiveAs(s, j, uri) ==> i == j
  }

  ghost predicate UniqueUris(s: State) { forall uri: Text :: uri != [] ==> UniqueUri(s, uri) }

  /** Not a plain addition of a uri that is already live. */
  ghost predicate AddsNew(s: State, m: Mutation) { m.Add? ==> Find(s, m.uri) == None }

  lemma {:induction false} MutationKeepsUnique(s: State, m: Mutation)
    requires UniqueUris(s) && AddsNew(s, m)
    ensures UniqueUris(Mutated(s, m))
  {
    var t := Mutated(s, m);
    forall uri: Text, i: nat, j: nat | uri != [] && LiveAs(t, i, uri) && LiveAs(t, j, uri) ensures i == j {
      assert UniqueUri(s, uri);
      StillLive(s, m, i, uri);
      StillLive(s, m, j, uri);
    }
  }

  /** A document live after a mutation was live before, or is the new one and then the only live one with its uri. */
  lemma {:induction false} StillLive(s: State, m: Mutation, i: nat, uri: Text)
    requires uri != [] && LiveAs(Mutated(s, m), i, uri) && UniqueUri(s, uri) && AddsNew(s, m)
    ensures i < |s.docs| ==> LiveAs(s, i, uri)
    ensures i < |s.docs| && !m.Remove? ==> m.uri != uri
    ensures i >= |s.docs| ==> !m.Remove? && m.uri == uri && i == |s.docs|
  {
    if !m.Remove? { FindFromFirst(s, m.uri, 0); }
    if i < |s.docs| { assert LiveAs(s, i, uri); }
  }

  lemma {:induction false} OneEffect(s: State, r: Record)
    ensures Effects(s, [r]) == Effect(s, r) && ReplayEffects(s, [r]) == ReplayEffect(s, r)
  {
    hide Effect, ReplayEffect;
    assert [r][1..] == [];
  }

  lemma {:induction false} TwoEffects(s: State, a: Record, b: Record)
    ensures Effects(s, [a, b]) == Effect(Effect(s, a), b)
    ensures ReplayEffects(s, [a, b]) == ReplayEffect(ReplayEffect(s, a), b)
  {
    hide Effect, ReplayEffect;
    assert [a, b][1..] == [b];
    OneEffect(Effect(s, a), b);
    OneEffect(ReplayEffect(s, a), b);
  }

  /** The records a mutation logs have, in order, exactly its effect. */
  lemma {:induction false} RecordsHaveEffect(s: State, m: Mutation)
    ensures Effects(s, RecordsOf(s, m)) == Mutated(s, m)
  {
    hide Effects, Find;
    match m
    case Add(uri, text, meta, title) => OneEffect(s, AddRecord(uri, text, meta, title));
    case Upsert(uri, text, meta, title) =>
      match Find(s, uri) {
        case None => OneEffect(s, AddRecord(uri, text, meta, title));
        case Some(id) => TwoEffects(s, RemoveRecord(id), AddRecord(uri, text, meta, title));
      }
    case Remove(id) =>
      NoEffects(s);
      OneEffect(s, RemoveRecord(id));
  }

  lemma {:induction false} NoEffects(s: State)
    ensures Effects(s, []) == s && ReplayEffects(s, []) == s
  {}

  /** The live document of the uri is the only one: once it is removed the uri is not found. */
  lemma {:induction false} OnlyOne(s: State, uri: Text)
    requires uri != [] && UniqueUri(s, uri) && Find(s, uri).Some?
    ensures Find(Without(s, Find(s, uri).value), uri) == None
  {
    var mid := Without(s, Find(s, uri).value);
    FindFromFirst(s, uri, 0);
    FindFromFirst(mid, uri, 0);
    forall j: nat ensures !LiveAs(mid, j, uri) {
      assert LiveAs(mid, j, uri) ==> LiveAs(s, j, uri);
    }
  }

  /** Replay of an added document is exact if and only if its uri was not live. */
  lemma {:induction false} AddReplaysExactlyWhenNew(s: State, r: Record)
    requires r.op == AddDocument
    ensures ReplayEffect(s, r) == Effect(s, r) <==> Find(s, r.uri) == None
  {
    FindFromFirst(s, r.uri, 0);
    if Find(s, r.uri).Some? {
      var id := Find(s, r.uri).value;
      assert id in ReplayEffect(s, r).deleted && id !in Effect(s, r).deleted;
    }
  }

  /** Replaying a mutation's records gives what the mutation gave, when at most one live document has its uri. */
  lemma {:induction false} UniqueReplaysExactly(s: State, m: Mutation)
    requires AddsNew(s, m) && (m.Upsert? && m.uri != [] ==> UniqueUri(s, m.uri))
    ensures ReplayEffects(s, RecordsOf(s, m)) == Mutated(s, m)
  {
    hide ReplayEffects, Find, UniqueUri;
    match m
    case Add(uri, text, meta, title) => OneEffect(s, AddRecord(uri, text, meta, title));
    case Upsert(uri, text, meta, title) =>
      var r := AddRecord(uri, text, meta, title);
      match Find(s, uri) {
        case None => OneEffect(s, r);
        case Some(id) =>
          NoUri(s);
          OnlyOne(s, uri);
          TwoEffects(s, RemoveRecord(id), r);
      }
    case Remove(id) =>
      NoEffects(s);
      OneEffect(s, RemoveRecord(id));
  }

  lemma {:induction false} NoUri(s: State)
    ensures Find(s, []) == None
  {}

  /** Replay is exact for an upsert if and only if at most one live document has its uri. */
  lemma {:induction false} UpsertReplaysExactlyWhenUnique(s: State, m: Mutation)
    requires m.Upsert? && m.uri != []
    ensures ReplayEffects(s, RecordsOf(s, m)) == Mutated(s, m) <==> UniqueUri(s, m.uri)
  {
    if UniqueUri(s, m.uri) {
      UniqueReplaysExactly(s, m);
    } else {
      var i: nat, j: nat :| LiveAs(s, i, m.uri) && LiveAs(s, j, m.uri) && i != j;
      FindFromFirst(s, m.uri, 0);
      var id := Find(s, m.uri).value;
      var other := if i == id then j else i;
      var mid, r := Without(s, id), AddRecord(m.uri, m.text, m.meta, m.title);
      assert LiveAs(mid, other, m.uri);
      FindFromFirst(mid, m.uri, 0);
      var second := Find(mid, m.uri).value;
      TwoEffects(s, RemoveRecord(id), r);
      assert second in ReplayEffect(mid, r).deleted && second !in Mutated(s, m).deleted;
    }
  }

  /** Every addition among the records was of a uri not live at that point. */
  ghost predicate AddsAreNew(s: State, recs: seq<Record>) {
    forall i :: 0 <= i < |recs| && recs[i].op == AddDocument ==> Find(Effects(s, recs[..i]), recs[i].uri) == None
  }

  /** Any number of the records, from the first on, replays to its original effect. */
  ghost predicate PrefixesReplay(s: State, recs: seq<Record>) {
    forall n :: 0 <= n <= |recs| ==> ReplayEffects(s, recs[..n]) == Effects(s, recs[..n])
  }

  lemma {:induction false} NextEffect(s: State, recs: seq<Record>, n: nat)
    requires n < |recs|
    ensures Effects(s, recs[..n + 1]) == Effect(Effects(s, recs[..n]), recs[n])
    ensures ReplayEffects(s, recs[..n + 1]) == ReplayEffect(ReplayEffects(s, recs[..n]), recs[n])
  {
    hide Effects, ReplayEffects, Effect, ReplayEffect;
    assert recs[..n + 1] == recs[..n] + [recs[n]];
    EffectsAppend(s, recs[..n], [recs[n]]);
    OneEffect(Effects(s, recs[..n]), recs[n]);
    OneEffect(ReplayEffects(s, recs[..n]), recs[n]);
  }

  /** A log replays exactly, wherever it is cut, if and only if each of its additions was of a uri not live then. */
  lemma {:induction false} LogReplaysExactlyWhenAddsAreNew(s: State, recs: seq<Record>)
    ensures PrefixesReplay(s, recs) <==> AddsAreNew(s, recs)
  {
    hide Effects, ReplayEffects, Effect, ReplayEffect, Find;
    if PrefixesReplay(s, recs) {
      forall i | 0 <= i < |recs| && recs[i].op == AddDocument ensures Find(Effects(s, recs[..i]), recs[i].uri) == None {
        NextEffect(s, recs, i);
        AddReplaysExactlyWhenNew(Effects(s, recs[..i]), recs[i]);
      }
    }
    if AddsAreNew(s, recs) {
      forall n | 0 <= n <= |recs| ensures ReplayEffects(s, recs[..n]) == Effects(s, recs[..n]) { NewReplays(s, recs, n); }
    }
  }

  lemma {:induction false} NewReplays(s: State, recs: seq<Record>, n: nat)
    requires AddsAreNew(s, recs) && n <= |recs|
    ensures ReplayEffects(s, recs[..n]) == Effects(s, recs[..n])
  {
    hide Effects, ReplayEffects, Find;
    if n == 0 {
      NoEffects(s);
    } else {
      NewReplays(s, recs, n - 1);
      NextEffect(s, recs, n - 1);
      if recs[n - 1].op == AddDocument { AddReplaysExactlyWhenNew(Effects(s, recs[..n - 1]), recs[n - 1]); }
    }
  }

  // ----- Runs -----

  lemma {:induction false} EffectsAppend(s: State, a: seq<Record>, b: seq<Record>)
    ensures Effects(s, a + b) == Effects(Effects(s, a), b)
    ensures ReplayEffects(s, a + b) == ReplayEffects(ReplayEffects(s, a), b)
    decreases a
  {
    hide Effect, ReplayEffect;
    if a == [] {
      assert a + b == b;
    } else {
      assert (a + b)[0] == a[0] && (a + b)[1..] == a[1..] + b;
      EffectsAppend(Effect(s, a[0]), a[1..], b);
      EffectsAppend(ReplayEffect(s, a[0]), a[1..], b);
    }
  }

  datatype Event = Mutate(m: Mutation) | Checkpoint

  /** The live corpus, the snapshot on disk, and the records logged since. */
  datatype Machine = Machine(live: State, snapshot: State, logged: seq<Record>)

  function Next(k: Machine, e: Event): Machine {
    match e
    case Mutate(m) => Machine(Mutated(k.live, m), k.snapshot, k.logged + RecordsOf(k.live, m))
    case Checkpoint => Machine(k.live, k.live, [])
  }

  function Run(k: Machine, events: seq<Event>): Machine
    decreases events
  {
    if events == [] then k else Run(Next(k, events[0]), events[1..])
  }

  /** Replaying any number of the logged records over the snapshot has their original effect. */
  ghost predicate Recoverable(k: Machine) {
    && UniqueUris(k.live)
    && Effects(k.snapshot, k.logged) == k.live
    && PrefixesReplay(k.snapshot, k.logged)
  }

  /** Every prefix of one mutation's records replays exactly. */
  lemma {:induction false} PrefixReplaysExactly(s: State, m: Mutation, n: nat)
    requires UniqueUris(s) && AddsNew(s, m) && n <= |RecordsOf(s, m)|
    ensures ReplayEffects(s, RecordsOf(s, m)[..n]) == Effects(s, RecordsOf(s, m)[..n])
  {
    hide Effects, ReplayEffects, Find;
    var recs := RecordsOf(s, m);
    if n == |recs| {
      assert recs[..n] == recs;
      RecordsHaveEffect(s, m);
      UniqueReplaysExactly(s, m);
    } else if n == 0 {
      NoEffects(s);
    } else {
      assert recs[..1] == [recs[0]];
      OneEffect(s, recs[0]);
    }
  }

  lemma {:induction false} MutationStaysRecoverable(k: Machine, m: Mutation)
    requires Recoverable(k) && AddsNew(k.live, m)
    ensures Recoverable(Next(k, Mutate(m)))
  {
    hide Effects, ReplayEffects, RecordsOf, Mutated, UniqueUris, AddsNew;
    var recs, r := RecordsOf(k.live, m), Next(k, Mutate(m));
    MutationKeepsUnique(k.live, m);
    RecordsHaveEffect(k.live, m);
    EffectsAppend(k.snapshot, k.logged, recs);
    assert k.logged[..|k.logged|] == k.logged;
    forall n | 0 <= n <= |r.logged| ensures ReplayEffects(k.snapshot, r.logged[..n]) == Effects(k.snapshot, r.logged[..n]) {
      if n <= |k.logged| {
        assert r.logged[..n] == k.logged[..n];
      } else {
        var more := n - |k.logged|;
        assert r.logged[..n] == k.logged + recs[..more];
        EffectsAppend(k.snapshot, k.logged, recs[..more]);
        PrefixReplaysExactly(k.live, m, more);
      }
    }
  }

  /** No plain addition in the run is of a uri that is live at that point. */
  ghost predicate RunAddsNew(k: Machine, events: seq<Event>)
    decreases events
  {
    events == [] || ((events[0].Mutate? ==> AddsNew(k.live, events[0].m)) && RunAddsNew(Next(k, events[0]), events[1..]))
  }

  /** Every run of additions of new uris, upserts, removes and checkpoints stays recoverable. */
  lemma {:induction false} RunStaysRecoverable(k: Machine, events: seq<Event>)
    requires Recoverable(k) && RunAddsNew(k, events)
    ensures Recoverable(Run(k, events))
    decreases events
  {
    if events != [] {
      hide Recoverable, AddsNew;
      if events[0].Mutate? {
        MutationStaysRecoverable(k, events[0].m);
      } else {
        FreshIsRecoverable(k);
      }
      RunStaysRecoverable(Next(k, events[0]), events[1..]);
    }
  }

  lemma {:induction false} StartIsRecoverable(s: State)
    requires UniqueUris(s)
    ensures Recoverable(Machine(s, s, []))
  {}

  lemma {:induction false} FreshIsRecoverable(k: Machine)
    requires Recoverable(k)
    ensures Recoverable(Machine(k.live, k.live, []))
  {}

  /**
   * Crash recovery: after any run from a snapshot with one live document per uri, and whatever byte of the log the crash
   * cut, replay over the snapshot rebuilds the documents, ids and tombstones as they were after exactly the completely
   * logged records; with the whole log, the live corpus.
   */
  lemma {:induction false} CrashRecovery(start: State, events: seq<Event>, n: nat)
    requires UniqueUris(start) && RunAddsNew(Machine(start, start, []), events)
    requires var k := Run(Machine(start, start, []), events);
      AllLoggable(k.logged) && n <= |Frames(k.logged)|
    ensures var k := Run(Machine(start, start, []), events);
      var whole := Complete(k.logged, n);
      && Replayed(Frames(k.logged)[..n]) == Ok(k.logged[..whole])
      && ReplayEffects(k.snapshot, k.logged[..whole]) == Effects(k.snapshot, k.logged[..whole])
      && (n == |Frames(k.logged)| ==> ReplayEffects(k.snapshot, k.logged[..whole]) == k.live)
  {
    hide Replayed, Frames, Loggable, Effects, ReplayEffects, Run, UniqueUris, RunAddsNew;
    var first := Machine(start, start, []);
    StartIsRecoverable(start);
    RunStaysRecoverable(first, events);
    var k := Run(first, events);
    ReplayOfPrefix(k.logged, n);
    if n == |Frames(k.logged)| {
      CompleteAll(k.logged);
      assert k.logged[..|k.logged|] == k.logged;
    }
  }
}
