/** The bounded cache: a map and a recency list, evicting the least recently touched key. */
module Lru {
  import opened Wrappers

  /** Keys are strings of which only equality matters. */
  type Key = nat

  /** The recency list holds the keys, most recent first. */
  datatype State<V> = State(order: seq<Key>, table: map<Key, V>)

  ghost predicate Unique(s: seq<Key>) { forall i, j :: 0 <= i < j < |s| ==> s[i] != s[j] }

  /** List and map hold the same keys, once each. */
  ghost predicate StateOk<V>(s: State<V>) {
    && Unique(s.order) && |s.table| == |s.order|
    && (forall k :: k in s.order <==> k in s.table)
  }

  function Without(s: seq<Key>, key: Key): (r: seq<Key>)
    decreases s
  {
    if s == [] then []
    else if s[0] == key then Without(s[1..], key)
    else [s[0]] + Without(s[1..], key)
  }

  function Touch(s: seq<Key>, key: Key): seq<Key> { [key] + Without(s, key) }

  // ----- The operations on values -----

  function GotFrom<V>(s: State<V>, key: Key): State<V> {
    if key in s.table then State(Touch(s.order, key), s.table) else s
  }

  function PutInto<V>(s: State<V>, cap: nat, key: Key, value: V): State<V> {
    if key in s.table then State(Touch(s.order, key), s.table[key := value])
    else
      var order, table := [key] + s.order, s.table[key := value];
      if |table| > cap then State(order[..|order| - 1], table - {order[|order| - 1]}) else State(order, table)
  }

  lemma {:induction false} WithoutKeys(s: seq<Key>, key: Key)
    requires Unique(s)
    ensures var r := Without(s, key);
      Unique(r) && (forall k :: k in r <==> k in s && k != key) && |r| == if key in s then |s| - 1 else |s|
    decreases s
  {
    if s != [] {
      WithoutKeys(s[1..], key);
      assert s == [s[0]] + s[1..];
      assert s[0] !in s[1..];
    }
  }

  lemma {:induction false} TouchKeys(s: seq<Key>, key: Key)
    requires Unique(s) && key in s
    ensures var r := Touch(s, key);
      Unique(r) && (forall k :: k in r <==> k in s) && |r| == |s|
  {
    WithoutKeys(s, key);
  }

  lemma {:induction false} GotKeeps<V>(s: State<V>, key: Key)
    requires StateOk(s)
    ensures StateOk(GotFrom(s, key))
  {
    if key in s.table { TouchKeys(s.order, key); }
  }

  lemma {:induction false} DropLast(s: seq<Key>)
    requires Unique(s) && s != []
    ensures var less := s[..|s| - 1];
      Unique(less) && s[|s| - 1] !in less && (forall k :: k in less <==> k in s && k != s[|s| - 1])
  {
    assert s == s[..|s| - 1] + [s[|s| - 1]];
  }

  lemma {:induction false} RemovedOne<V>(m: map<Key, V>, k: Key)
    requires k in m
    ensures |m - {k}| == |m| - 1
  {
    assert (m - {k}).Keys == m.Keys - {k};
  }

  /** A new key goes in front. */
  lemma {:induction false} PushOk<V>(s: State<V>, key: Key, value: V)
    requires StateOk(s) && key !in s.table
    ensures StateOk(State([key] + s.order, s.table[key := value]))
    ensures s.table[key := value].Keys == s.table.Keys + {key} && |s.table[key := value]| == |s.table| + 1
  {
    var table := s.table[key := value];
    assert table.Keys == s.table.Keys + {key};
    assert |table.Keys| == |s.table.Keys| + 1;
  }

  /** The last key of the list goes out. */
  lemma {:induction false} PopOk<V>(s: State<V>)
    requires StateOk(s) && s.order != []
    ensures var last := s.order[|s.order| - 1];
      && last in s.table && StateOk(State(s.order[..|s.order| - 1], s.table - {last}))
      && (s.table - {last}).Keys == s.table.Keys - {last}
  {
    hide Unique;
    var last := s.order[|s.order| - 1];
    assert last in s.order;
    DropLast(s.order);
    RemovedOne(s.table, last);
    assert (s.table - {last}).Keys == s.table.Keys - {last};
  }

  lemma {:induction false} TouchOk<V>(s: State<V>, key: Key, value: V)
    requires StateOk(s) && key in s.table
    ensures StateOk(State(Touch(s.order, key), s.table[key := value])) && |Touch(s.order, key)| == |s.order|
    ensures s.table[key := value].Keys == s.table.Keys
  {
    hide Touch;
    TouchKeys(s.order, key);
    assert s.table[key := value].Keys == s.table.Keys;
  }

  lemma {:induction false} PutKnown<V>(s: State<V>, cap: nat, key: Key, value: V)
    requires key in s.table
    ensures PutInto(s, cap, key, value) == State(Touch(s.order, key), s.table[key := value])
  {}

  lemma {:induction false} RoomTakesNew<V>(s: State<V>, cap: nat, key: Key, value: V)
    requires StateOk(s) && |s.order| < cap && key !in s.table
    ensures PutInto(s, cap, key, value) == State([key] + s.order, s.table[key := value])
    ensures StateOk(PutInto(s, cap, key, value)) && s.table[key := value].Keys == s.table.Keys + {key}
  {
    PushOk(s, key, value);
  }

  lemma {:induction false} LastListed<V>(s: State<V>)
    requires StateOk(s) && s.order != []
    ensures s.order[|s.order| - 1] in s.table
  {
    assert s.order[|s.order| - 1] in s.order;
  }

  lemma {:induction false} TableSize<V>(s: State<V>)
    requires StateOk(s)
    ensures |s.table| == |s.order|
  {}

  lemma {:induction false} FullTakesNew<V>(s: State<V>, cap: nat, key: Key, value: V)
    requires StateOk(s) && |s.order| == cap > 0 && key !in s.table
    ensures var last := s.order[cap - 1];
      && last in s.table && last != key
      && PutInto(s, cap, key, value) == State([key] + s.order[..cap - 1], s.table[key := value] - {last})
      && (s.table[key := value] - {last}).Keys == (s.table.Keys - {last}) + {key}
    ensures StateOk(PutInto(s, cap, key, value))
  {
    hide StateOk, PutInto;
    LastListed(s);
    PushOk(s, key, value);
    TableSize(s);
    var pushed := State([key] + s.order, s.table[key := value]);
    PopOk(pushed);
    Shifted(s.order, key);
    PutWhenFull(s, cap, key, value);
  }

  lemma {:induction false} Shifted(order: seq<Key>, key: Key)
    requires order != []
    ensures var n, more := |order|, [key] + order;
      more[..n] == [key] + order[..n - 1] && more[n] == order[n - 1]
  {}

  lemma {:induction false} PutWhenFull<V>(s: State<V>, cap: nat, key: Key, value: V)
    requires key !in s.table && |s.order| == cap > 0 && |s.table[key := value]| == cap + 1
    ensures PutInto(s, cap, key, value) == State([key] + s.order[..cap - 1], s.table[key := value] - {s.order[cap - 1]})
  {
    Shifted(s.order, key);
  }

  /** A full cache makes room by dropping the least recently touched key, and nothing else. */
  lemma {:induction false} PutKeeps<V>(s: State<V>, cap: nat, key: Key, value: V)
    requires StateOk(s) && |s.order| <= cap && cap > 0
    ensures var r := PutInto(s, cap, key, value);
      && StateOk(r) && |r.order| <= cap && key in r.table && r.table[key] == value && r.order[..1] == [key]
      && (forall k :: k in r.table && k != key ==> k in s.table && r.table[k] == s.table[k])
      && (forall k :: k in s.table && k !in r.table ==> key !in s.table && |s.order| == cap && k == s.order[cap - 1])
  {
    hide StateOk;
    if key in s.table {
      TouchOk(s, key, value);
    } else if |s.order| < cap {
      RoomTakesNew(s, cap, key, value);
    } else {
      FullTakesNew(s, cap, key, value);
    }
  }

  // ----- The object -----

  class LruCache<V> {
    var cap: nat
    var order: seq<Key>
    var table: map<Key, V>
    var hits: nat
    var misses: nat

    ghost predicate Valid()
      reads this
    {
      cap > 0 && |order| <= cap && StateOk(Contents())
    }

    ghost function Contents(): State<V>
      reads this
    {
      State(order, table)
    }

    constructor (capacity: nat)
      ensures Valid() && Contents() == State([], map[]) && cap == if capacity > 0 then capacity else 1
    {
      cap := if capacity > 0 then capacity else 1;
      order, table, hits, misses := [], map[], 0, 0;
    }

    /** Move a key to the front of the recency list. */
    method Splice(key: Key)
      modifies `order
      ensures order == Touch(old(order), key)
    {
      var kept: seq<Key> := [];
      assert order[0..] == order;
      for i := 0 to |order|
        modifies {}
        invariant kept + Without(order[i..], key) == Without(order, key)
      {
        assert order[i..][0] == order[i] && order[i..][1..] == order[i + 1..];
        if order[i] != key { kept := kept + [order[i]]; }
      }
      assert order[|order|..] == [] && kept + [] == kept;
      order := [key] + kept;
    }

    method Get(key: Key) returns (value: Option<V>)
      requires Valid()
      modifies this
      ensures Valid() && cap == old(cap) && Contents() == GotFrom(old(Contents()), key)
      ensures value == if key in old(table) then Some(old(table)[key]) else None
      ensures hits + misses == old(hits + misses) + 1
      ensures hits == old(hits) + if value.Some? then 1 else 0
    {
      GotKeeps(Contents(), key);
      if key !in table {
        misses := misses + 1;
        return None;
      }
      Splice(key);
      hits := hits + 1;
      value := Some(table[key]);
    }

    method Put(key: Key, value: V)
      requires Valid()
      modifies `order, `table
      ensures Valid() && Contents() == PutInto(old(Contents()), cap, key, value)
    {
      hide StateOk, PutInto, Touch;
      ghost var s := Contents();
      PutKeeps(s, cap, key, value);
      if key in table {
        PutKnown(s, cap, key, value);
        table := table[key := value];
        Splice(key);
        return;
      }
      TableSize(s);
      PushOk(s, key, value);
      TableSize(State([key] + order, table[key := value]));
      order := [key] + order;
      table := table[key := value];
      if |table| > cap {
        FullTakesNew(s, cap, key, value);
        Shifted(s.order, key);
        var last := |order| - 1;
        table := table - {order[last]};
        order := order[..last];
      } else {
        RoomTakesNew(s, cap, key, value);
      }
    }

    method Clear()
      requires Valid()
      modifies `order, `table
      ensures Valid() && Contents() == State([], map[])
    {
      order, table := [], map[];
    }
  }

  // ----- A larger cache holds everything a smaller one does -----

  datatype Call<V> = GetCall(key: Key) | PutCall(key: Key, value: V) | ClearCall

  function After<V>(s: State<V>, cap: nat, c: Call<V>): State<V> {
    match c
    case GetCall(key) => GotFrom(s, key)
    case PutCall(key, value) => PutInto(s, cap, key, value)
    case ClearCall => State([], map[])
  }

  function AfterAll<V>(s: State<V>, cap: nat, calls: seq<Call<V>>): State<V>
    decreases calls
  {
    if calls == [] then s else AfterAll(After(s, cap, calls[0]), cap, calls[1..])
  }

  /** The kept keys of a recency list, in its order. */
  ghost function Filter(s: seq<Key>, keep: set<Key>): seq<Key>
    decreases s
  {
    if s == [] then []
    else if s[0] in keep then [s[0]] + Filter(s[1..], keep)
    else Filter(s[1..], keep)
  }

  lemma {:induction false} FilterAppend(a: seq<Key>, b: seq<Key>, keep: set<Key>)
    ensures Filter(a + b, keep) == Filter(a, keep) + Filter(b, keep)
    decreases a
  {
    if a == [] {
      assert a + b == b;
    } else {
      FilterAppend(a[1..], b, keep);
      assert (a + b)[0] == a[0] && (a + b)[1..] == a[1..] + b;
      Associates(a[0], Filter(a[1..], keep), Filter(b, keep));
    }
  }

  lemma {:induction false} Associates(x: Key, a: seq<Key>, b: seq<Key>)
    ensures [x] + (a + b) == ([x] + a) + b
  {}

  lemma {:induction false} FilterSame(s: seq<Key>, a: set<Key>, b: set<Key>)
    requires forall k :: k in s ==> (k in a <==> k in b)
    ensures Filter(s, a) == Filter(s, b)
    decreases s
  {
    if s != [] {
      assert s[0] in s && forall k :: k in s[1..] ==> k in s;
      FilterSame(s[1..], a, b);
    }
  }

  lemma {:induction false} WithoutFront(x: Key, s: seq<Key>, key: Key, keep: set<Key>)
    ensures Without([x] + s, key) == if x == key then Without(s, key) else [x] + Without(s, key)
    ensures Filter([x] + s, keep) == if x in keep then [x] + Filter(s, keep) else Filter(s, keep)
  {
    assert ([x] + s)[0] == x && ([x] + s)[1..] == s;
  }

  /** Filtering and removing a key commute. */
  lemma {:induction false} FilterWithout(s: seq<Key>, keep: set<Key>, key: Key)
    ensures Filter(Without(s, key), keep) == Without(Filter(s, keep), key)
    ensures Filter(s, keep - {key}) == Without(Filter(s, keep), key)
    decreases s
  {
    if s != [] {
      FilterWithout(s[1..], keep, key);
      WithoutFront(s[0], Without(s[1..], key), key, keep);
      WithoutFront(s[0], Filter(s[1..], keep), key, keep);
    }
  }

  lemma {:induction false} WithoutAppend(a: seq<Key>, b: seq<Key>, key: Key)
    ensures Without(a + b, key) == Without(a, key) + Without(b, key)
    decreases a
  {
    if a == [] {
      assert a + b == b;
    } else {
      WithoutAppend(a[1..], b, key);
      assert (a + b)[0] == a[0] && (a + b)[1..] == a[1..] + b;
      Associates(a[0], Without(a[1..], key), Without(b, key));
    }
  }

  lemma {:induction false} WithoutAbsent(s: seq<Key>, key: Key)
    requires key !in s
    ensures Without(s, key) == s
    decreases s
  {
    if s != [] {
      WithoutAbsent(s[1..], key);
      assert s == [s[0]] + s[1..];
    }
  }

  lemma {:induction false} WithoutLast(s: seq<Key>)
    requires Unique(s) && s != []
    ensures Without(s, s[|s| - 1]) == s[..|s| - 1]
  {
    var less, last := s[..|s| - 1], s[|s| - 1];
    DropLast(s);
    assert s == less + [last];
    WithoutAppend(less, [last], last);
    WithoutAbsent(less, last);
  }

  ghost predicate Agree<V>(small: map<Key, V>, big: map<Key, V>) {
    forall k :: k in small ==> k in big && big[k] == small[k]
  }

  /** The smaller cache holds the same values for its keys, in the same order, and as many keys as fit. */
  ghost predicate Included<V>(small: State<V>, a: nat, big: State<V>, b: nat) {
    && 0 < a <= b && StateOk(small) && StateOk(big) && |big.order| <= b
    && Agree(small.table, big.table)
    && small.order == Filter(big.order, small.table.Keys)
    && |small.order| == if |big.order| < a then |big.order| else a
  }

  /** Pushing a new key and evicting the last kept one, seen from the larger list. */
  lemma {:induction false} EvictionFilters(list: seq<Key>, keep: set<Key>, key: Key)
    requires key !in list && key !in keep && Unique(Filter(list, keep)) && Filter(list, keep) != []
    ensures var kept := Filter(list, keep);
      var last := kept[|kept| - 1];
      Filter([key] + list, (keep - {last}) + {key}) == [key] + kept[..|kept| - 1]
  {
    var kept := Filter(list, keep);
    var last := kept[|kept| - 1];
    FilterAppend([key], list, (keep - {last}) + {key});
    FilterSame(list, (keep - {last}) + {key}, keep - {last});
    FilterWithout(list, keep, last);
    WithoutLast(kept);
  }

  /** Touching a key of the larger list, seen through the filter. */
  lemma {:induction false} TouchFilters(list: seq<Key>, keep: set<Key>, key: Key)
    ensures Filter(Touch(list, key), keep) == (if key in keep then [key] else []) + Without(Filter(list, keep), key)
  {
    FilterAppend([key], Without(list, key), keep);
    FilterWithout(list, keep, key);
  }

  lemma {:induction false} GetIncludes<V>(small: State<V>, a: nat, big: State<V>, b: nat, key: Key)
    requires Included(small, a, big, b)
    ensures Included(GotFrom(small, key), a, GotFrom(big, key), b)
  {
    hide StateOk, Filter, Without;
    GotKeeps(small, key);
    GotKeeps(big, key);
    if key in big.table {
      TouchFilters(big.order, small.table.Keys, key);
      TouchOk(big, key, big.table[key]);
      if key in small.table {
        TouchOk(small, key, small.table[key]);
      } else {
        NotListed(small, key);
        WithoutAbsent(small.order, key);
      }
    }
  }

  lemma {:induction false} NotListed<V>(s: State<V>, key: Key)
    requires StateOk(s) && key !in s.table
    ensures key !in s.order
  {}

  lemma {:induction false} AgreePut<V>(small: map<Key, V>, big: map<Key, V>, key: Key, value: V)
    requires Agree(small, big)
    ensures Agree(small[key := value], big[key := value])
  {}

  lemma {:induction false} AgreeDrop<V>(small: map<Key, V>, big: map<Key, V>, y: Key, x: Key)
    requires Agree(small, big)
    ensures Agree(small - {y}, big)
    ensures x !in small ==> Agree(small, big - {x})
  {}

  lemma {:induction false} UpdateIncludes<V>(small: State<V>, a: nat, big: State<V>, b: nat, key: Key, value: V)
    requires Included(small, a, big, b) && key in small.table
    ensures Included(PutInto(small, a, key, value), a, PutInto(big, b, key, value), b)
  {
    hide StateOk, Filter, Without;
    TouchFilters(big.order, small.table.Keys, key);
    TouchOk(small, key, value);
    TouchOk(big, key, value);
    AgreePut(small.table, big.table, key, value);
  }

  /** The key is only in the larger cache: the smaller one is full and evicts. */
  lemma {:induction false} MissedIncludes<V>(small: State<V>, a: nat, big: State<V>, b: nat, key: Key, value: V)
    requires Included(small, a, big, b) && key !in small.table && key in big.table
    ensures Included(PutInto(small, a, key, value), a, PutInto(big, b, key, value), b)
  {
    SmallerIsFull(small, a, big, b, key);
    FullTakesNew(small, a, key, value);
    hide PutInto, Filter, Without, Agree;
    TouchOk(big, key, value);
    BigTouches(big, b, key, value);
    var last := small.order[a - 1];
    AgreePut(small.table, big.table, key, value);
    AgreeDrop(small.table[key := value], big.table[key := value], last, last);
    MissedFilters(small, a, big, b, key);
  }

  lemma {:induction false} BigTouches<V>(big: State<V>, b: nat, key: Key, value: V)
    requires key in big.table
    ensures PutInto(big, b, key, value) == State(Touch(big.order, key), big.table[key := value])
  {}

  lemma {:induction false} MissedFilters<V>(small: State<V>, a: nat, big: State<V>, b: nat, key: Key)
    requires Included(small, a, big, b) && key !in small.table && key in big.table && |small.order| == a
    ensures Filter(Touch(big.order, key), (small.table.Keys - {small.order[a - 1]}) + {key}) == [key] + small.order[..a - 1]
  {
    var keep, rest := small.table.Keys, Without(big.order, key);
    FilterWithout(big.order, keep, key);
    NotListed(small, key);
    WithoutAbsent(small.order, key);
    WithoutKeys(big.order, key);
    EvictionFilters(rest, keep, key);
  }

  /** When the larger cache has a key the smaller one lacks, the smaller one is full. */
  lemma {:induction false} SmallerIsFull<V>(small: State<V>, a: nat, big: State<V>, b: nat, key: Key)
    requires Included(small, a, big, b) && key !in small.table && key in big.table
    ensures |small.order| == a
  {
    assert small.table.Keys + {key} <= big.table.Keys;
    SizeOfSubset(small.table.Keys + {key}, big.table.Keys);
    assert |small.table.Keys + {key}| == |small.table.Keys| + 1;
    assert |small.table| == |small.table.Keys| && |big.table| == |big.table.Keys|;
  }

  lemma {:induction false} SizeOfSubset<Key>(a: set<Key>, b: set<Key>)
    requires a <= b
    ensures |a| <= |b|
  {
    assert b == a + (b - a);
  }

  /** The key is in neither cache, and the smaller one has room. */
  lemma {:induction false} RoomIncludes<V>(small: State<V>, a: nat, big: State<V>, b: nat, key: Key, value: V)
    requires Included(small, a, big, b) && key !in big.table && |small.order| < a
    ensures Included(PutInto(small, a, key, value), a, PutInto(big, b, key, value), b)
  {
    hide PutInto, Without, StateOk, Filter, Agree;
    NotKept(small, a, big, b, key);
    RoomTakesNew(small, a, key, value);
    RoomTakesNew(big, b, key, value);
    AgreePut(small.table, big.table, key, value);
    NewFilters(small, a, big, b, key);
  }

  lemma {:induction false} NewFilters<V>(small: State<V>, a: nat, big: State<V>, b: nat, key: Key)
    requires Included(small, a, big, b) && key !in big.table
    ensures Filter([key] + big.order, small.table.Keys + {key}) == [key] + small.order
  {
    NotListed(big, key);
    FilterAppend([key], big.order, small.table.Keys + {key});
    FilterSame(big.order, small.table.Keys + {key}, small.table.Keys);
  }

  /** The key is in neither cache, and the smaller one is full. */
  lemma {:induction false} FullIncludes<V>(small: State<V>, a: nat, big: State<V>, b: nat, key: Key, value: V)
    requires Included(small, a, big, b) && key !in big.table && |small.order| == a
    ensures Included(PutInto(small, a, key, value), a, PutInto(big, b, key, value), b)
  {
    FullTakesNew(small, a, key, value);
    hide PutInto, Without, Filter, Agree;
    var y := small.order[a - 1];
    AgreePut(small.table, big.table, key, value);
    AgreeDrop(small.table[key := value], big.table[key := value], y, y);
    if |big.order| < b {
      RoomTakesNew(big, b, key, value);
      NotListed(big, key);
      NotKept(small, a, big, b, key);
      EvictionFilters(big.order, small.table.Keys, key);
    } else {
      FullTakesNew(big, b, key, value);
      BothEvict(small, a, big, b, key);
      var x := big.order[b - 1];
      AgreeDrop(small.table[key := value] - {y}, big.table[key := value], x, x);
    }
  }

  lemma {:induction false} NotKept<V>(small: State<V>, a: nat, big: State<V>, b: nat, key: Key)
    requires Included(small, a, big, b) && key !in big.table
    ensures key !in small.table && Unique(small.order) && Unique(big.order)
  {}

  /** Both caches are full: the larger one's last key is either not kept, or also the smaller one's last. */
  lemma {:induction false} BothEvict<V>(small: State<V>, a: nat, big: State<V>, b: nat, key: Key)
    requires Included(small, a, big, b) && key !in big.table && |small.order| == a && |big.order| == b
    ensures var keep, x, y := small.table.Keys, big.order[b - 1], small.order[a - 1];
      && Filter([key] + big.order[..b - 1], (keep - {y}) + {key}) == [key] + small.order[..a - 1]
      && (x in keep ==> x == y)
  {
    hide Filter, StateOk, Agree, Unique;
    NotListed(big, key);
    NotKept(small, a, big, b, key);
    SplitLast(big.order);
    ListEvict(big.order[..b - 1], big.order[b - 1], small.table.Keys, small.order, key);
  }

  lemma {:induction false} SplitLast(s: seq<Key>)
    requires Unique(s) && s != []
    ensures var less, x := s[..|s| - 1], s[|s| - 1];
      s == less + [x] && x in s && x !in less && forall k :: k in less ==> k in s
  {}

  lemma {:induction false} ListEvict(less: seq<Key>, x: Key, keep: set<Key>, kept: seq<Key>, key: Key)
    requires x !in less && key !in less && key != x && key !in keep && Unique(kept)
    requires kept == Filter(less + [x], keep) && kept != []
    ensures var y := kept[|kept| - 1];
      && Filter([key] + less, (keep - {y}) + {key}) == [key] + kept[..|kept| - 1]
      && (x in keep ==> x == y)
  {
    hide Without;
    var y := kept[|kept| - 1];
    FilterAppend(less, [x], keep);
    FilterOne(x, keep);
    if x in keep {
      assert kept == Filter(less, keep) + [x];
      FilterOne(key, (keep - {y}) + {key});
      FilterAppend([key], less, (keep - {y}) + {key});
      FilterSame(less, (keep - {y}) + {key}, keep);
    } else {
      assert kept == Filter(less, keep);
      EvictionFilters(less, keep, key);
    }
  }

  lemma {:induction false} FilterOne(x: Key, keep: set<Key>)
    ensures Filter([x], keep) == if x in keep then [x] else []
  {}

  /** Every call keeps the smaller cache inside the larger one. */
  lemma {:induction false} CallIncludes<V>(small: State<V>, a: nat, big: State<V>, b: nat, c: Call<V>)
    requires Included(small, a, big, b)
    ensures Included(After(small, a, c), a, After(big, b, c), b)
  {
    hide Included, GotFrom, PutInto;
    match c
    case GetCall(key) => GetIncludes(small, a, big, b, key);
    case PutCall(key, value) =>
      if key in small.table {
        UpdateIncludes(small, a, big, b, key, value);
      } else if key in big.table {
        MissedIncludes(small, a, big, b, key, value);
      } else if |small.order| < a {
        RoomIncludes(small, a, big, b, key, value);
      } else {
        SmallFits(small, a, big, b);
        FullIncludes(small, a, big, b, key, value);
      }
    case ClearCall => EmptyIncluded<V>(small, a, big, b);
  }

  lemma {:induction false} SmallFits<V>(small: State<V>, a: nat, big: State<V>, b: nat)
    requires Included(small, a, big, b)
    ensures |small.order| <= a
  {}

  lemma {:induction false} EmptyIncluded<V>(small: State<V>, a: nat, big: State<V>, b: nat)
    requires Included(small, a, big, b)
    ensures Included<V>(State([], map[]), a, State([], map[]), b)
  {}

  /** After any sequence of calls a larger cache holds every key and value of a smaller one. */
  lemma {:induction false} LargerHoldsMore<V>(a: nat, b: nat, calls: seq<Call<V>>)
    requires 0 < a <= b
    ensures var none := State([], map[]);
      var small, big := AfterAll(none, a, calls), AfterAll(none, b, calls);
      && Agree(small.table, big.table) && |small.table| <= a && |big.table| <= b
      && small.order == Filter(big.order, small.table.Keys)
  {
    var none: State<V> := State([], map[]);
    CallsInclude(none, a, none, b, calls);
  }

  lemma {:induction false} CallsInclude<V>(small: State<V>, a: nat, big: State<V>, b: nat, calls: seq<Call<V>>)
    requires Included(small, a, big, b)
    ensures Included(AfterAll(small, a, calls), a, AfterAll(big, b, calls), b)
    decreases calls
  {
    hide Included, After;
    if calls != [] {
      CallIncludes(small, a, big, b, calls[0]);
      CallsInclude(After(small, a, calls[0]), a, After(big, b, calls[0]), b, calls[1..]);
    }
  }
}
