/** From the lists a wave chose to the groups of links back: collect, sort, split by key. */
module WaveGroups {
  import opened WaveLinks

  /** One link back: the key of the list it lands on, and the node it names. */
  datatype Back = Back(key: nat, node: nat)

  predicate Before(a: Back, b: Back) { a.key < b.key || (a.key == b.key && a.node <= b.node) }

  ghost predicate SortedBacks(s: seq<Back>) {
    forall i, j :: 0 <= i < j < |s| ==> Before(s[i], s[j])
  }

  function InsertBack(s: seq<Back>, x: Back): (r: seq<Back>)
    requires SortedBacks(s)
    ensures SortedBacks(r) && |r| == |s| + 1
    ensures r[|s|] == x || (s != [] && r[|s|] == s[|s| - 1])
    ensures forall b :: b in r <==> b in s || b == x
  {
    if s == [] || Before(s[|s| - 1], x) then s + [x]
    else
      var last := s[|s| - 1];
      assert forall b :: b in s <==> b in s[..|s| - 1] || b == last;
      InsertBack(s[..|s| - 1], x) + [last]
  }

  ghost function SortBacks(s: seq<Back>): (r: seq<Back>)
    ensures SortedBacks(r) && forall b :: b in r <==> b in s
  {
    if s == [] then []
    else
      assert s == s[..|s| - 1] + [s[|s| - 1]];
      InsertBack(SortBacks(s[..|s| - 1]), s[|s| - 1])
  }

  method Sort(s: seq<Back>) returns (r: seq<Back>)
    ensures r == SortBacks(s)
  {
    r := [];
    for i := 0 to |s|
      invariant r == SortBacks(s[..i])
    {
      assert s[..i + 1][..i] == s[..i];
      r := InsertBack(r, s[i]);
    }
    assert s[..|s|] == s;
  }

  // ----- Splitting by key -----

  /** Append a link to the last group when the key repeats, else open a new group. */
  function AddBack(gs: seq<Group>, x: Back): (r: seq<Group>)
    ensures r != [] && r[|r| - 1].key == x.key && r[|r| - 1].sources != []
  {
    if gs != [] && gs[|gs| - 1].key == x.key
    then gs[|gs| - 1 := Group(x.key, gs[|gs| - 1].sources + [x.node])]
    else gs + [Group(x.key, [x.node])]
  }

  ghost function Grouped(s: seq<Back>): seq<Group> {
    if s == [] then [] else AddBack(Grouped(s[..|s| - 1]), s[|s| - 1])
  }

  method SplitByKey(s: seq<Back>) returns (gs: seq<Group>)
    ensures gs == Grouped(s)
  {
    gs := [];
    for i := 0 to |s|
      invariant gs == Grouped(s[..i])
    {
      assert s[..i + 1][..i] == s[..i];
      gs := AddBack(gs, s[i]);
    }
    assert s[..|s|] == s;
  }

  /** Groups in ascending key order, holding exactly the given links. */
  ghost predicate GroupsHold(gs: seq<Group>, s: seq<Back>) {
    && (forall g, h :: 0 <= g < h < |gs| ==> gs[g].key < gs[h].key)
    && (forall g, i :: 0 <= g < |gs| && 0 <= i < |gs[g].sources| ==> Back(gs[g].key, gs[g].sources[i]) in s)
    && (forall g :: 0 <= g < |gs| ==> gs[g].sources != [])
    && (forall x :: x in s ==> InGroup(gs, x))
    && (gs != [] ==> s != [] && gs[|gs| - 1].key == s[|s| - 1].key)
  }

  ghost predicate InGroup(gs: seq<Group>, x: Back) {
    exists g :: 0 <= g < |gs| && gs[g].key == x.key && x.node in gs[g].sources
  }

  lemma {:induction false} GroupedHold(s: seq<Back>)
    requires SortedBacks(s)
    ensures GroupsHold(Grouped(s), s)
  {
    if s != [] {
      hide GroupsHold, AddBack;
      GroupedHold(s[..|s| - 1]);
      assert s == s[..|s| - 1] + [s[|s| - 1]];
      AddHolds(Grouped(s[..|s| - 1]), s[..|s| - 1], s[|s| - 1]);
    }
  }

  lemma {:induction false} AddHolds(gs: seq<Group>, s: seq<Back>, x: Back)
    requires GroupsHold(gs, s) && (s == [] || Before(s[|s| - 1], x))
    ensures GroupsHold(AddBack(gs, x), s + [x])
  {
    var r, more := AddBack(gs, x), s + [x];
    AddKeepsSources(gs, s, x);
    hide InGroup;
    forall y | y in more ensures InGroup(r, y) {
      AddKeepsGroup(gs, x, y);
    }
  }

  lemma {:induction false} AddKeepsGroup(gs: seq<Group>, x: Back, y: Back)
    ensures InGroup(AddBack(gs, x), x)
    ensures InGroup(gs, y) ==> InGroup(AddBack(gs, x), y)
  {
    var r := AddBack(gs, x);
    assert x.node in r[|r| - 1].sources;
    if InGroup(gs, y) {
      var g :| 0 <= g < |gs| && gs[g].key == y.key && y.node in gs[g].sources;
      assert r[g].key == y.key && y.node in r[g].sources;
    }
  }

  lemma {:induction false} AddKeepsSources(gs: seq<Group>, s: seq<Back>, x: Back)
    requires forall g, i :: 0 <= g < |gs| && 0 <= i < |gs[g].sources| ==> Back(gs[g].key, gs[g].sources[i]) in s
    ensures var r := AddBack(gs, x);
      forall g, i :: 0 <= g < |r| && 0 <= i < |r[g].sources| ==> Back(r[g].key, r[g].sources[i]) in s + [x]
  {
    var r := AddBack(gs, x);
    forall g, i | 0 <= g < |r| && 0 <= i < |r[g].sources| ensures Back(r[g].key, r[g].sources[i]) in s + [x] {
      if g < |gs| && i < |gs[g].sources| {
        assert Back(gs[g].key, gs[g].sources[i]) in s;
      }
    }
  }

  // ----- The links back of a wave -----

  ghost function BacksOfList(node: nat, L: nat, list: seq<nat>): seq<Back> {
    seq(|list|, i requires 0 <= i < |list| => Back(KeyOf(list[i], L), node))
  }

  /** Layers k - 1 down to 0. */
  ghost function BacksOfNode(node: nat, lists: seq<seq<nat>>, k: nat): seq<Back>
    requires k <= |lists|
  {
    if k == 0 then [] else BacksOfList(node, k - 1, lists[k - 1]) + BacksOfNode(node, lists, k - 1)
  }

  ghost function BacksOfWave(next: nat, picks: seq<seq<seq<nat>>>): seq<Back> {
    if picks == [] then []
    else
      var last := |picks| - 1;
      BacksOfWave(next, picks[..last]) + BacksOfNode(next + last, picks[last], |picks[last]|)
  }

  method CollectBacks(next: nat, picks: seq<seq<seq<nat>>>) returns (back: seq<Back>)
    ensures back == BacksOfWave(next, picks)
  {
    back := [];
    for w := 0 to |picks|
      invariant back == BacksOfWave(next, picks[..w])
    {
      assert picks[..w + 1][..w] == picks[..w];
      ghost var before := back;
      var lc: nat := |picks[w]|;
      while lc > 0
        invariant lc <= |picks[w]|
        invariant back + BacksOfNode(next + w, picks[w], lc) == before + BacksOfNode(next + w, picks[w], |picks[w]|)
      {
        lc := lc - 1;
        ghost var start := back;
        for i := 0 to |picks[w][lc]|
          invariant back == start + BacksOfList(next + w, lc, picks[w][lc])[..i]
        {
          back := back + [Back(KeyOf(picks[w][lc][i], lc), next + w)];
        }
        assert back == start + BacksOfList(next + w, lc, picks[w][lc]);
      }
    }
    assert picks[..|picks|] == picks;
  }

  /** Link x comes from a node of the wave that chose the neighbour in the layer its key packs. */
  ghost predicate Chosen(next: nat, picks: seq<seq<seq<nat>>>, x: Back) {
    && next <= x.node < next + |picks|
    && LayerOf(x.key) < |picks[x.node - next]|
    && NeighbourOf(x.key) in picks[x.node - next][LayerOf(x.key)]
  }

  ghost predicate ChosenFrom(node: nat, lists: seq<seq<nat>>, k: nat, x: Back)
    requires k <= |lists|
  {
    x.node == node && LayerOf(x.key) < k && NeighbourOf(x.key) in lists[LayerOf(x.key)]
  }

  lemma {:induction false} BacksOfNodeChosen(node: nat, lists: seq<seq<nat>>, k: nat, x: Back)
    requires k <= |lists| && k <= LAYERS
    ensures x in BacksOfNode(node, lists, k) <==> ChosenFrom(node, lists, k, x)
  {
    if k > 0 {
      BacksOfNodeChosen(node, lists, k - 1, x);
      var list, here := lists[k - 1], BacksOfList(node, k - 1, lists[k - 1]);
      if x in here {
        var i :| 0 <= i < |here| && here[i] == x;
        KeyUnpacks(list[i], k - 1);
      }
      if ChosenFrom(node, lists, k, x) && LayerOf(x.key) == k - 1 {
        var i :| 0 <= i < |list| && list[i] == NeighbourOf(x.key);
        KeyPacks(x.key);
        assert here[i] == x;
      }
    }
  }

  /** The links back of a wave are exactly the links its nodes chose. */
  lemma {:induction false} BacksAreChosen(next: nat, picks: seq<seq<seq<nat>>>, x: Back)
    requires forall w :: 0 <= w < |picks| ==> |picks[w]| <= LAYERS
    ensures x in BacksOfWave(next, picks) <==> Chosen(next, picks, x)
  {
    hide LayerOf, NeighbourOf, BacksOfNode;
    if picks != [] {
      var last := |picks| - 1;
      BacksAreChosen(next, picks[..last], x);
      BacksOfNodeChosen(next + last, picks[last], |picks[last]|, x);
    }
  }

  ghost function GroupsOf(next: nat, picks: seq<seq<seq<nat>>>): seq<Group> { Grouped(SortBacks(BacksOfWave(next, picks))) }

  /** Each group holds, for one list, exactly the nodes of the wave that chose it. */
  lemma {:induction false} GroupsMatchPicks(next: nat, picks: seq<seq<seq<nat>>>)
    requires forall w :: 0 <= w < |picks| ==> |picks[w]| <= LAYERS
    ensures var gs := GroupsOf(next, picks);
      && (forall g, h :: 0 <= g < h < |gs| ==> gs[g].key != gs[h].key)
      && (forall g :: 0 <= g < |gs| ==> gs[g].sources != [])
      && (forall g, i :: 0 <= g < |gs| && 0 <= i < |gs[g].sources| ==> Chosen(next, picks, Back(gs[g].key, gs[g].sources[i])))
      && (forall x :: Chosen(next, picks, x) ==> InGroup(gs, x))
  {
    hide Chosen, Grouped, SortBacks, BacksOfWave, InGroup;
    var s := SortBacks(BacksOfWave(next, picks));
    GroupedHold(s);
    forall x ensures x in s <==> Chosen(next, picks, x) {
      BacksAreChosen(next, picks, x);
    }
  }
}
