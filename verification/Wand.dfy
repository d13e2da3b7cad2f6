/**
 * BlockMax-WAND: document-at-a-time top-k with sorted cursors, an admission
 * threshold, and per-term and per-block upper bounds that skip documents.
 */
module Wand {
  import opened Arithmetic
  import opened Sets
  import opened Sums
  import opened TopK
  import opened ScoreHeap
  import opened Postings

  /** One query term's walk over its postings; `doc` caches the current document. */
  datatype Cursor = Cursor(
    post: seq<Posting>, blocks: seq<BlockMeta>, w: seq<real>,
    idf: real, termMax: real, i: nat, doc: nat)

  ghost predicate Positioned(c: Cursor) {
    c.i <= |c.post| && c.doc == if c.i < |c.post| then c.post[c.i].doc else EXHAUSTED
  }

  ghost predicate CursorOk(c: Cursor) {
    && |c.post| > 0
    && Ascending(c.post)
    && Describes(c.blocks, c.post, c.w)
    && (forall j :: 0 <= j < |c.post| ==> c.post[j].doc < EXHAUSTED)
    && c.idf > 0.0
    && (forall j :: 0 <= j < |c.w| ==> 0.0 < c.idf * c.w[j] <= c.termMax)
    && Positioned(c)
  }

  /** Same term, possibly at another position. */
  ghost predicate SameTerm(c: Cursor, r: Cursor) {
    r == c.(i := r.i, doc := r.doc)
  }

  ghost predicate SameTerms(a: seq<Cursor>, b: seq<Cursor>) {
    |a| == |b| && forall t :: 0 <= t < |a| ==> SameTerm(a[t], b[t])
  }

  ghost predicate AllOk(cur: seq<Cursor>) {
    forall t :: 0 <= t < |cur| ==> CursorOk(cur[t])
  }

  // ----- Scores and the bounds on them -----

  /** What the cursor's term adds to the score of document d. */
  ghost function Contrib(c: Cursor, d: nat): real {
    if HasDoc(c.post, d) && |c.w| == |c.post| then c.idf * c.w[IndexOf(c.post, d)] else 0.0
  }

  ghost function ContribAt(d: nat): Cursor -> real { (c: Cursor) => Contrib(c, d) }

  /** The exact score of document d. */
  ghost function Total(cur: seq<Cursor>, d: nat): real { SeqSum(cur, ContribAt(d)) }

  ghost function TermMaxOf(): Cursor -> real { (c: Cursor) => c.termMax }

  function BlockMaxOf(c: Cursor): real
    requires c.i / BLOCK_SIZE < |c.blocks|
  {
    c.idf * c.blocks[c.i / BLOCK_SIZE].maxPw
  }

  ghost function BlockMaxAt(d: nat): Cursor -> real {
    (c: Cursor) => if c.doc == d && c.i / BLOCK_SIZE < |c.blocks| then BlockMaxOf(c) else 0.0
  }

  /** The current-block maxima of the cursors standing on document d, added up. */
  ghost function AlignedMaxima(cur: seq<Cursor>, d: nat): real { SeqSum(cur, BlockMaxAt(d)) }

  /** No posting of document d has been passed. */
  ghost predicate UnreadAt(cur: seq<Cursor>, d: nat) {
    forall t, j :: 0 <= t < |cur| && 0 <= j < cur[t].i && j < |cur[t].post| ==> cur[t].post[j].doc != d
  }

  lemma {:induction false} BlockIndexOk(c: Cursor)
    requires CursorOk(c) && c.i < |c.post|
    ensures c.i / BLOCK_SIZE < |c.blocks|
    ensures c.idf * c.w[c.i] <= BlockMaxOf(c)
  {
    BlockMaxBounds(c.blocks, c.post, c.w, c.i);
    assert BLOCK_SIZE == 128;
    TimesMono(c.idf, c.w[c.i], c.blocks[c.i / BLOCK_SIZE].maxPw);
  }

  lemma {:induction false} ContribNonNegative(c: Cursor, d: nat)
    requires CursorOk(c)
    ensures Contrib(c, d) >= 0.0
  {}

  /** A document with no posting passed scores at most the term maxima of the cursors at or before it. */
  lemma {:induction false} UnreadBound(cur: seq<Cursor>, d: nat, p: nat)
    requires AllOk(cur) && UnreadAt(cur, d) && p <= |cur|
    requires d < EXHAUSTED
    requires forall t :: p <= t < |cur| ==> d < cur[t].doc
    ensures Total(cur, d) <= SeqSum(cur[..p], TermMaxOf())
  {
    assert cur == cur[..p] + cur[p..];
    SeqSumAppend(cur[..p], cur[p..], ContribAt(d));
    forall t | 0 <= t < |cur[p..]| ensures ContribAt(d)(cur[p..][t]) == 0.0 {
      assert cur[p..][t] == cur[p + t];
      NothingAhead(cur[p + t], d);
    }
    SeqSumZero(cur[p..], ContribAt(d));
    assert forall t :: 0 <= t < |cur[..p]| ==> ContribAt(d)(cur[..p][t]) <= TermMaxOf()(cur[..p][t]) by {
      forall t | 0 <= t < |cur[..p]| ensures ContribAt(d)(cur[..p][t]) <= TermMaxOf()(cur[..p][t]) {
        assert cur[..p][t] == cur[t];
        ContribAtMostMax(cur[t], d);
      }
    }
    SeqSumCompare(cur[..p], ContribAt(d), cur[..p], TermMaxOf());
  }

  lemma {:induction false} ContribAtMostMax(c: Cursor, d: nat)
    requires CursorOk(c)
    ensures Contrib(c, d) <= c.termMax
  {
    assert 0.0 < c.idf * c.w[0] <= c.termMax;
  }

  /** A cursor past d, having passed no posting of d, has none. */
  lemma {:induction false} NothingAhead(c: Cursor, d: nat)
    requires CursorOk(c) && d < c.doc
    requires forall j :: 0 <= j < c.i && j < |c.post| ==> c.post[j].doc != d
    ensures Contrib(c, d) == 0.0
  {
  }

  /** An aligned cursor contributes its current weight. */
  lemma {:induction false} AlignedContrib(c: Cursor)
    requires CursorOk(c) && c.i < |c.post|
    ensures Contrib(c, c.doc) == c.idf * c.w[c.i]
  {
    var j := IndexOf(c.post, c.doc);
    assert c.post[j].doc == c.post[c.i].doc;
  }

  // ----- Moving cursors -----

  /** The cursor has moved exactly to the first posting at or after the target. */
  ghost predicate Moved(c: Cursor, r: Cursor, target: nat) {
    && CursorOk(r) && SameTerm(c, r) && c.i <= r.i
    && (forall j :: c.i <= j < r.i ==> c.post[j].doc < target)
    && (forall j :: r.i <= j < |c.post| ==> target <= c.post[j].doc)
  }

  /** The first block, from the current one on, whose last doc reaches the target. */
  method NextBlock(c: Cursor, target: nat) returns (bi: nat)
    requires CursorOk(c) && c.i < |c.post|
    ensures c.i / BLOCK_SIZE <= bi <= |c.blocks|
    ensures c.i / BLOCK_SIZE < bi ==> forall j :: 0 <= j < bi * BLOCK_SIZE && j < |c.post| ==> c.post[j].doc < target
    ensures bi == |c.blocks| ==> forall j :: 0 <= j < |c.post| ==> c.post[j].doc < target
  {
    BlockIndexOk(c);
    hide CursorOk;
    bi := c.i / BLOCK_SIZE;
    while bi < |c.blocks| && c.blocks[bi].lastDoc < target
      invariant c.i / BLOCK_SIZE <= bi <= |c.blocks|
      invariant c.i / BLOCK_SIZE < bi ==>
        forall j :: 0 <= j < bi * BLOCK_SIZE && j < |c.post| ==> c.post[j].doc < target
    {
      BlockPassed(c, bi, target);
      bi := bi + 1;
    }
    BlocksCover(c);
  }

  lemma {:induction false} BlockPassed(c: Cursor, bi: nat, target: nat)
    requires CursorOk(c) && bi < |c.blocks| && c.blocks[bi].lastDoc < target
    ensures forall j :: 0 <= j < (bi + 1) * BLOCK_SIZE && j < |c.post| ==> c.post[j].doc < target
  {
    var last := BlockEnd(bi, |c.post|) - 1;
    assert c.blocks[bi].lastDoc == c.post[last].doc;
    assert forall j :: 0 <= j < last ==> c.post[j].doc < c.post[last].doc;
  }

  lemma {:induction false} BlocksCover(c: Cursor)
    requires CursorOk(c)
    ensures |c.post| <= |c.blocks| * BLOCK_SIZE
  {
    hide Ascending;
  }

  lemma {:induction false} StandsAt(c: Cursor, target: nat)
    requires CursorOk(c) && target <= c.doc
    ensures Moved(c, c, target)
  {
    forall j | c.i <= j < |c.post| ensures target <= c.post[j].doc {
      assert c.i < j ==> c.post[c.i].doc < c.post[j].doc;
    }
  }

  function PlacedAt(c: Cursor, i: nat): Cursor
    requires i <= |c.post|
  {
    c.(i := i, doc := if i < |c.post| then c.post[i].doc else EXHAUSTED)
  }

  lemma {:induction false} MovedTo(c: Cursor, i: nat, target: nat)
    requires CursorOk(c) && c.i <= i <= |c.post|
    requires forall j :: c.i <= j < i ==> c.post[j].doc < target
    requires i < |c.post| ==> target <= c.post[i].doc
    ensures Moved(c, PlacedAt(c, i), target)
  {
    hide Describes;
    assert i < |c.post| ==> forall j :: i < j < |c.post| ==> c.post[i].doc < c.post[j].doc;
  }

  /** The first posting of a block after the cursor's own lies ahead of the cursor. */
  lemma {:induction false} BlockAhead(c: Cursor, bi: nat)
    requires CursorOk(c) && c.i / BLOCK_SIZE < bi < |c.blocks|
    ensures c.i < bi * BLOCK_SIZE < |c.post|
  {
    BlockStart(c.i, bi, |c.post|);
  }

  /** Advance to the first posting with doc >= target, hopping whole blocks by their last doc. */
  method SkipTo(c: Cursor, target: nat) returns (r: Cursor)
    requires CursorOk(c) && target <= EXHAUSTED
    ensures Moved(c, r, target)
    ensures c.doc < target ==> c.i < r.i
  {
    if c.doc == EXHAUSTED || target <= c.doc {
      StandsAt(c, target);
      return c;
    }
    var n := |c.post|;
    var bi := NextBlock(c, target);
    if bi >= |c.blocks| {
      MovedTo(c, n, target);
      return c.(i := n, doc := EXHAUSTED);
    }
    var i := c.i;
    if bi != c.i / BLOCK_SIZE {
      BlockAhead(c, bi);
      i := bi * BLOCK_SIZE;
    }
    while i < n && c.post[i].doc < target
      invariant c.i <= i <= n
      invariant forall j :: c.i <= j < i ==> c.post[j].doc < target
    {
      i := i + 1;
    }
    MovedTo(c, i, target);
    r := c.(i := i, doc := if i < n then c.post[i].doc else EXHAUSTED);
  }

  ghost predicate SortedByDoc(cur: seq<Cursor>) {
    forall s, t :: 0 <= s < t < |cur| ==> cur[s].doc <= cur[t].doc
  }

  function InsertByDoc(r: seq<Cursor>, c: Cursor): (s: seq<Cursor>)
    requires SortedByDoc(r)
    ensures SortedByDoc(s) && |s| == |r| + 1
    ensures s[|s| - 1] == c || (|r| > 0 && s[|s| - 1] == r[|r| - 1])
    ensures multiset(s) == multiset(r) + multiset{c}
  {
    if r == [] || r[|r| - 1].doc <= c.doc then
      SortedSnoc(r, c);
      r + [c]
    else
      PrefixSorted(r);
      var s := InsertByDoc(r[..|r| - 1], c);
      LastFollows(r, c, s);
      s + [r[|r| - 1]]
  }

  lemma {:induction false} PrefixSorted(r: seq<Cursor>)
    requires SortedByDoc(r) && r != []
    ensures SortedByDoc(r[..|r| - 1])
    ensures |r| > 1 ==> r[|r| - 2].doc <= r[|r| - 1].doc
  {}

  /** The last cursor of r follows what the others and c were merged into. */
  lemma {:induction false} LastFollows(r: seq<Cursor>, c: Cursor, s: seq<Cursor>)
    requires SortedByDoc(r) && r != [] && c.doc < r[|r| - 1].doc
    requires SortedByDoc(s) && |s| == |r| && multiset(s) == multiset(r[..|r| - 1]) + multiset{c}
    requires s[|s| - 1] == c || (|r| > 1 && s[|s| - 1] == r[|r| - 2])
    ensures SortedByDoc(s + [r[|r| - 1]])
    ensures multiset(s + [r[|r| - 1]]) == multiset(r) + multiset{c}
  {
    var last := r[|r| - 1];
    PrefixSorted(r);
    SortedSnoc(s, last);
    hide SortedByDoc;
    assert r == r[..|r| - 1] + [last];
    assert multiset(s + [last]) == multiset(s) + multiset{last};
  }

  lemma {:induction false} SortedSnoc(r: seq<Cursor>, c: Cursor)
    requires SortedByDoc(r) && (r == [] || r[|r| - 1].doc <= c.doc)
    ensures SortedByDoc(r + [c])
  {}

  /** std::sort of the cursors on their current document. */
  method SortByDoc(cur: seq<Cursor>) returns (r: seq<Cursor>)
    ensures SortedByDoc(r) && multiset(r) == multiset(cur)
  {
    r := [];
    for t := 0 to |cur|
      invariant SortedByDoc(r) && multiset(r) == multiset(cur[..t])
    {
      assert cur[..t + 1] == cur[..t] + [cur[t]];
      r := InsertByDoc(r, cur[t]);
    }
    assert cur[..|cur|] == cur;
  }

  lemma {:induction false} RestExhausted(cur: seq<Cursor>, t: nat)
    requires AllOk(cur) && SortedByDoc(cur) && t < |cur| && cur[t].doc == EXHAUSTED
    ensures forall s :: t <= s < |cur| ==> cur[s].doc == EXHAUSTED
  {
    forall s | t <= s < |cur| ensures cur[s].doc == EXHAUSTED {
      assert CursorOk(cur[s]) && cur[t].doc <= cur[s].doc;
    }
  }

  /** The pivot: the first cursor at which the running sum of term maxima exceeds theta. */
  method FindPivot(cur: seq<Cursor>, theta: real) returns (pivot: nat)
    requires AllOk(cur) && SortedByDoc(cur)
    ensures pivot <= |cur|
    ensures pivot < |cur| ==> cur[pivot].doc != EXHAUSTED
    ensures pivot < |cur| ==> pivot == 0 || SeqSum(cur[..pivot], TermMaxOf()) <= theta
    ensures pivot < |cur| ==> theta < SeqSum(cur[..pivot + 1], TermMaxOf())
    ensures pivot == |cur| ==>
      exists p {:trigger cur[..p]} :: 0 <= p <= |cur| && (p == 0 || SeqSum(cur[..p], TermMaxOf()) <= theta)
                && forall t :: p <= t < |cur| ==> cur[t].doc == EXHAUSTED
  {
    hide CursorOk, SortedByDoc;
    var bound := 0.0;
    var t := 0;
    while t < |cur|
      invariant t <= |cur|
      invariant bound == SeqSum(cur[..t], TermMaxOf())
      invariant t == 0 || bound <= theta
    {
      if cur[t].doc == EXHAUSTED {
        RestExhausted(cur, t);
        assert t == 0 || SeqSum(cur[..t], TermMaxOf()) <= theta;
        return |cur|;
      }
      SeqSumPrefix(cur, t, TermMaxOf());
      bound := bound + cur[t].termMax;
      if bound > theta { return t; }
      t := t + 1;
    }
    assert SeqSum(cur[..t], TermMaxOf()) <= theta || t == 0;
    return |cur|;
  }

  // ----- The state of a run -----

  /** Passed postings lie below lo (or at lo, when lo is dead); unread ones do not. */
  ghost predicate CursorAt(c: Cursor, lo: nat, dead: bool) {
    && CursorOk(c)
    && (forall j :: 0 <= j < c.i ==> c.post[j].doc < lo || (dead && c.post[j].doc == lo))
    && (forall j :: c.i <= j < |c.post| ==> lo <= c.post[j].doc)
  }

  ghost predicate Frontier(cur: seq<Cursor>, lo: nat, dead: bool) {
    forall t :: 0 <= t < |cur| ==> CursorAt(cur[t], lo, dead)
  }

  /** The cursors' terms give exactly these scores, all positive. */
  ghost predicate ScoredBy(cur: seq<Cursor>, scores: map<nat, real>) {
    && (forall d :: d in scores ==> d < EXHAUSTED && scores[d] > 0.0)
    && (forall d: nat :: Total(cur, d) == if d in scores then scores[d] else 0.0)
  }

  /** Document d needs no further attention. */
  ghost predicate Settled(heap: seq<Hit>, theta: real, scores: map<nat, real>, k: nat, d: nat) {
    d in scores ==> Listed(heap, d) || (|heap| == k && scores[d] <= theta)
  }

  ghost predicate HeapOk(heap: seq<Hit>, theta: real, scores: map<nat, real>, k: nat) {
    && |heap| <= k
    && AscendingScores(heap)
    && DistinctDocs(heap)
    && ExactScores(heap, scores)
    && theta == if |heap| == k && k > 0 then heap[0].score else 0.0
  }

  ghost predicate Below(heap: seq<Hit>, lo: nat) {
    forall i :: 0 <= i < |heap| ==> heap[i].doc < lo
  }

  /** Everything below lo is settled; a dead lo is settled and cannot reach the scoring branch again. */
  ghost predicate Run(cur: seq<Cursor>, heap: seq<Hit>, theta: real, scores: map<nat, real>, k: nat,
                      lo: nat, dead: bool) {
    && Frontier(cur, lo, dead)
    && ScoredBy(cur, scores)
    && HeapOk(heap, theta, scores, k)
    && Below(heap, lo)
    && (forall d: nat :: d < lo || (dead && d == lo) ==> Settled(heap, theta, scores, k, d))
    && (dead ==> AlignedMaxima(cur, lo) <= theta)
  }

  ghost function UnreadOf(): Cursor -> real { (c: Cursor) => (|c.post| - c.i) as real }

  /** Postings not yet passed, over all cursors. */
  ghost function Unread(cur: seq<Cursor>): real { SeqSum(cur, UnreadOf()) }

  lemma {:induction false} SameTermsSameScores(a: seq<Cursor>, b: seq<Cursor>, scores: map<nat, real>)
    requires SameTerms(a, b) && ScoredBy(a, scores)
    ensures ScoredBy(b, scores)
  {
    hide SeqSum, Contrib;
    forall d: nat ensures Total(b, d) == Total(a, d) {
      forall t | 0 <= t < |a| ensures ContribAt(d)(a[t]) == ContribAt(d)(b[t]) {
        SameContrib(a[t], b[t], d);
      }
      SeqSumCompare(a, ContribAt(d), b, ContribAt(d));
      SeqSumCompare(b, ContribAt(d), a, ContribAt(d));
    }
  }

  lemma {:induction false} SameContrib(c: Cursor, r: Cursor, d: nat)
    requires SameTerm(c, r)
    ensures Contrib(c, d) == Contrib(r, d)
  {}

  /** Sorting the cursors changes nothing else. */
  lemma {:induction false} SortKeepsRun(a: seq<Cursor>, b: seq<Cursor>, heap: seq<Hit>, theta: real, scores: map<nat, real>, k: nat,
                     lo: nat, dead: bool)
    requires multiset(a) == multiset(b)
    requires Run(a, heap, theta, scores, k, lo, dead)
    ensures Run(b, heap, theta, scores, k, lo, dead)
    ensures |a| == |b| && Unread(a) == Unread(b)
  {
    assert |multiset(a)| == |multiset(b)|;
    forall t | 0 <= t < |b| ensures CursorAt(b[t], lo, dead) {
      assert b[t] in multiset(a);
      var s :| 0 <= s < |a| && a[s] == b[t];
    }
    forall d: nat ensures Total(b, d) == Total(a, d) {
      SeqSumPermutation(a, b, ContribAt(d));
    }
    SeqSumPermutation(a, b, BlockMaxAt(lo));
    SeqSumPermutation(a, b, UnreadOf());
  }

  ghost predicate AllMoved(a: seq<Cursor>, b: seq<Cursor>, target: nat) {
    |a| == |b| && forall t :: 0 <= t < |a| ==> Moved(a[t], b[t], target)
  }

  /** The first t cursors have moved forward to the target, the others not at all. */
  ghost predicate PrefixMoved(a: seq<Cursor>, b: seq<Cursor>, t: nat, target: nat) {
    && |a| == |b| && t <= |a|
    && (forall s :: 0 <= s < t ==> Moved(a[s], b[s], target) && a[s].i < b[s].i)
    && (forall s :: t <= s < |a| ==> b[s] == a[s])
  }

  lemma {:induction false} NoneMoved(a: seq<Cursor>, target: nat)
    ensures PrefixMoved(a, a, 0, target)
  {}

  lemma {:induction false} ExtendMoved(a: seq<Cursor>, b: seq<Cursor>, t: nat, c: Cursor, target: nat)
    requires PrefixMoved(a, b, t, target) && t < |a|
    requires Moved(a[t], c, target) && a[t].i < c.i
    ensures |b| == |a| && PrefixMoved(a, b[t := c], t + 1, target)
  {}

  lemma {:induction false} MovedShrinks(a: seq<Cursor>, b: seq<Cursor>)
    requires |a| == |b| && |a| > 0
    requires forall t :: 0 <= t < |a| ==> |a[t].post| == |b[t].post| && a[t].i <= b[t].i
    requires a[0].i < b[0].i
    ensures Unread(b) <= Unread(a) - 1.0
  {
    assert a == [a[0]] + a[1..] && b == [b[0]] + b[1..];
    SeqSumAppend([a[0]], a[1..], UnreadOf());
    SeqSumAppend([b[0]], b[1..], UnreadOf());
    SeqSumSingle(a[0], UnreadOf());
    SeqSumSingle(b[0], UnreadOf());
    SeqSumCompare(b[1..], UnreadOf(), a[1..], UnreadOf());
  }

  lemma {:induction false} UnreadNonNegative(cur: seq<Cursor>)
    requires AllOk(cur)
    ensures Unread(cur) >= 0.0
  {
    forall t | 0 <= t < |cur| ensures 0.0 <= UnreadOf()(cur[t]) {
      assert CursorOk(cur[t]);
    }
    SeqSumNonNegative(cur, UnreadOf());
  }

  // ----- One round -----

  /** Sum of the current-block maxima of the cursors standing on pivotDoc. */
  method AlignedBlockBound(cur: seq<Cursor>, pivotDoc: nat) returns (bound: real)
    requires AllOk(cur) && SortedByDoc(cur) && pivotDoc < EXHAUSTED
    requires |cur| > 0 && cur[0].doc == pivotDoc
    ensures bound == AlignedMaxima(cur, pivotDoc)
  {
    hide Describes, Ascending;
    bound := 0.0;
    var t: nat := 0;
    while t < |cur| && cur[t].doc == pivotDoc
      invariant t <= |cur|
      invariant bound == SeqSum(cur[..t], BlockMaxAt(pivotDoc))
    {
      BlockIndexOk(cur[t]);
      SeqSumPrefix(cur, t, BlockMaxAt(pivotDoc));
      bound := bound + BlockMaxOf(cur[t]);
      t := t + 1;
    }
    RestAddsNoBound(cur, t, pivotDoc);
  }

  lemma {:induction false} RestAddsNoBound(cur: seq<Cursor>, t: nat, d: nat)
    requires SortedByDoc(cur) && t <= |cur| && (t < |cur| ==> d < cur[t].doc)
    ensures SeqSum(cur, BlockMaxAt(d)) == SeqSum(cur[..t], BlockMaxAt(d))
  {
    assert cur == cur[..t] + cur[t..];
    SeqSumAppend(cur[..t], cur[t..], BlockMaxAt(d));
    forall s | 0 <= s < |cur[t..]| ensures BlockMaxAt(d)(cur[t..][s]) == 0.0 {
      assert cur[t..][s] == cur[t + s] && cur[t].doc <= cur[t + s].doc;
    }
    SeqSumZero(cur[t..], BlockMaxAt(d));
  }

  /** Read the current posting's share of its document's score and move past that document. */
  method TakePosting(c: Cursor) returns (r: Cursor, share: real)
    requires CursorOk(c) && c.doc < EXHAUSTED
    ensures share == Contrib(c, c.doc)
    ensures Moved(c, r, c.doc + 1) && c.i < r.i
  {
    AlignedContrib(c);
    share := c.idf * c.w[c.i];
    r := SkipTo(c, c.doc + 1);
  }

  /** Score pivotDoc over the aligned cursors, moving each of them past it. */
  method ScoreAligned(cur: seq<Cursor>, pivotDoc: nat) returns (next: seq<Cursor>, score: real)
    requires AllOk(cur) && SortedByDoc(cur) && pivotDoc < EXHAUSTED
    requires |cur| > 0 && cur[0].doc == pivotDoc
    requires UnreadAt(cur, pivotDoc)
    ensures score == Total(cur, pivotDoc)
    ensures AllMoved(cur, next, pivotDoc + 1) && cur[0].i < next[0].i
  {
    hide CursorOk, UnreadAt, AllMoved, Moved, PrefixMoved, SortedByDoc;
    score := 0.0;
    next := cur;
    NoneMoved(cur, pivotDoc + 1);
    var t: nat := 0;
    while t < |cur| && cur[t].doc == pivotDoc
      invariant t <= |cur|
      invariant score == SeqSum(cur[..t], ContribAt(pivotDoc))
      invariant PrefixMoved(cur, next, t, pivotDoc + 1)
      invariant |next| == |cur|
    {
      var c, s := TakePosting(cur[t]);
      SeqSumPrefix(cur, t, ContribAt(pivotDoc));
      score := score + s;
      ExtendMoved(cur, next, t, c, pivotDoc + 1);
      next := next[t := c];
      t := t + 1;
    }
    if t < |cur| { SortedFront(cur, t); }
    RestAddsNothing(cur, t, pivotDoc);
    FinishMoved(cur, next, t, pivotDoc + 1);
  }

  lemma {:induction false} RestAddsNothing(cur: seq<Cursor>, t: nat, d: nat)
    requires AllOk(cur) && SortedByDoc(cur) && UnreadAt(cur, d)
    requires t <= |cur| && (t < |cur| ==> d < cur[t].doc)
    ensures Total(cur, d) == SeqSum(cur[..t], ContribAt(d))
  {
    assert cur == cur[..t] + cur[t..];
    SeqSumAppend(cur[..t], cur[t..], ContribAt(d));
    forall s | 0 <= s < |cur[t..]| ensures ContribAt(d)(cur[t..][s]) == 0.0 {
      assert cur[t..][s] == cur[t + s] && cur[t].doc <= cur[t + s].doc;
      NothingAhead(cur[t + s], d);
    }
    SeqSumZero(cur[t..], ContribAt(d));
  }

  lemma {:induction false} FinishMoved(a: seq<Cursor>, b: seq<Cursor>, t: nat, target: nat)
    requires PrefixMoved(a, b, t, target)
    requires AllOk(a) && SortedByDoc(a)
    requires t < |a| ==> target <= a[t].doc
    ensures AllMoved(a, b, target) && (t > 0 ==> a[0].i < b[0].i)
  {
    hide Moved, CursorOk;
    forall s | t <= s < |a| ensures Moved(a[s], b[s], target) {
      assert a[t].doc <= a[s].doc;
      StandsAt(a[s], target);
    }
  }

  lemma {:induction false} SkipMoves(c: Cursor, r: Cursor, target: nat)
    requires CursorOk(c) && c.doc < target < EXHAUSTED && Moved(c, r, target)
    ensures c.i < r.i
  {}

  /** Bring the cursors that stand before pivotDoc up to it. */
  method AdvanceBelow(cur: seq<Cursor>, pivotDoc: nat) returns (next: seq<Cursor>)
    requires AllOk(cur) && SortedByDoc(cur) && pivotDoc < EXHAUSTED
    requires |cur| > 0 && cur[0].doc < pivotDoc
    ensures AllMoved(cur, next, pivotDoc) && cur[0].i < next[0].i
  {
    hide CursorOk, AllMoved, Moved, PrefixMoved, SortedByDoc;
    next := cur;
    NoneMoved(cur, pivotDoc);
    var t: nat := 0;
    while t < |cur| && cur[t].doc < pivotDoc
      invariant t <= |cur| == |next|
      invariant PrefixMoved(cur, next, t, pivotDoc)
    {
      var c := SkipTo(cur[t], pivotDoc);
      SkipMoves(cur[t], c, pivotDoc);
      ExtendMoved(cur, next, t, c, pivotDoc);
      next := next[t := c];
      t := t + 1;
    }
    FinishMoved(cur, next, t, pivotDoc);
  }

  // ----- The heap -----

  /** Offer a scored document to the heap; the threshold is the k-th best score once the heap is full. */
  method Admit(heap: seq<Hit>, theta: real, x: Hit, k: nat, ghost scores: map<nat, real>)
    returns (next: seq<Hit>, bar: real)
    requires k > 0 && HeapOk(heap, theta, scores, k)
    requires forall d :: d in scores ==> scores[d] > 0.0
    requires x.doc in scores && x.score == scores[x.doc] > 0.0
    requires !Listed(heap, x.doc)
    ensures HeapOk(next, bar, scores, k) && theta <= bar
    ensures forall h :: h in next ==> h in heap || h == x
    ensures forall d: nat :: d == x.doc || Settled(heap, theta, scores, k, d) ==> Settled(next, bar, scores, k, d)
  {
    if |heap| < k {
      next := InsertByScore(heap, x);
      bar := if |next| == k then next[0].score else theta;
      AdmitKeeps(heap, theta, next, bar, x, scores, k);
    } else if x.score > theta {
      var rest := heap[1..];
      assert forall d: nat :: Listed(rest, d) ==> Listed(heap, d) by {
        forall d: nat | Listed(rest, d) ensures Listed(heap, d) {
          var i :| 0 <= i < |rest| && rest[i].doc == d;
          assert heap[i + 1].doc == d;
        }
      }
      next := InsertByScore(rest, x);
      bar := next[0].score;
      AdmitKeeps(heap, theta, next, bar, x, scores, k);
    } else {
      next, bar := heap, theta;
    }
  }

  /** Inserting x, and dropping at most the weakest entry of a full heap, keeps the heap's account of the scores. */
  lemma {:induction false} AdmitKeeps(heap: seq<Hit>, theta: real, next: seq<Hit>, bar: real, x: Hit, scores: map<nat, real>, k: nat)
    requires k > 0 && HeapOk(heap, theta, scores, k)
    requires forall d :: d in scores ==> scores[d] > 0.0
    requires x.doc in scores && x.score == scores[x.doc] > 0.0
    requires 0 < |next| <= k && AscendingScores(next) && DistinctDocs(next)
    requires |heap| < k || theta < x.score
    requires |heap| == k ==> |next| == k
    requires forall h :: h in next <==> h == x || (h in heap && (|heap| < k || h in heap[1..]))
    requires bar == if |next| == k then next[0].score else 0.0
    ensures HeapOk(next, bar, scores, k) && theta <= bar
    ensures forall d: nat :: d == x.doc || Settled(heap, theta, scores, k, d) ==> Settled(next, bar, scores, k, d)
  {
    assert next[0] in next;
    forall i | 0 <= i < |next| ensures next[i].doc in scores && next[i].score == scores[next[i].doc] {
      assert next[i] in next;
    }
    forall d: nat | d == x.doc || Settled(heap, theta, scores, k, d) ensures Settled(next, bar, scores, k, d) {
      if d == x.doc {
        assert x in next;
      } else if d in scores && Listed(heap, d) {
        var i :| 0 <= i < |heap| && heap[i].doc == d;
        assert heap[i] in heap;
        if |heap| == k {
          assert i > 0 ==> heap[1..][i - 1] == heap[i];
        }
        assert heap[i] in next ==> Listed(next, d);
      }
    }
  }

  // ----- Why each branch may move on -----

  lemma {:induction false} PassedAreUnread(cur: seq<Cursor>, lo: nat, dead: bool, d: nat)
    requires Frontier(cur, lo, dead)
    requires lo <= d && !(dead && d == lo)
    ensures UnreadAt(cur, d) && AllOk(cur)
  {}

  /** Documents between lo and the cursors from p on cannot beat theta if the maxima before p do not. */
  lemma {:induction false} SkippedAreSettled(cur: seq<Cursor>, heap: seq<Hit>, theta: real, scores: map<nat, real>, k: nat,
                          lo: nat, dead: bool, p: nat, d: nat)
    requires Run(cur, heap, theta, scores, k, lo, dead)
    requires p <= |cur| && (p == 0 || SeqSum(cur[..p], TermMaxOf()) <= theta)
    requires d < EXHAUSTED && forall t :: p <= t < |cur| ==> d < cur[t].doc
    ensures Settled(heap, theta, scores, k, d)
  {
    if d in scores && lo <= d && !(dead && d == lo) {
      PassedAreUnread(cur, lo, dead, d);
      UnreadBound(cur, d, p);
      assert cur[..0] == [];
      assert scores[d] <= theta;
    }
  }

  /** Moving every cursor to a target leaves a live frontier there. */
  lemma {:induction false} MovedFrontier(cur: seq<Cursor>, next: seq<Cursor>, scores: map<nat, real>, lo: nat, dead: bool, target: nat)
    requires Frontier(cur, lo, dead) && ScoredBy(cur, scores)
    requires AllMoved(cur, next, target) && lo <= target && (dead ==> lo < target)
    ensures Frontier(next, target, false) && ScoredBy(next, scores)
  {
    SameTermsSameScores(cur, next, scores);
  }

  lemma {:induction false} SortedFront(cur: seq<Cursor>, pivot: nat)
    requires SortedByDoc(cur) && pivot < |cur|
    ensures cur[0].doc <= cur[pivot].doc
    ensures forall t :: pivot <= t < |cur| ==> cur[pivot].doc <= cur[t].doc
  {}

  lemma {:induction false} AdvanceStep(cur: seq<Cursor>, next: seq<Cursor>, heap: seq<Hit>, theta: real, scores: map<nat, real>, k: nat,
                    lo: nat, dead: bool, pivot: nat)
    requires Run(cur, heap, theta, scores, k, lo, dead) && SortedByDoc(cur)
    requires pivot < |cur| && cur[0].doc < cur[pivot].doc < EXHAUSTED
    requires SeqSum(cur[..pivot], TermMaxOf()) <= theta
    requires AllMoved(cur, next, cur[pivot].doc)
    ensures Run(next, heap, theta, scores, k, cur[pivot].doc, false)
  {
    hide CursorOk, CursorAt, AllMoved, SortedByDoc, ScoredBy, HeapOk, Settled;
    var target := cur[pivot].doc;
    FrontIsFrontier(cur, lo, dead);
    SortedFront(cur, pivot);
    MovedFrontier(cur, next, scores, lo, dead, target);
    forall d: nat | d < target ensures Settled(heap, theta, scores, k, d) {
      SkippedAreSettled(cur, heap, theta, scores, k, lo, dead, pivot, d);
    }
  }

  /** The exact score of the aligned document is at most the sum of its cursors' block maxima. */
  lemma {:induction false} AlignedBound(cur: seq<Cursor>, d: nat)
    requires AllOk(cur) && SortedByDoc(cur) && UnreadAt(cur, d) && d < EXHAUSTED
    requires |cur| > 0 && cur[0].doc == d
    ensures Total(cur, d) <= AlignedMaxima(cur, d)
  {
    hide CursorOk;
    forall t | 0 <= t < |cur| ensures ContribAt(d)(cur[t]) <= BlockMaxAt(d)(cur[t]) {
      assert cur[0].doc <= cur[t].doc && CursorOk(cur[t]);
      BoundedByBlock(cur[t], d);
    }
    SeqSumCompare(cur, ContribAt(d), cur, BlockMaxAt(d));
  }

  lemma {:induction false} BoundedByBlock(c: Cursor, d: nat)
    requires CursorOk(c) && d < EXHAUSTED && d <= c.doc
    requires forall j :: 0 <= j < c.i && j < |c.post| ==> c.post[j].doc != d
    ensures ContribAt(d)(c) <= BlockMaxAt(d)(c)
  {
    if c.doc == d {
      BlockIndexOk(c);
      AlignedContrib(c);
    } else {
      NothingAhead(c, d);
    }
  }

  lemma {:induction false} FrontIsFrontier(cur: seq<Cursor>, lo: nat, dead: bool)
    requires Frontier(cur, lo, dead) && |cur| > 0 && cur[0].doc < EXHAUSTED
    ensures lo <= cur[0].doc
  {
    assert lo <= cur[0].post[cur[0].i].doc;
  }

  lemma {:induction false} PruneStep(cur: seq<Cursor>, front: Cursor, heap: seq<Hit>, theta: real,
                                     scores: map<nat, real>, k: nat, lo: nat, dead: bool)
    requires Run(cur, heap, theta, scores, k, lo, dead) && SortedByDoc(cur)
    requires |cur| > 0 && cur[0].doc < EXHAUSTED
    requires AlignedMaxima(cur, cur[0].doc) <= theta
    requires Moved(cur[0], front, cur[0].doc + 1)
    ensures Run(cur[0 := front], heap, theta, scores, k, cur[0].doc, true)
  {
    hide CursorOk, CursorAt, SortedByDoc, ScoredBy, HeapOk, Settled;
    PrunedSettled(cur, heap, theta, scores, k, lo, dead);
    FrontIsFrontier(cur, lo, dead);
    PrunedFrontier(cur, front, lo, dead);
    SameTermsSameScores(cur, cur[0 := front], scores);
  }

  /** Pruning the front document settles it and everything before it. */
  lemma {:induction false} PrunedSettled(cur: seq<Cursor>, heap: seq<Hit>, theta: real,
                                         scores: map<nat, real>, k: nat, lo: nat, dead: bool)
    requires Run(cur, heap, theta, scores, k, lo, dead) && SortedByDoc(cur)
    requires |cur| > 0 && cur[0].doc < EXHAUSTED
    requires AlignedMaxima(cur, cur[0].doc) <= theta
    ensures forall d: nat :: d <= cur[0].doc ==> Settled(heap, theta, scores, k, d)
  {
    var f := cur[0].doc;
    FrontIsFrontier(cur, lo, dead);
    forall d: nat | d <= f ensures Settled(heap, theta, scores, k, d) {
      if d < f {
        SkippedAreSettled(cur, heap, theta, scores, k, lo, dead, 0, d);
      } else if !(dead && d == lo) {
        PassedAreUnread(cur, lo, dead, f);
        AlignedBound(cur, f);
      }
    }
  }

  /** The pruned document is left dead: the cursors still on it stay below theta. */
  lemma {:induction false} PrunedFrontier(cur: seq<Cursor>, front: Cursor, lo: nat, dead: bool)
    requires Frontier(cur, lo, dead) && SortedByDoc(cur)
    requires |cur| > 0 && lo <= cur[0].doc < EXHAUSTED
    requires Moved(cur[0], front, cur[0].doc + 1)
    ensures Frontier(cur[0 := front], cur[0].doc, true)
    ensures AlignedMaxima(cur[0 := front], cur[0].doc) <= AlignedMaxima(cur, cur[0].doc)
  {
    hide CursorOk;
    var next, f := cur[0 := front], cur[0].doc;
    forall t | 0 <= t < |next| ensures CursorAt(next[t], f, true) {
      assert cur[0].doc <= cur[t].doc && CursorAt(cur[t], lo, dead);
      StandsAt(cur[t], f);
    }
    FrontBoundPositive(cur[0]);
    MovedPast(cur[0], front, f + 1);
    SeqSumCompare(next, BlockMaxAt(f), cur, BlockMaxAt(f));
  }

  lemma {:induction false} MovedPast(c: Cursor, r: Cursor, target: nat)
    requires Moved(c, r, target) && target <= EXHAUSTED
    ensures target <= r.doc
  {
    assert r.i < |c.post| ==> target <= c.post[r.i].doc;
  }

  lemma {:induction false} FrontBoundPositive(c: Cursor)
    requires CursorOk(c) && c.doc < EXHAUSTED
    ensures BlockMaxAt(c.doc)(c) > 0.0
  {
    BlockIndexOk(c);
    assert 0.0 < c.idf * c.w[c.i];
  }

  lemma {:induction false} ScoreStep(cur: seq<Cursor>, next: seq<Cursor>, heap: seq<Hit>, theta: real, heap': seq<Hit>, theta': real,
                  scores: map<nat, real>, k: nat, lo: nat, dead: bool)
    requires Run(cur, heap, theta, scores, k, lo, dead) && SortedByDoc(cur)
    requires |cur| > 0 && cur[0].doc < EXHAUSTED
    requires AllMoved(cur, next, cur[0].doc + 1)
    requires HeapOk(heap', theta', scores, k)
    requires forall h :: h in heap' ==> h in heap || h.doc == cur[0].doc
    requires forall d: nat ::
      d == cur[0].doc || Settled(heap, theta, scores, k, d) ==> Settled(heap', theta', scores, k, d)
    ensures Run(next, heap', theta', scores, k, cur[0].doc + 1, false)
  {
    hide CursorOk, CursorAt, AllMoved, SortedByDoc, ScoredBy, HeapOk, Settled;
    var f := cur[0].doc;
    FrontIsFrontier(cur, lo, dead);
    SortedFront(cur, 0);
    MovedFrontier(cur, next, scores, lo, dead, f + 1);
    forall d: nat | d < f ensures Settled(heap, theta, scores, k, d) {
      SkippedAreSettled(cur, heap, theta, scores, k, lo, dead, 0, d);
    }
    forall i | 0 <= i < |heap'| ensures heap'[i].doc < f + 1 {
      assert heap'[i] in heap';
    }
  }

  /** The front document, when its block bound beats theta, is matched and not yet in the heap. */
  lemma {:induction false} FrontIsNew(cur: seq<Cursor>, heap: seq<Hit>, theta: real, scores: map<nat, real>, k: nat, lo: nat, dead: bool)
    requires Run(cur, heap, theta, scores, k, lo, dead)
    requires |cur| > 0 && cur[0].doc < EXHAUSTED
    requires theta < AlignedMaxima(cur, cur[0].doc)
    ensures UnreadAt(cur, cur[0].doc) && !Listed(heap, cur[0].doc)
    ensures cur[0].doc in scores
  {
    var f := cur[0].doc;
    FrontIsFrontier(cur, lo, dead);
    PassedAreUnread(cur, lo, dead, f);
    MatchedScoresPositive(cur);
  }

  lemma {:induction false} MatchedScoresPositive(cur: seq<Cursor>)
    requires AllOk(cur) && |cur| > 0 && cur[0].doc < EXHAUSTED
    ensures Total(cur, cur[0].doc) > 0.0
  {
    var f, rest := cur[0].doc, cur[1..];
    AlignedPositive(cur[0]);
    forall t | 0 <= t < |rest| ensures 0.0 <= ContribAt(f)(rest[t]) {
      assert CursorOk(cur[t + 1]);
      ContribNonNegative(cur[t + 1], f);
    }
    hide CursorOk, SeqSum, Contrib;
    assert cur == [cur[0]] + rest;
    SeqSumAppend([cur[0]], rest, ContribAt(f));
    SeqSumSingle(cur[0], ContribAt(f));
    SeqSumNonNegative(rest, ContribAt(f));
  }

  lemma {:induction false} AlignedPositive(c: Cursor)
    requires CursorOk(c) && c.doc < EXHAUSTED
    ensures Contrib(c, c.doc) > 0.0
  {
    AlignedContrib(c);
    assert 0.0 < c.idf * c.w[c.i];
  }

  // ----- The whole search -----

  /** A full account of the scores is a top-k list. */
  lemma {:induction false} AccountIsTopK(heap: seq<Hit>, theta: real, hits: seq<Hit>, scores: map<nat, real>, k: nat)
    requires k > 0 && HeapOk(heap, theta, scores, k)
    requires forall d :: d in scores ==> Settled(heap, theta, scores, k, d)
    requires |hits| == |heap| && Descending(hits) && DistinctDocs(hits)
    requires forall h :: h in hits <==> h in heap
    ensures IsTopK(hits, scores, k)
  {
    forall i | 0 <= i < |hits| ensures hits[i].doc in scores && hits[i].score == scores[hits[i].doc] {
      assert hits[i] in heap;
    }
    forall d | Listed(heap, d) ensures Listed(hits, d) {
      var i :| 0 <= i < |heap| && heap[i].doc == d;
      assert heap[i] in hits;
    }
    DocsOfSize(hits);
    SubsetSize(DocsOf(hits), scores.Keys);
    if |heap| < k {
      assert scores.Keys <= DocsOf(hits);
      SubsetSize(scores.Keys, DocsOf(hits));
    }
    forall d, i | d in scores && !Listed(hits, d) && 0 <= i < |hits| ensures scores[d] <= hits[i].score {
      assert hits[i] in heap;
    }
  }

  lemma {:induction false} RunStarts(start: seq<Cursor>, k: nat, scores: map<nat, real>)
    requires k > 0
    requires forall t :: 0 <= t < |start| ==> CursorOk(start[t]) && start[t].i == 0
    requires ScoredBy(start, scores)
    ensures Run(start, [], 0.0, scores, k, 0, false)
  {}

  lemma {:induction false} FrontierOk(cur: seq<Cursor>, lo: nat, dead: bool)
    requires Frontier(cur, lo, dead)
    ensures AllOk(cur) && Unread(cur) >= 0.0
    ensures forall t :: 0 <= t < |cur| ==> cur[t].doc <= EXHAUSTED
  {
    UnreadNonNegative(cur);
  }

  /** No cursor before p can lift a document over theta and none is left from p on: the run is complete. */
  lemma {:induction false} RunComplete(cur: seq<Cursor>, heap: seq<Hit>, theta: real, scores: map<nat, real>, k: nat,
                    lo: nat, dead: bool, p: nat)
    requires Run(cur, heap, theta, scores, k, lo, dead)
    requires p <= |cur| && (p == 0 || SeqSum(cur[..p], TermMaxOf()) <= theta)
    requires forall t :: p <= t < |cur| ==> cur[t].doc == EXHAUSTED
    ensures forall d :: d in scores ==> Settled(heap, theta, scores, k, d)
  {
    forall d | d in scores ensures Settled(heap, theta, scores, k, d) {
      SkippedAreSettled(cur, heap, theta, scores, k, lo, dead, p, d);
    }
  }

  lemma {:induction false} OneMoved(cur: seq<Cursor>, front: Cursor, target: nat)
    requires |cur| > 0 && CursorOk(cur[0]) && cur[0].doc < target <= EXHAUSTED && Moved(cur[0], front, target)
    ensures Unread(cur[0 := front]) <= Unread(cur) - 1.0
  {
    MovedShrinks(cur, cur[0 := front]);
  }

  lemma {:induction false} AllMovedShrinks(a: seq<Cursor>, b: seq<Cursor>, target: nat)
    requires AllMoved(a, b, target) && |a| > 0 && a[0].i < b[0].i
    ensures |b| == |a| && Unread(b) <= Unread(a) - 1.0
  {
    MovedShrinks(a, b);
  }

  /** One round with the front cursor on the pivot document: prune it on its block bound, or score it. */
  method AlignedRound(cur: seq<Cursor>, before: seq<Hit>, bar: real, k: nat, ghost scores: map<nat, real>,
                      ghost lo: nat, ghost dead: bool)
    returns (next: seq<Cursor>, heap: seq<Hit>, theta: real, ghost at: nat, ghost pruned: bool)
    requires k > 0 && |cur| > 0 && cur[0].doc < EXHAUSTED
    requires Run(cur, before, bar, scores, k, lo, dead) && AllOk(cur) && SortedByDoc(cur)
    ensures Run(next, heap, theta, scores, k, at, pruned)
    ensures |next| == |cur| && Unread(next) <= Unread(cur) - 1.0
  {
    hide CursorOk, CursorAt, AllMoved, Moved, SortedByDoc, Frontier, Below, Settled;
    var f := cur[0].doc;
    var bound := AlignedBlockBound(cur, f);
    if bound <= bar {
      var front := SkipTo(cur[0], f + 1);
      PruneStep(cur, front, before, bar, scores, k, lo, dead);
      OneMoved(cur, front, f + 1);
      return cur[0 := front], before, bar, f, true;
    }
    FrontIsNew(cur, before, bar, scores, k, lo, dead);
    var score;
    next, score := ScoreAligned(cur, f);
    assert score == scores[f];
    heap, theta := Admit(before, bar, Hit(f, score), k, scores);
    ScoreStep(cur, next, before, bar, heap, theta, scores, k, lo, dead);
    AllMovedShrinks(cur, next, f + 1);
    at, pruned := f + 1, false;
  }

  /** The search loop over prepared cursors: returns a top-k of the scored documents. */
  method SearchCursors(start: seq<Cursor>, k: nat, ghost scores: map<nat, real>) returns (hits: seq<Hit>)
    requires k > 0 && |start| > 0
    requires forall t :: 0 <= t < |start| ==> CursorOk(start[t]) && start[t].i == 0
    requires ScoredBy(start, scores)
    ensures IsTopK(hits, scores, k)
  {
    hide CursorOk, CursorAt, AllMoved, Moved, SortedByDoc, Frontier, Below, Settled, ScoredBy;
    var cur, heap, theta := start, [], 0.0;
    ghost var lo, dead := 0, false;
    RunStarts(start, k, scores);
    while true
      invariant |cur| == |start|
      invariant Run(cur, heap, theta, scores, k, lo, dead)
      decreases Unread(cur)
    {
      ghost var before := cur;
      cur := SortByDoc(cur);
      SortKeepsRun(before, cur, heap, theta, scores, k, lo, dead);
      FrontierOk(cur, lo, dead);
      SortedFront(cur, 0);
      if cur[0].doc == EXHAUSTED {
        RunComplete(cur, heap, theta, scores, k, lo, dead, 0);
        break;
      }
      var pivot := FindPivot(cur, theta);
      if pivot == |cur| {
        ghost var p :| 0 <= p <= |cur| && (p == 0 || SeqSum(cur[..p], TermMaxOf()) <= theta)
                && forall t :: p <= t < |cur| ==> cur[t].doc == EXHAUSTED;
        RunComplete(cur, heap, theta, scores, k, lo, dead, p);
        break;
      }
      var pivotDoc := cur[pivot].doc;
      if cur[0].doc == pivotDoc {
        cur, heap, theta, lo, dead := AlignedRound(cur, heap, theta, k, scores, lo, dead);
      } else {
        SortedFront(cur, pivot);
        var next := AdvanceBelow(cur, pivotDoc);
        AdvanceStep(cur, next, heap, theta, scores, k, lo, dead, pivot);
        AllMovedShrinks(cur, next, pivotDoc);
        cur, lo, dead := next, pivotDoc, false;
      }
    }
    hits := SortHits(heap);
    AccountIsTopK(heap, theta, hits, scores, k);
  }
}
