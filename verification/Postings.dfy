/** Posting lists and the per-block metadata that dynamic pruning reads. */
module Postings {

  datatype Posting = Posting(doc: nat, tf: nat)

  /** Last document id and largest weight of one block of postings. */
  datatype BlockMeta = BlockMeta(lastDoc: nat, maxPw: real)

  const BLOCK_SIZE: nat := 128

  /** The doc id of a cursor that has run past its last posting; no document has it. */
  const EXHAUSTED: nat := 0xFFFF_FFFF

  ghost predicate Ascending(pl: seq<Posting>) {
    forall i, j :: 0 <= i < j < |pl| ==> pl[i].doc < pl[j].doc
  }

  ghost predicate HasDoc(pl: seq<Posting>, d: nat) {
    exists i :: 0 <= i < |pl| && pl[i].doc == d
  }

  ghost function IndexOf(pl: seq<Posting>, d: nat): (i: nat)
    requires HasDoc(pl, d)
    ensures i < |pl| && pl[i].doc == d
  {
    var i :| 0 <= i < |pl| && pl[i].doc == d;
    i
  }

  /** One past the last posting of block b in a list of n postings. */
  function BlockEnd(b: nat, n: nat): nat {
    if (b + 1) * BLOCK_SIZE < n then (b + 1) * BLOCK_SIZE else n
  }

  function BlockCount(n: nat): nat { (n + BLOCK_SIZE - 1) / BLOCK_SIZE }

  lemma {:induction false} BlockOfPosting(i: nat, n: nat)
    requires i < n
    ensures i / BLOCK_SIZE < BlockCount(n)
    ensures (i / BLOCK_SIZE) * BLOCK_SIZE <= i < BlockEnd(i / BLOCK_SIZE, n)
  {}

  lemma {:induction false} BlockStart(i: nat, b: nat, n: nat)
    requires i / BLOCK_SIZE < b < BlockCount(n) || b == i / BLOCK_SIZE
    ensures i / BLOCK_SIZE < b ==> i < b * BLOCK_SIZE < n
  {}

  /** The largest of 0 and the weights w[lo..hi]. */
  ghost function WindowMax(w: seq<real>, lo: nat, hi: nat): real
    requires hi <= |w|
  {
    if hi <= lo then 0.0
    else if w[hi - 1] > WindowMax(w, lo, hi - 1) then w[hi - 1] else WindowMax(w, lo, hi - 1)
  }

  lemma {:induction false} WindowMaxBounds(w: seq<real>, lo: nat, hi: nat, j: nat)
    requires hi <= |w| && lo <= j < hi
    ensures w[j] <= WindowMax(w, lo, hi)
  {
    if j < hi - 1 {
      WindowMaxBounds(w, lo, hi - 1, j);
    }
  }

  /** `blocks` is exactly the metadata of the postings `pl` with weights `w`. */
  ghost predicate Describes(blocks: seq<BlockMeta>, pl: seq<Posting>, w: seq<real>) {
    && |w| == |pl|
    && |blocks| == BlockCount(|pl|)
    && forall b :: 0 <= b < |blocks| ==>
         blocks[b] == BlockMeta(pl[BlockEnd(b, |pl|) - 1].doc, WindowMax(w, b * BLOCK_SIZE, BlockEnd(b, |pl|)))
  }

  /** No posting weighs more than its block's maximum. */
  lemma {:induction false} BlockMaxBounds(blocks: seq<BlockMeta>, pl: seq<Posting>, w: seq<real>, i: nat)
    requires Describes(blocks, pl, w) && i < |pl|
    ensures |blocks| == (|pl| + 127) / 128 && i / 128 < |blocks|
    ensures w[i] <= blocks[i / 128].maxPw
  {
    BlockOfPosting(i, |pl|);
    var b := i / BLOCK_SIZE;
    WindowMaxBounds(w, b * BLOCK_SIZE, BlockEnd(b, |pl|), i);
  }

  /** The block pass of finalize() over one term. */
  method BuildBlocks(pl: seq<Posting>, w: seq<real>) returns (blocks: seq<BlockMeta>)
    requires |w| == |pl|
    ensures Describes(blocks, pl, w)
  {
    blocks := [];
    var i := 0;
    while i < |pl|
      invariant i == |blocks| * BLOCK_SIZE
      invariant i < |pl| + BLOCK_SIZE
      invariant forall b :: 0 <= b < |blocks| ==>
        blocks[b] == BlockMeta(pl[BlockEnd(b, |pl|) - 1].doc, WindowMax(w, b * BLOCK_SIZE, BlockEnd(b, |pl|)))
      decreases |pl| + BLOCK_SIZE - i
    {
      var end := if i + BLOCK_SIZE < |pl| then i + BLOCK_SIZE else |pl|;
      var bmax := 0.0;
      var j := i;
      while j < end
        invariant i <= j <= end
        invariant bmax == WindowMax(w, i, j)
      {
        if w[j] > bmax { bmax := w[j]; }
        j := j + 1;
      }
      assert end == BlockEnd(|blocks|, |pl|);
      blocks := blocks + [BlockMeta(pl[end - 1].doc, bmax)];
      i := i + BLOCK_SIZE;
    }
  }
}
