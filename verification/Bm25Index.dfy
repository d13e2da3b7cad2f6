/** The inverted index: adding documents, the derived tables, and every search path. */
module Bm25Index {
  import opened Arithmetic
  import opened Wrappers
  import opened TopK
  import opened ScoreHeap
  import opened Postings
  import opened Wand
  import opened Bm25Spec
  import opened Bm25Ranking

  /** An indexed document: its ordinal and the terms the tokenizer produced. */
  datatype Doc = Doc(id: nat, terms: seq<Term>)

  // ----- What the primary tables mean -----

  ghost predicate DistinctIds(added: seq<Doc>) {
    forall i, j :: 0 <= i < j < |added| ==> added[i].id != added[j].id
  }

  ghost function LengthsOf(added: seq<Doc>): map<nat, nat> {
    if added == [] then map[]
    else LengthsOf(added[..|added| - 1])[added[|added| - 1].id := |added[|added| - 1].terms|]
  }

  ghost function TotalLength(added: seq<Doc>): nat {
    if added == [] then 0 else TotalLength(added[..|added| - 1]) + |added[|added| - 1].terms|
  }

  /** The mean of n lengths with that total, 0 for none. */
  function Mean(total: nat, n: nat): real { if n == 0 then 0.0 else total as real / n as real }

  ghost predicate HasTf(a: Doc, d: nat, t: Term, f: nat) { a.id == d && Occurrences(a.terms, t) == f }

  /** p is the posting of term t for one of the documents. */
  ghost predicate IsPostingOf(p: Posting, t: Term, added: seq<Doc>) {
    p.tf > 0 && exists i :: 0 <= i < |added| && HasTf(added[i], p.doc, t, p.tf)
  }

  ghost predicate ListExact(pl: seq<Posting>, t: Term, added: seq<Doc>) {
    Ascending(pl) && forall p :: p in pl <==> IsPostingOf(p, t, added)
  }

  function ListFor(postings: map<Term, seq<Posting>>, t: Term): seq<Posting> {
    if t in postings then postings[t] else []
  }

  /** The primary tables hold exactly the counts of the added documents. */
  ghost predicate Indexes(postings: map<Term, seq<Posting>>, docLen: map<nat, nat>, totalLen: nat, added: seq<Doc>) {
    && DistinctIds(added)
    && (forall i :: 0 <= i < |added| ==> added[i].id < EXHAUSTED)
    && docLen == LengthsOf(added)
    && totalLen == TotalLength(added)
    && (forall t :: t in postings ==> postings[t] != [])
    && (forall t :: ListExact(ListFor(postings, t), t, added))
  }

  lemma {:induction false} LengthsOfAt(added: seq<Doc>)
    requires DistinctIds(added)
    ensures forall d :: d in LengthsOf(added) <==> exists i :: 0 <= i < |added| && added[i].id == d
    ensures forall i :: 0 <= i < |added| ==>
      added[i].id in LengthsOf(added) && LengthsOf(added)[added[i].id] == |added[i].terms|
  {
    if added != [] {
      LengthsOfAt(added[..|added| - 1]);
    }
  }

  lemma {:induction false} OccurrencesBound(terms: seq<Term>, t: Term)
    ensures Occurrences(terms, t) <= |terms|
    ensures t in terms <==> Occurrences(terms, t) > 0
  {
    if terms != [] {
      OccurrencesBound(terms[..|terms| - 1], t);
      assert terms == terms[..|terms| - 1] + [terms[|terms| - 1]];
    }
  }

  /** Every list built by `add` is one the scores are defined on. */
  lemma {:induction false} IndexedListsOk(postings: map<Term, seq<Posting>>, docLen: map<nat, nat>, totalLen: nat,
                                          added: seq<Doc>, t: Term)
    requires Indexes(postings, docLen, totalLen, added) && t in postings
    ensures ListOk(postings[t], docLen)
  {
    LengthsOfAt(added);
    var pl := postings[t];
    assert ListExact(ListFor(postings, t), t, added);
    forall i | 0 <= i < |pl|
      ensures pl[i].doc in docLen && docLen[pl[i].doc] > 0 && pl[i].tf > 0 && pl[i].doc < EXHAUSTED
    {
      assert pl[i] in pl;
      var n :| 0 <= n < |added| && HasTf(added[n], pl[i].doc, t, pl[i].tf);
      OccurrencesBound(added[n].terms, t);
    }
  }

  // ----- What a score says about the texts -----

  lemma {:induction false} OccurrencesCount(terms: seq<Term>, t: Term)
    ensures Occurrences(terms, t) == multiset(terms)[t]
  {
    if terms != [] {
      var r, last := terms[..|terms| - 1], terms[|terms| - 1];
      OccurrencesCount(r, t);
      assert terms == r + [last];
    }
  }

  /** The documents whose text holds the term. */
  ghost function Containing(added: seq<Doc>, t: Term): set<nat> { set a | a in added && t in a.terms :: a.id }

  lemma {:induction false} ListCountsTexts(pl: seq<Posting>, t: Term, added: seq<Doc>)
    requires ListExact(pl, t, added)
    ensures |pl| == |Containing(added, t)|
  {
    PostingDocsSize(pl);
    forall d ensures d in PostingDocs(pl) <==> d in Containing(added, t) {
      if d in PostingDocs(pl) {
        var i :| 0 <= i < |pl| && pl[i].doc == d;
        assert pl[i] in pl;
        var n :| 0 <= n < |added| && HasTf(added[n], d, t, pl[i].tf);
        OccurrencesBound(added[n].terms, t);
        assert added[n] in added;
      }
      if d in Containing(added, t) {
        var a :| a in added && t in a.terms && a.id == d;
        OccurrencesBound(a.terms, t);
        PostingOfText(pl, t, added, a);
      }
    }
    assert PostingDocs(pl) == Containing(added, t);
  }

  lemma {:induction false} PostingOfText(pl: seq<Posting>, t: Term, added: seq<Doc>, a: Doc)
    requires ListExact(pl, t, added) && a in added && Occurrences(a.terms, t) > 0
    ensures Posting(a.id, Occurrences(a.terms, t)) in pl && HasDoc(pl, a.id)
  {
    var p := Posting(a.id, Occurrences(a.terms, t));
    var n :| 0 <= n < |added| && added[n] == a;
    assert HasTf(added[n], p.doc, t, p.tf);
    assert p in pl;
  }

  /**
   * The score of a document for one term, from the texts alone: with f occurrences in its dl terms, N documents of which
   * n hold the term, and texts of avg terms on average, ln((N + 1) / (n + 1/2)) f (k1 + 1) / (f + k1 (1 - b + b dl / avg)).
   */
  lemma {:induction false} ScoreFromTexts(s: Stats, totalLen: nat, added: seq<Doc>, a: Doc, t: Term, avg: real)
    requires StatsOk(s) && Indexes(s.postings, s.docLen, totalLen, added) && s.avgdl == Mean(totalLen, |s.docLen|)
    requires a in added && t in a.terms && avg * |added| as real == TotalLength(added) as real
    ensures avg > 0.0
    ensures var f, dl, N, n := multiset(a.terms)[t] as real, |a.terms| as real, |added| as real, |Containing(added, t)| as real;
      (f + s.k1 * (1.0 - s.b + s.b * (dl / avg))) * Score(s, [t], a.id)
        == s.ln((N + 1.0) / (n + 0.5)) * (f * (s.k1 + 1.0))
  {
    hide StatsOk, Indexes, Mean, Saturation, Idf, Score, TermScore, TotalLength, Containing, Occurrences, Weight;
    AverageOfTexts(s, totalLen, added, a, avg);
    TextPosting(s, totalLen, added, a, t);
    OccurrencesCount(a.terms, t);
    IdfClosed(s.ln, |added|, |Containing(added, t)|);
    OneTerm(s, t, a.id);
    PostingShare(s, Posting(a.id, Occurrences(a.terms, t)), Idf(s.ln, |added|, |Containing(added, t)|), avg);
  }

  lemma {:induction false} PostingShare(s: Stats, p: Posting, idf: real, avg: real)
    requires StatsOk(s) && p.doc in s.docLen && p.tf > 0 && avg == Avg(s.avgdl)
    ensures (p.tf as real + s.k1 * (1.0 - s.b + s.b * (s.docLen[p.doc] as real / avg))) * (idf * Weight(s, p))
         == idf * (p.tf as real * (s.k1 + 1.0))
  {
    hide Saturation;
    StatsBounds(s);
    hide StatsOk;
    SaturationClosed(s.k1, s.b, avg, p.tf, s.docLen[p.doc] as real);
    Commute(p.tf as real + Damping(s.k1, s.b, avg, s.docLen[p.doc] as real), idf, Weight(s, p));
  }

  lemma {:induction false} OneTerm(s: Stats, t: Term, d: nat)
    requires StatsOk(s)
    ensures Score(s, [t], d) == TermScore(s, t, d)
  {
    hide TermScore, StatsOk;
    assert [t][..0] == [];
  }

  lemma {:induction false} StatsBounds(s: Stats)
    requires StatsOk(s)
    ensures s.k1 >= 0.0 && 0.0 <= s.b <= 1.0
  {}

  lemma {:induction false} Commute(x: real, y: real, z: real)
    ensures x * (y * z) == y * (x * z)
  {}

  lemma {:induction false} AverageOfTexts(s: Stats, totalLen: nat, added: seq<Doc>, a: Doc, avg: real)
    requires Indexes(s.postings, s.docLen, totalLen, added) && s.avgdl == Mean(totalLen, |s.docLen|)
    requires a in added && a.terms != [] && avg * |added| as real == TotalLength(added) as real
    ensures |s.docLen| == |added| && avg == s.avgdl == Avg(s.avgdl) > 0.0
  {
    hide Indexes, LengthsOf, TotalLength, DistinctIds;
    IndexedLengths(s.postings, s.docLen, totalLen, added);
    LengthsOfSize(added);
    LengthInTotal(added, a);
    SameQuotient(avg, totalLen as real, |added| as real);
  }

  lemma {:induction false} SameQuotient(x: real, y: real, n: real)
    requires n > 0.0 && y > 0.0 && x * n == y
    ensures x == y / n > 0.0
  {}

  lemma {:induction false} LengthsOfSize(added: seq<Doc>)
    requires DistinctIds(added)
    ensures |LengthsOf(added)| == |added|
  {
    if added != [] {
      var r, last := added[..|added| - 1], added[|added| - 1];
      LengthsOfSize(r);
      LengthsOfAt(r);
      assert last.id !in LengthsOf(r);
    }
  }

  lemma {:induction false} LengthInTotal(added: seq<Doc>, a: Doc)
    requires a in added
    ensures |a.terms| <= TotalLength(added)
  {
    var r, last := added[..|added| - 1], added[|added| - 1];
    assert added == r + [last];
    if a != last { LengthInTotal(r, a); }
  }

  /** A term's share in the score of a text that holds it, through that text's own posting. */
  lemma {:induction false} TextPosting(s: Stats, totalLen: nat, added: seq<Doc>, a: Doc, t: Term)
    requires StatsOk(s) && Indexes(s.postings, s.docLen, totalLen, added) && a in added && t in a.terms
    ensures Occurrences(a.terms, t) > 0 && a.id in s.docLen && s.docLen[a.id] == |a.terms|
    ensures TermScore(s, t, a.id)
         == Idf(s.ln, |s.docLen|, |Containing(added, t)|) * Weight(s, Posting(a.id, Occurrences(a.terms, t)))
  {
    hide Idf, Saturation, Containing, LengthsOf, TotalLength;
    OccurrencesBound(a.terms, t);
    LengthsOfAt(added);
    var pl := ListFor(s.postings, t);
    PostingOfText(pl, t, added, a);
    ListCountsTexts(pl, t, added);
    var p := pl[IndexOf(pl, a.id)];
    assert p in pl;
    var n :| 0 <= n < |added| && HasTf(added[n], a.id, t, p.tf);
    assert added[n] == a;
    assert p == Posting(a.id, Occurrences(a.terms, t));
  }

  // ----- Loops over plain values -----

  /** Term frequencies of one document, or of a query. */
  method CountTerms(terms: seq<Term>) returns (tf: map<Term, nat>)
    ensures forall t :: t in tf <==> t in terms
    ensures forall t :: t in tf <==> Occurrences(terms, t) > 0
    ensures forall t :: t in tf ==> tf[t] == Occurrences(terms, t)
  {
    tf := map[];
    for i := 0 to |terms|
      invariant forall t :: t in tf <==> t in terms[..i]
      invariant forall t :: t in tf ==> tf[t] == Occurrences(terms[..i], t)
    {
      assert terms[..i + 1] == terms[..i] + [terms[i]];
      assert terms[..i + 1][..i] == terms[..i];
      OccurrencesBound(terms[..i], terms[i]);
      tf := tf[terms[i] := (if terms[i] in tf then tf[terms[i]] else 0) + 1];
    }
    assert terms[..|terms|] == terms;
    forall t ensures t in tf <==> Occurrences(terms, t) > 0 { OccurrencesBound(terms, t); }
  }

  /** std::lower_bound on the document id. */
  method LowerBound(pl: seq<Posting>, d: nat) returns (at: nat)
    requires Ascending(pl)
    ensures at <= |pl|
    ensures forall i :: 0 <= i < at ==> pl[i].doc < d
    ensures forall i :: at <= i < |pl| ==> d <= pl[i].doc
  {
    var lo, hi := 0, |pl|;
    while lo < hi
      invariant 0 <= lo <= hi <= |pl|
      invariant forall i :: 0 <= i < lo ==> pl[i].doc < d
      invariant forall i :: hi <= i < |pl| ==> d <= pl[i].doc
    {
      var mid := (lo + hi) / 2;
      if pl[mid].doc < d {
        lo := mid + 1;
      } else {
        hi := mid;
      }
    }
    at := lo;
  }

  /** Insert a posting at its place, or overwrite the document's old frequency. */
  method InsertPosting(pl: seq<Posting>, p: Posting) returns (r: seq<Posting>)
    requires Ascending(pl)
    ensures Ascending(r) && r != []
    ensures forall x :: x in r <==> x == p || (x in pl && x.doc != p.doc)
  {
    var at := LowerBound(pl, p.doc);
    if at < |pl| && pl[at].doc == p.doc {
      r := pl[at := p];
      forall x ensures x in r <==> x == p || (x in pl && x.doc != p.doc) {
        if x in pl && x.doc != p.doc {
          var i :| 0 <= i < |pl| && pl[i] == x;
          assert r[i] == x;
        }
        assert r[at] == p;
      }
    } else {
      r := pl[..at] + [p] + pl[at..];
      SplicedIn(pl, at, p);
    }
  }

  lemma {:induction false} SplicedIn(pl: seq<Posting>, at: nat, p: Posting)
    requires at <= |pl| && Ascending(pl)
    requires forall i :: 0 <= i < at ==> pl[i].doc < p.doc
    requires forall i :: at <= i < |pl| ==> p.doc < pl[i].doc
    ensures Ascending(pl[..at] + [p] + pl[at..])
    ensures forall x :: x in pl[..at] + [p] + pl[at..] <==> x == p || (x in pl && x.doc != p.doc)
  {
    var r := pl[..at] + [p] + pl[at..];
    forall x ensures x in r <==> x == p || (x in pl && x.doc != p.doc) {
      SplicedMember(pl, at, p, x);
    }
    SplicedAscends(pl, at, p);
  }

  lemma {:induction false} SplicedMember(pl: seq<Posting>, at: nat, p: Posting, x: Posting)
    requires at <= |pl|
    requires forall i :: 0 <= i < |pl| ==> pl[i].doc != p.doc
    ensures x in pl[..at] + [p] + pl[at..] <==> x == p || (x in pl && x.doc != p.doc)
  {
    assert pl == pl[..at] + pl[at..];
    assert x in pl <==> x in pl[..at] || x in pl[at..];
  }

  lemma {:induction false} SplicedAscends(pl: seq<Posting>, at: nat, p: Posting)
    requires at <= |pl| && Ascending(pl)
    requires forall i :: 0 <= i < at ==> pl[i].doc < p.doc
    requires forall i :: at <= i < |pl| ==> p.doc < pl[i].doc
    ensures Ascending(pl[..at] + [p] + pl[at..])
  {
    var r := pl[..at] + [p] + pl[at..];
    forall i, j | 0 <= i < j < |r| ensures r[i].doc < r[j].doc {
      assert r[i] == if i < at then pl[i] else if i == at then p else pl[i - 1];
      assert r[j] == if j < at then pl[j] else if j == at then p else pl[j - 1];
    }
  }

  method MaxDoc(docLen: map<nat, nat>) returns (m: nat)
    ensures forall d :: d in docLen ==> d <= m
    ensures m == 0 || m in docLen
  {
    m := 0;
    var rest := docLen.Keys;
    while rest != {}
      invariant rest <= docLen.Keys
      invariant forall d :: d in docLen && d !in rest ==> d <= m
      invariant m == 0 || m in docLen
      decreases |rest|
    {
      var d :| d in rest;
      if d > m { m := d; }
      rest := rest - {d};
    }
  }

  /** The dense mirror of the document lengths, with 0 for ordinals that are not used. */
  method DenseLengths(docLen: map<nat, nat>, maxDoc: nat) returns (dense: seq<nat>)
    requires forall d :: d in docLen ==> d <= maxDoc
    ensures |dense| == maxDoc + 1
    ensures forall d :: 0 <= d <= maxDoc ==> dense[d] == if d in docLen then docLen[d] else 0
  {
    var a := new nat[maxDoc + 1](_ => 0);
    var rest := docLen.Keys;
    while rest != {}
      invariant rest <= docLen.Keys
      invariant forall d :: 0 <= d <= maxDoc ==> a[d] == if d in docLen && d !in rest then docLen[d] else 0
      decreases |rest|
    {
      var d :| d in rest;
      a[d] := docLen[d];
      rest := rest - {d};
    }
    dense := a[..];
  }

  // ----- The derived tables -----

  /** w holds the weight of every posting. */
  ghost predicate WeightsOf(s: Stats, pl: seq<Posting>, w: seq<real>)
    requires StatsOk(s) && ListOk(pl, s.docLen)
  {
    |w| == |pl| && forall i :: 0 <= i < |pl| ==> w[i] == Weight(s, pl[i])
  }

  ghost predicate SpanOk(s: Stats, pw: seq<real>, span: (nat, nat), t: Term)
    requires StatsOk(s) && t in s.postings
  {
    span.0 <= span.1 <= |pw| && WeightsOf(s, s.postings[t], pw[span.0..span.1])
  }

  /** The block metadata describes the term's weights. */
  ghost predicate MetaOk(s: Stats, pw: seq<real>, span: (nat, nat), blocks: seq<BlockMeta>, t: Term)
    requires StatsOk(s) && t in s.postings
  {
    SpanOk(s, pw, span, t) && Describes(blocks, s.postings[t], pw[span.0..span.1])
  }

  ghost predicate DenseOk(s: Stats, dense: seq<nat>) {
    dense != [] ==> forall t, i :: t in s.postings && 0 <= i < |s.postings[t]| ==>
      s.postings[t][i].doc < |dense| && s.postings[t][i].doc in s.docLen
      && dense[s.postings[t][i].doc] == s.docLen[s.postings[t][i].doc]
  }

  /** The tables `finalize` derives agree with the primary ones. */
  ghost predicate Derived(s: Stats, dense: seq<nat>, pw: seq<real>, pwSpan: map<Term, (nat, nat)>,
                          blockMeta: map<Term, seq<BlockMeta>>)
    requires StatsOk(s)
  {
    && DenseOk(s, dense)
    && pwSpan.Keys == s.postings.Keys && blockMeta.Keys == s.postings.Keys
    && (forall t :: t in s.postings ==> MetaOk(s, pw, pwSpan[t], blockMeta[t], t))
  }

  /** The length a posting's document is scored with: dense mirror first, then the map, then the average. */
  function LengthRead(dense: seq<nat>, docLen: map<nat, nat>, avg: real, d: nat): real {
    if dense != [] && d < |dense| then (if dense[d] != 0 then dense[d] as real else avg)
    else if d in docLen then docLen[d] as real else avg
  }

  lemma {:induction false} ReciprocalDivision(x: real, b: real, y: real)
    requires y > 0.0
    ensures b * x * (1.0 / y) == b * (x / y)
  {}

  /** One posting's weight, computed as finalize() does. */
  method WeightOf(ghost s: Stats, k1: real, b: real, avg: real, dl: real, p: Posting) returns (w: real)
    requires StatsOk(s) && k1 == s.k1 && b == s.b && avg == Avg(s.avgdl)
    requires p.tf > 0 && p.doc in s.docLen && dl == s.docLen[p.doc] as real
    ensures w == Weight(s, p) > 0.0
  {
    var f := p.tf as real;
    var num := f * (k1 + 1.0);
    var den := f + k1 * (1.0 - b + b * dl * (1.0 / avg));
    ReciprocalDivision(dl, b, avg);
    DenominatorPositive(k1, b, dl / avg, f);
    w := if den > 0.0 then num / den else 0.0;
  }

  method ListWeights(ghost s: Stats, k1: real, b: real, avg: real, dense: seq<nat>, docLen: map<nat, nat>,
                     pl: seq<Posting>) returns (w: seq<real>)
    requires StatsOk(s) && k1 == s.k1 && b == s.b && avg == Avg(s.avgdl) && docLen == s.docLen
    requires ListOk(pl, docLen)
    requires dense != [] ==> forall i :: 0 <= i < |pl| ==> pl[i].doc < |dense| && dense[pl[i].doc] == docLen[pl[i].doc]
    ensures WeightsOf(s, pl, w)
  {
    w := [];
    for i := 0 to |pl|
      invariant |w| == i
      invariant forall j :: 0 <= j < i ==> w[j] == Weight(s, pl[j])
    {
      var x := WeightOf(s, k1, b, avg, LengthRead(dense, docLen, avg, pl[i].doc), pl[i]);
      w := w + [x];
    }
  }

  // ----- Adding a document -----

  lemma {:induction false} IsPostingOfSnoc(p: Posting, t: Term, added: seq<Doc>, a: Doc)
    ensures IsPostingOf(p, t, added + [a]) <==> IsPostingOf(p, t, added) || (p.tf > 0 && HasTf(a, p.doc, t, p.tf))
  {
    var more := added + [a];
    assert more[|added|] == a;
    assert forall i :: 0 <= i < |added| ==> more[i] == added[i];
  }

  /** The lists after the insertion loop of `add` index one more document. */
  lemma {:induction false} AddIndexes(before: map<Term, seq<Posting>>, after: map<Term, seq<Posting>>,
                                      docLen: map<nat, nat>, totalLen: nat, added: seq<Doc>, a: Doc)
    requires Indexes(before, docLen, totalLen, added)
    requires a.id !in docLen && a.id < EXHAUSTED
    requires forall t :: t in after ==> after[t] != []
    requires forall t :: Overwritten(ListFor(before, t), ListFor(after, t), a, t)
    ensures Indexes(after, docLen[a.id := |a.terms|], totalLen + |a.terms|, added + [a])
  {
    hide ListExact, Overwritten;
    var more := added + [a];
    assert more[..|added|] == added;
    StillDistinct(added, a);
    forall t ensures ListExact(ListFor(after, t), t, more) {
      OverwrittenIsExact(ListFor(before, t), ListFor(after, t), added, a, t);
    }
  }

  lemma {:induction false} StillDistinct(added: seq<Doc>, a: Doc)
    requires DistinctIds(added) && a.id !in LengthsOf(added)
    ensures DistinctIds(added + [a]) && forall i :: 0 <= i < |added| ==> added[i].id != a.id
  {
    LengthsOfAt(added);
    hide LengthsOf;
    var more := added + [a];
    assert forall i :: 0 <= i < |added| ==> more[i] == added[i];
  }

  /** The document's posting is in, an older one of the document out, if the term occurs in its text. */
  ghost predicate Overwritten(before: seq<Posting>, after: seq<Posting>, a: Doc, t: Term) {
    && Ascending(after)
    && forall p :: p in after <==>
         if Occurrences(a.terms, t) > 0 && p.doc == a.id then p.tf == Occurrences(a.terms, t) else p in before
  }

  lemma {:induction false} OverwrittenIsExact(before: seq<Posting>, after: seq<Posting>, added: seq<Doc>, a: Doc, t: Term)
    requires ListExact(before, t, added) && Overwritten(before, after, a, t)
    requires forall i :: 0 <= i < |added| ==> added[i].id != a.id
    ensures ListExact(after, t, added + [a])
  {
    forall p ensures p in after <==> IsPostingOf(p, t, added + [a]) {
      IsPostingOfSnoc(p, t, added, a);
    }
  }

  // ----- Adding an id again -----

  /** The documents other than the one with this id. */
  ghost function Others(added: seq<Doc>, id: nat): (r: seq<Doc>)
    ensures forall d :: d in r <==> d in added && d.id != id
  {
    if added == [] then []
    else
      var last, rest := added[|added| - 1], added[..|added| - 1];
      assert added == rest + [last];
      Others(rest, id) + if last.id == id then [] else [last]
  }

  lemma {:induction false} DocSnoc(rest: seq<Doc>, x: Doc, id: nat)
    ensures LengthsOf(rest + [x]) == LengthsOf(rest)[x.id := |x.terms|]
    ensures TotalLength(rest + [x]) == TotalLength(rest) + |x.terms|
    ensures Others(rest + [x], id) == Others(rest, id) + if x.id == id then [] else [x]
  {
    assert (rest + [x])[..|rest|] == rest;
  }

  lemma {:induction false} OthersKeep(added: seq<Doc>, id: nat)
    requires DistinctIds(added)
    ensures DistinctIds(Others(added, id)) && LengthsOf(Others(added, id)) == LengthsOf(added) - {id}
    ensures var len := if id in LengthsOf(added) then LengthsOf(added)[id] else 0;
      TotalLength(added) == TotalLength(Others(added, id)) + len
    ensures id !in LengthsOf(added) ==> Others(added, id) == added
  {
    if added != [] {
      hide DistinctIds, LengthsOf, TotalLength, Others;
      var last, rest := added[|added| - 1], added[..|added| - 1];
      assert added == rest + [last];
      LastIsNew(rest, last);
      OthersKeep(rest, id);
      DocSnoc(rest, last, id);
      DropThenSet(LengthsOf(rest), last.id, |last.terms|, id);
      if last.id == id {
        assert Others(rest, id) + [] == Others(rest, id);
      } else {
        DocSnoc(Others(rest, id), last, id);
        StillDistinct(Others(rest, id), last);
      }
    }
  }

  lemma {:induction false} DropThenSet(m: map<nat, nat>, k: nat, v: nat, id: nat)
    requires k !in m
    ensures m[k := v] - {id} == if k == id then m else (m - {id})[k := v]
  {}

  lemma {:induction false} LastIsNew(rest: seq<Doc>, last: Doc)
    requires DistinctIds(rest + [last])
    ensures DistinctIds(rest) && last.id !in LengthsOf(rest)
  {
    var added := rest + [last];
    assert forall i :: 0 <= i < |rest| ==> added[i] == rest[i];
    forall i | 0 <= i < |rest| ensures rest[i].id != last.id {
      assert added[i].id != added[|rest|].id;
    }
    LengthsOfAt(rest);
  }

  lemma {:induction false} PostingOfOthers(added: seq<Doc>, id: nat, t: Term, p: Posting)
    requires forall d :: d in added && d.id == id ==> d.terms == []
    ensures IsPostingOf(p, t, Others(added, id)) <==> IsPostingOf(p, t, added)
  {
    var r := Others(added, id);
    hide Others, Occurrences;
    if IsPostingOf(p, t, r) {
      var i :| 0 <= i < |r| && HasTf(r[i], p.doc, t, p.tf);
      assert r[i] in r;
      var j :| 0 <= j < |added| && added[j] == r[i];
      assert HasTf(added[j], p.doc, t, p.tf);
    }
    if IsPostingOf(p, t, added) {
      var j :| 0 <= j < |added| && HasTf(added[j], p.doc, t, p.tf);
      assert added[j] in added;
      OccurrencesBound(added[j].terms, t);
      assert added[j] in r;
      var i :| 0 <= i < |r| && r[i] == added[j];
      assert HasTf(r[i], p.doc, t, p.tf);
    }
  }

  lemma {:induction false} EmptyTexts(added: seq<Doc>, id: nat)
    requires DistinctIds(added) && (id in LengthsOf(added) ==> LengthsOf(added)[id] == 0)
    ensures forall d :: d in added && d.id == id ==> d.terms == []
  {
    LengthsOfAt(added);
  }

  /** A document without terms has no postings, so the lists are exact without it as well. */
  lemma {:induction false} WithoutEmpty(postings: map<Term, seq<Posting>>, docLen: map<nat, nat>, totalLen: nat,
                                        added: seq<Doc>, id: nat)
    requires Indexes(postings, docLen, totalLen, added) && (id in docLen ==> docLen[id] == 0)
    ensures Indexes(postings, docLen - {id}, totalLen, Others(added, id))
  {
    hide LengthsOf, TotalLength, DistinctIds, IsPostingOf, Others;
    var r := Others(added, id);
    OthersKeep(added, id);
    EmptyTexts(added, id);
    forall i | 0 <= i < |r| ensures r[i].id < EXHAUSTED {
      assert r[i] in r && r[i] in added;
    }
    forall t ensures ListExact(ListFor(postings, t), t, r) {
      assert ListExact(ListFor(postings, t), t, added);
      forall p ensures IsPostingOf(p, t, r) <==> IsPostingOf(p, t, added) { PostingOfOthers(added, id, t, p); }
    }
  }

  lemma {:induction false} IndexedLengths(postings: map<Term, seq<Posting>>, docLen: map<nat, nat>, totalLen: nat,
                                          added: seq<Doc>)
    requires Indexes(postings, docLen, totalLen, added)
    ensures DistinctIds(added) && docLen == LengthsOf(added) && totalLen == TotalLength(added)
  {}

  /**
   * Adding an id again overwrites its postings term by term and adds its length on top. The tables then index the
   * documents, the new text in place of the old one, if and only if the id was unused or its old text was empty.
   */
  lemma {:induction false} AddIsExactIffUnused(before: map<Term, seq<Posting>>, after: map<Term, seq<Posting>>,
                                               docLen: map<nat, nat>, totalLen: nat, added: seq<Doc>, a: Doc)
    requires Indexes(before, docLen, totalLen, added) && a.id < EXHAUSTED
    requires forall t :: t in after ==> after[t] != []
    requires forall t :: Overwritten(ListFor(before, t), ListFor(after, t), a, t)
    ensures Indexes(after, docLen[a.id := |a.terms|], totalLen + |a.terms|, Others(added, a.id) + [a])
      <==> (a.id in docLen ==> docLen[a.id] == 0)
  {
    hide Indexes, DistinctIds, LengthsOf, TotalLength, Others, Overwritten;
    var r := Others(added, a.id);
    IndexedLengths(before, docLen, totalLen, added);
    OthersKeep(added, a.id);
    DocSnoc(r, a, a.id);
    if a.id in docLen ==> docLen[a.id] == 0 {
      WithoutEmpty(before, docLen, totalLen, added, a.id);
      AddIndexes(before, after, docLen - {a.id}, totalLen, r, a);
      assert (docLen - {a.id})[a.id := |a.terms|] == docLen[a.id := |a.terms|];
    } else if Indexes(after, docLen[a.id := |a.terms|], totalLen + |a.terms|, r + [a]) {
      IndexedLengths(after, docLen[a.id := |a.terms|], totalLen + |a.terms|, r + [a]);
      assert false;
    }
  }

  // ----- The accumulators of the exhaustive paths -----

  /** The share of one posting list in the score of d, given per-posting contributions. */
  ghost function ListShare(s: Stats, pl: seq<Posting>, idf: real, n: nat, d: nat): real
    requires StatsOk(s) && ListOk(pl, s.docLen) && n <= |pl|
  {
    if HasDoc(pl, d) && IndexOf(pl, d) < n then idf * Weight(s, pl[IndexOf(pl, d)]) else 0.0
  }

  lemma {:induction false} ListShareStep(s: Stats, pl: seq<Posting>, idf: real, n: nat, d: nat)
    requires StatsOk(s) && ListOk(pl, s.docLen) && n < |pl|
    ensures ListShare(s, pl, idf, n + 1, d)
         == ListShare(s, pl, idf, n, d) + if pl[n].doc == d then idf * Weight(s, pl[n]) else 0.0
  {
    if HasDoc(pl, d) {
      var i := IndexOf(pl, d);
      assert pl[n].doc == d ==> i == n;
    }
  }

  /** `touched` lists each ordinal with a non-zero accumulator once. */
  ghost predicate TouchedOk(acc: seq<real>, touched: seq<nat>) {
    && (forall i :: 0 <= i < |touched| ==> touched[i] < |acc| && acc[touched[i]] > 0.0)
    && (forall i, j :: 0 <= i < j < |touched| ==> touched[i] != touched[j])
    && (forall d :: 0 <= d < |acc| ==> acc[d] >= 0.0 && (acc[d] > 0.0 ==> d in touched))
  }

  lemma {:induction false} ListShareStepAll(s: Stats, pl: seq<Posting>, idf: real, n: nat)
    requires StatsOk(s) && ListOk(pl, s.docLen) && n < |pl|
    ensures forall d: nat :: (ListShare(s, pl, idf, n + 1, d)
      == ListShare(s, pl, idf, n, d) + if pl[n].doc == d then idf * Weight(s, pl[n]) else 0.0)
  {
    forall d: nat
      ensures ListShare(s, pl, idf, n + 1, d)
           == ListShare(s, pl, idf, n, d) + if pl[n].doc == d then idf * Weight(s, pl[n]) else 0.0
    {
      ListShareStep(s, pl, idf, n, d);
    }
  }

  /** Add x to one accumulator, noting the ordinal the first time. */
  method Bump(acc: array<real>, before: seq<nat>, d: nat, x: real) returns (touched: seq<nat>)
    requires d < acc.Length && x > 0.0 && TouchedOk(acc[..], before)
    modifies acc
    ensures TouchedOk(acc[..], touched)
    ensures acc[..] == old(acc[..])[d := old(acc[d]) + x]
  {
    touched := before;
    if acc[d] == 0.0 {
      touched := touched + [d];
      assert touched[|before|] == d;
    }
    assert forall e :: e in before ==> e in touched;
    acc[d] := acc[d] + x;
  }

  /** One query term's pass over its postings (the precomputed-weight path). */
  method AccumulateDense(acc: array<real>, before: seq<nat>, ghost s: Stats, pl: seq<Posting>, w: seq<real>, idf: real)
    returns (touched: seq<nat>)
    requires StatsOk(s) && ListOk(pl, s.docLen) && WeightsOf(s, pl, w) && idf > 0.0
    requires forall i :: 0 <= i < |pl| ==> pl[i].doc < acc.Length
    requires TouchedOk(acc[..], before)
    modifies acc
    ensures TouchedOk(acc[..], touched)
    ensures forall d :: 0 <= d < acc.Length ==> acc[d] == old(acc[d]) + ListShare(s, pl, idf, |pl|, d)
  {
    hide ListShare, Weight, StatsOk, TouchedOk;
    touched := before;
    ListShareNone(s, pl, idf);
    for i := 0 to |pl|
      invariant TouchedOk(acc[..], touched)
      invariant forall d :: 0 <= d < acc.Length ==> acc[d] == old(acc[d]) + ListShare(s, pl, idf, i, d)
    {
      ListShareStepAll(s, pl, idf, i);
      WeightPositive(s, pl[i]);
      ProductPositive(idf, w[i]);
      touched := Bump(acc, touched, pl[i].doc, idf * w[i]);
    }
  }

  /** One query term's pass over its postings (the paths that recompute each weight). */
  method AccumulateMap(before: map<nat, real>, ghost s: Stats, pl: seq<Posting>, w: seq<real>, idf: real)
    returns (acc: map<nat, real>)
    requires StatsOk(s) && ListOk(pl, s.docLen) && WeightsOf(s, pl, w) && idf > 0.0
    requires forall d :: d in before ==> before[d] > 0.0
    ensures forall d :: d in acc ==> acc[d] > 0.0
    ensures forall d: nat :: ValueOf(acc, d) == ValueOf(before, d) + ListShare(s, pl, idf, |pl|, d)
  {
    hide ListShare, Weight, StatsOk;
    acc := before;
    ListShareNone(s, pl, idf);
    for i := 0 to |pl|
      invariant forall d :: d in acc ==> acc[d] > 0.0
      invariant forall d: nat :: ValueOf(acc, d) == ValueOf(before, d) + ListShare(s, pl, idf, i, d)
    {
      WeightPositive(s, pl[i]);
      ProductPositive(idf, w[i]);
      ListShareStepAll(s, pl, idf, i);
      acc := BumpIn(acc, pl[i].doc, idf * w[i]);
    }
  }

  lemma {:induction false} ListShareNone(s: Stats, pl: seq<Posting>, idf: real)
    requires StatsOk(s) && ListOk(pl, s.docLen)
    ensures forall d: nat :: ListShare(s, pl, idf, 0, d) == 0.0
  {}

  /** Add x to one entry, which starts at 0. */
  method BumpIn(before: map<nat, real>, d: nat, x: real) returns (acc: map<nat, real>)
    requires x > 0.0 && forall e :: e in before ==> before[e] > 0.0
    ensures forall e :: e in acc ==> acc[e] > 0.0
    ensures forall e: nat :: ValueOf(acc, e) == ValueOf(before, e) + if e == d then x else 0.0
  {
    acc := before[d := ValueOf(before, d) + x];
  }

  function ValueOf(m: map<nat, real>, d: nat): real { if d in m then m[d] else 0.0 }

  lemma {:induction false} ListShareIsTermScore(s: Stats, t: Term, d: nat)
    requires StatsOk(s) && t in s.postings
    ensures ListShare(s, s.postings[t], Idf(s.ln, |s.docLen|, |s.postings[t]|), |s.postings[t]|, d) == TermScore(s, t, d)
  {}

  lemma {:induction false} ScorePrefix(s: Stats, q: seq<Term>, j: nat, d: nat)
    requires StatsOk(s) && j < |q|
    ensures Score(s, q[..j + 1], d) == Score(s, q[..j], d) + TermScore(s, q[j], d)
  {
    assert q[..j + 1][..j] == q[..j];
  }

  /** Rank a complete account of the positive scores and keep the best k. */
  method BestOf(all: seq<Hit>, k: nat, ghost scores: map<nat, real>) returns (hits: seq<Hit>)
    requires DistinctDocs(all) && ExactScores(all, scores)
    requires forall d :: d in scores ==> Listed(all, d)
    ensures IsTopK(hits, scores, k)
  {
    var sorted := SortHits(all);
    forall i | 0 <= i < |sorted| ensures sorted[i].doc in scores && sorted[i].score == scores[sorted[i].doc] {
      assert sorted[i] in all;
    }
    forall d | d in scores ensures Listed(sorted, d) {
      var i :| 0 <= i < |all| && all[i].doc == d;
      assert all[i] in sorted;
    }
    PrefixIsTopK(sorted, scores, k);
    hits := sorted[..Min(k, |sorted|)];
  }

  // ----- Cursors for the pruned path -----

  /** A cursor at the start of a term's postings, its query frequency folded into idf. */
  method StartCursor(pl: seq<Posting>, blocks: seq<BlockMeta>, w: seq<real>, idf: real) returns (c: Cursor)
    requires pl != [] && Ascending(pl) && Describes(blocks, pl, w) && idf > 0.0
    requires forall j :: 0 <= j < |pl| ==> pl[j].doc < EXHAUSTED && w[j] > 0.0
    ensures CursorOk(c) && c.i == 0
    ensures c.post == pl && c.w == w && c.idf == idf
  {
    hide Describes, Ascending;
    var gmax := LargestBlock(blocks);
    c := Cursor(pl, blocks, w, idf, idf * gmax, 0, pl[0].doc);
    hide CursorOk;
    TermMaxBounds(c, gmax);
  }

  method LargestBlock(blocks: seq<BlockMeta>) returns (gmax: real)
    ensures forall b :: 0 <= b < |blocks| ==> blocks[b].maxPw <= gmax
  {
    gmax := 0.0;
    for b := 0 to |blocks|
      invariant forall a :: 0 <= a < b ==> blocks[a].maxPw <= gmax
    {
      if blocks[b].maxPw > gmax { gmax := blocks[b].maxPw; }
    }
  }

  lemma {:induction false} TermMaxBounds(c: Cursor, gmax: real)
    requires c.post != [] && Ascending(c.post) && Describes(c.blocks, c.post, c.w) && c.idf > 0.0
    requires forall j :: 0 <= j < |c.post| ==> c.post[j].doc < EXHAUSTED && c.w[j] > 0.0
    requires forall b :: 0 <= b < |c.blocks| ==> c.blocks[b].maxPw <= gmax
    requires c.termMax == c.idf * gmax && c.i == 0 && c.doc == c.post[0].doc
    ensures CursorOk(c)
  {
    forall j | 0 <= j < |c.w| ensures 0.0 < c.idf * c.w[j] <= c.termMax {
      WeightBounded(c, gmax, j);
    }
  }

  lemma {:induction false} WeightBounded(c: Cursor, gmax: real, j: nat)
    requires Describes(c.blocks, c.post, c.w) && c.idf > 0.0 && j < |c.post| && c.w[j] > 0.0
    requires forall b :: 0 <= b < |c.blocks| ==> c.blocks[b].maxPw <= gmax
    ensures 0.0 < c.idf * c.w[j] <= c.idf * gmax
  {
    BlockMaxBounds(c.blocks, c.post, c.w, j);
    hide Describes;
    assert c.w[j] <= c.blocks[j / BLOCK_SIZE].maxPw <= gmax;
    ProductPositive(c.idf, c.w[j]);
    TimesMono(c.idf, c.w[j], gmax);
  }

  /** A cursor contributes the term's score once per occurrence in the query. */
  lemma {:induction false} CursorShare(s: Stats, t: Term, c: Cursor, freq: nat, d: nat)
    requires StatsOk(s) && t in s.postings && c.post == s.postings[t] && WeightsOf(s, c.post, c.w)
    requires c.idf == Idf(s.ln, |s.docLen|, |c.post|) * freq as real
    ensures Contrib(c, d) == freq as real * TermScore(s, t, d)
  {
    if HasDoc(c.post, d) {
      Reassociate(Idf(s.ln, |s.docLen|, |c.post|), freq as real, c.w[IndexOf(c.post, d)]);
    }
  }

  lemma {:induction false} Reassociate(x: real, f: real, y: real)
    ensures x * f * y == f * (x * y)
  {}

  // ----- The passes of add and finalize over the whole vocabulary -----

  /** Insert the document's posting into the list of each of its terms. */
  method InsertLists(before: map<Term, seq<Posting>>, tf: map<Term, nat>, id: nat, ghost a: Doc)
    returns (postings: map<Term, seq<Posting>>)
    requires forall t :: Ascending(ListFor(before, t))
    requires (forall t :: t in before ==> before[t] != []) && id == a.id
    requires forall t :: t in tf <==> Occurrences(a.terms, t) > 0
    requires forall t :: t in tf ==> tf[t] == Occurrences(a.terms, t)
    ensures forall t :: t in postings ==> postings[t] != []
    ensures forall t :: Overwritten(ListFor(before, t), ListFor(postings, t), a, t)
  {
    hide Overwritten, Ascending, Occurrences;
    postings := before;
    var rest := tf.Keys;
    while rest != {}
      invariant rest <= tf.Keys
      invariant forall t :: t in postings ==> postings[t] != []
      invariant forall t :: t in rest || t !in tf ==> ListFor(postings, t) == ListFor(before, t)
      invariant forall t :: t in tf && t !in rest ==> Overwritten(ListFor(before, t), ListFor(postings, t), a, t)
      decreases |rest|
    {
      var t :| t in rest;
      var pl := InsertOne(ListFor(postings, t), t, tf[t], id, a);
      postings := postings[t := pl];
      rest := rest - {t};
    }
    forall t | t !in tf ensures Overwritten(ListFor(before, t), ListFor(postings, t), a, t) {
      UntouchedList(ListFor(before, t), t, a);
    }
  }

  /** The term-counting half of add. */
  method InsertDocument(before: map<Term, seq<Posting>>, ghost docLen: map<nat, nat>, ghost totalLen: nat,
                        ghost added: seq<Doc>, id: nat, terms: seq<Term>)
    returns (postings: map<Term, seq<Posting>>)
    requires Indexes(before, docLen, totalLen, added) && id < EXHAUSTED
    ensures forall t :: Overwritten(ListFor(before, t), ListFor(postings, t), Doc(id, terms), t)
    ensures forall t :: t in postings ==> postings[t] != []
    ensures Indexes(postings, docLen[id := |terms|], totalLen + |terms|, Others(added, id) + [Doc(id, terms)])
      <==> (id in docLen ==> docLen[id] == 0)
    ensures (id in docLen ==> docLen[id] == 0) ==>
      forall t :: t in postings ==> ListOk(postings[t], docLen[id := |terms|])
  {
    ghost var a := Doc(id, terms);
    var tf := CountTerms(terms);
    forall t ensures Ascending(ListFor(before, t)) { assert ListExact(ListFor(before, t), t, added); }
    postings := InsertLists(before, tf, id, a);
    hide Indexes;
    AddIsExactIffUnused(before, postings, docLen, totalLen, added, a);
    if id in docLen ==> docLen[id] == 0 {
      forall t | t in postings ensures ListOk(postings[t], docLen[id := |terms|]) {
        IndexedListsOk(postings, docLen[id := |terms|], totalLen + |terms|, Others(added, id) + [a], t);
      }
    }
  }

  method InsertOne(before: seq<Posting>, ghost t: Term, f: nat, id: nat, ghost a: Doc) returns (pl: seq<Posting>)
    requires Ascending(before) && id == a.id && f == Occurrences(a.terms, t) > 0
    ensures pl != [] && Overwritten(before, pl, a, t)
  {
    pl := InsertPosting(before, Posting(id, f));
  }

  lemma {:induction false} UntouchedList(pl: seq<Posting>, t: Term, a: Doc)
    requires Ascending(pl) && Occurrences(a.terms, t) == 0
    ensures Overwritten(pl, pl, a, t)
  {}

  lemma {:induction false} EmptyAddIndexes(postings: map<Term, seq<Posting>>, docLen: map<nat, nat>, totalLen: nat,
                                           added: seq<Doc>, a: Doc)
    requires Indexes(postings, docLen, totalLen, added) && a.id < EXHAUSTED && a.terms == []
    ensures forall t :: Overwritten(ListFor(postings, t), ListFor(postings, t), a, t)
    ensures Indexes(postings, docLen[a.id := 0], totalLen, Others(added, a.id) + [a])
      <==> (a.id in docLen ==> docLen[a.id] == 0)
  {
    forall t ensures Overwritten(ListFor(postings, t), ListFor(postings, t), a, t) {
      assert ListExact(ListFor(postings, t), t, added);
      UntouchedList(ListFor(postings, t), t, a);
    }
    AddIsExactIffUnused(postings, postings, docLen, totalLen, added, a);
  }

  /** The dense mirror, worth having only when fewer than half of the ordinals are unused. */
  method BuildDense(ghost s: Stats, docLen: map<nat, nat>) returns (maxDoc: nat, dense: seq<nat>)
    requires StatsOk(s) && docLen == s.docLen
    ensures DenseOk(s, dense)
    ensures forall d :: d in docLen ==> d <= maxDoc
    ensures maxDoc == 0 || maxDoc in docLen
    ensures dense != [] <==> docLen != map[] && maxDoc < |docLen| * 2
  {
    dense := [];
    maxDoc := MaxDoc(docLen);
    if docLen != map[] && maxDoc < |docLen| * 2 {
      dense := DenseLengths(docLen, maxDoc);
    }
    DenseFits(s, dense);
  }

  /** The weight pass: every term's weights, term after term in one flat array. */
  method BuildWeights(ghost s: Stats, k1: real, b: real, avg: real, dense: seq<nat>, docLen: map<nat, nat>,
                      postings: map<Term, seq<Posting>>)
    returns (pw: seq<real>, pwSpan: map<Term, (nat, nat)>)
    requires StatsOk(s) && k1 == s.k1 && b == s.b && avg == Avg(s.avgdl)
    requires docLen == s.docLen && postings == s.postings && DenseOk(s, dense)
    ensures pwSpan.Keys == postings.Keys
    ensures forall t :: t in postings ==> SpanOk(s, pw, pwSpan[t], t)
  {
    pw, pwSpan := [], map[];
    var rest := postings.Keys;
    while rest != {}
      invariant rest <= postings.Keys && pwSpan.Keys == postings.Keys - rest
      invariant forall t :: t in pwSpan ==> SpanOk(s, pw, pwSpan[t], t)
      decreases |rest|
    {
      var t :| t in rest;
      var w := ListWeights(s, k1, b, avg, dense, docLen, postings[t]);
      SpansKept(s, pw, pwSpan, w);
      NewSpan(s, pw, w, t);
      pwSpan := pwSpan[t := (|pw|, |pw| + |w|)];
      pw := pw + w;
      rest := rest - {t};
    }
  }

  /** The block-metadata pass. */
  method BuildMeta(ghost s: Stats, postings: map<Term, seq<Posting>>, pw: seq<real>, pwSpan: map<Term, (nat, nat)>)
    returns (blockMeta: map<Term, seq<BlockMeta>>)
    requires StatsOk(s) && postings == s.postings && pwSpan.Keys == postings.Keys
    requires forall t :: t in postings ==> SpanOk(s, pw, pwSpan[t], t)
    ensures blockMeta.Keys == postings.Keys
    ensures forall t :: t in postings ==> MetaOk(s, pw, pwSpan[t], blockMeta[t], t)
  {
    hide StatsOk, SpanOk, MetaOk;
    blockMeta := map[];
    var rest := postings.Keys;
    while rest != {}
      invariant rest <= postings.Keys && blockMeta.Keys == postings.Keys - rest
      invariant forall t :: t in blockMeta ==> MetaOk(s, pw, pwSpan[t], blockMeta[t], t)
      decreases |rest|
    {
      var t :| t in rest;
      assert SpanOk(s, pw, pwSpan[t], t);
      var blocks := SpanBlocks(s, pw, pwSpan[t], t, postings[t]);
      blockMeta := blockMeta[t := blocks];
      rest := rest - {t};
    }
  }

  method SpanBlocks(ghost s: Stats, pw: seq<real>, span: (nat, nat), ghost t: Term, pl: seq<Posting>)
    returns (blocks: seq<BlockMeta>)
    requires StatsOk(s) && t in s.postings && pl == s.postings[t] && SpanOk(s, pw, span, t)
    ensures MetaOk(s, pw, span, blocks, t)
  {
    assert ListOk(pl, s.docLen);
    blocks := BuildBlocks(pl, pw[span.0..span.1]);
  }

  /** The passes of finalizing, after the average length is known. */
  method BuildTables(ghost s: Stats, k1: real, b: real, avgdl: real, docLen: map<nat, nat>,
                     postings: map<Term, seq<Posting>>)
    returns (maxDoc: nat, dense: seq<nat>, pw: seq<real>, pwSpan: map<Term, (nat, nat)>,
             blockMeta: map<Term, seq<BlockMeta>>)
    requires StatsOk(s) && k1 == s.k1 && b == s.b && avgdl == s.avgdl && docLen == s.docLen && postings == s.postings
    ensures Derived(s, dense, pw, pwSpan, blockMeta)
  {
    hide StatsOk, Derived, DenseOk, SpanOk, MetaOk;
    maxDoc, dense := BuildDense(s, docLen);
    pw, pwSpan := BuildWeights(s, k1, b, Avg(avgdl), dense, docLen, postings);
    blockMeta := BuildMeta(s, postings, pw, pwSpan);
    DerivedAssembled(s, dense, pw, pwSpan, blockMeta);
  }

  // ----- The search paths, over the tables -----

  ghost predicate Started(cur: seq<Cursor>) {
    forall i :: 0 <= i < |cur| ==> CursorOk(cur[i]) && cur[i].i == 0
  }

  lemma {:induction false} TotalSnoc(cur: seq<Cursor>, c: Cursor, d: nat)
    ensures Total(cur + [c], d) == Total(cur, d) + Contrib(c, d)
  {
    assert (cur + [c])[..|cur|] == cur;
  }

  /** The cursor of one query term, its query frequency folded in. */
  method TermCursor(ghost s: Stats, ln: real -> real, N: nat, pl: seq<Posting>, blocks: seq<BlockMeta>, w: seq<real>,
                    ghost t: Term, freq: nat) returns (c: Cursor)
    requires StatsOk(s) && t in s.postings && pl == s.postings[t] && ln == s.ln && N == |s.docLen|
    requires WeightsOf(s, pl, w) && Describes(blocks, pl, w) && freq > 0
    ensures CursorOk(c) && c.i == 0
    ensures forall d: nat :: Contrib(c, d) == freq as real * TermScore(s, t, d)
  {
    IdfPositive(s, t);
    ProductPositive(Idf(ln, N, |pl|), freq as real);
    c := StartCursor(pl, blocks, w, Idf(ln, N, |pl|) * freq as real);
    forall d: nat ensures Contrib(c, d) == freq as real * TermScore(s, t, d) {
      CursorShare(s, t, c, freq, d);
    }
  }

  lemma {:induction false} CursorStepAt(s: Stats, q: seq<Term>, done: set<Term>, t: Term, cur: seq<Cursor>, c: Cursor, d: nat)
    requires StatsOk(s) && t !in done
    requires Total(cur, d) == ScoreWithin(s, q, done, d)
    requires Contrib(c, d) == Occurrences(q, t) as real * TermScore(s, t, d)
    ensures Total(cur + [c], d) == ScoreWithin(s, q, done + {t}, d)
  {
    hide StatsOk, TermScore, Contrib, Total, ScoreWithin, Occurrences;
    ScoreWithinAdd(s, q, done, t, d);
    TotalSnoc(cur, c, d);
  }

  lemma {:induction false} CursorStep(s: Stats, q: seq<Term>, done: set<Term>, t: Term, cur: seq<Cursor>, c: Cursor)
    requires StatsOk(s) && t !in done
    requires forall d: nat :: Total(cur, d) == ScoreWithin(s, q, done, d)
    requires forall d: nat :: Contrib(c, d) == Occurrences(q, t) as real * TermScore(s, t, d)
    ensures forall d: nat :: Total(cur + [c], d) == ScoreWithin(s, q, done + {t}, d)
  {
    hide StatsOk, TermScore, Contrib, Total, ScoreWithin, Occurrences;
    forall d: nat ensures Total(cur + [c], d) == ScoreWithin(s, q, done + {t}, d) {
      CursorStepAt(s, q, done, t, cur, c, d);
    }
  }

  lemma {:induction false} AbsentTermStep(s: Stats, q: seq<Term>, done: set<Term>, t: Term)
    requires StatsOk(s) && t !in done && t !in s.postings
    ensures forall d: nat :: ScoreWithin(s, q, done + {t}, d) == ScoreWithin(s, q, done, d)
  {
    forall d: nat ensures ScoreWithin(s, q, done + {t}, d) == ScoreWithin(s, q, done, d) {
      ScoreWithinAdd(s, q, done, t, d);
    }
  }

  /** Take one more distinct query term into account. */
  method AddCursor(before: seq<Cursor>, ghost s: Stats, ln: real -> real, N: nat, postings: map<Term, seq<Posting>>,
                   ghost dense: seq<nat>, pw: seq<real>, pwSpan: map<Term, (nat, nat)>,
                   blockMeta: map<Term, seq<BlockMeta>>, ghost q: seq<Term>, ghost done: set<Term>, t: Term, freq: nat)
    returns (cur: seq<Cursor>)
    requires StatsOk(s) && ln == s.ln && N == |s.docLen| && postings == s.postings
    requires Derived(s, dense, pw, pwSpan, blockMeta)
    requires t !in done && freq == Occurrences(q, t) > 0 && Started(before)
    requires forall d: nat :: Total(before, d) == ScoreWithin(s, q, done, d)
    ensures Started(cur)
    ensures forall d: nat :: Total(cur, d) == ScoreWithin(s, q, done + {t}, d)
  {
    hide Describes, WeightsOf, DenseOk, StatsOk, ScoreWithin, TermScore, Contrib, Total, Occurrences, CursorOk;
    if t in postings {
      assert MetaOk(s, pw, pwSpan[t], blockMeta[t], t);
      var c := TermCursor(s, ln, N, postings[t], blockMeta[t], pw[pwSpan[t].0..pwSpan[t].1], t, freq);
      CursorStep(s, q, done, t, before, c);
      cur := before + [c];
    } else {
      AbsentTermStep(s, q, done, t);
      cur := before;
    }
  }

  /** One cursor per distinct query term that has postings; together they score exactly as the whole query does. */
  method StartCursors(ghost s: Stats, ln: real -> real, N: nat, postings: map<Term, seq<Posting>>, dense: seq<nat>,
                      pw: seq<real>, pwSpan: map<Term, (nat, nat)>, blockMeta: map<Term, seq<BlockMeta>>, q: seq<Term>)
    returns (cur: seq<Cursor>)
    requires StatsOk(s) && ln == s.ln && N == |s.docLen| && postings == s.postings
    requires Derived(s, dense, pw, pwSpan, blockMeta)
    ensures Started(cur)
    ensures forall d: nat :: Total(cur, d) == Score(s, q, d)
  {
    hide Derived, StatsOk, ScoreWithin, Total, Occurrences, Started, Score;
    var qtf := CountTerms(q);
    var rest := qtf.Keys;
    ghost var done: set<Term> := {};
    cur := NoCursors(s, q);
    while rest != {}
      invariant rest <= qtf.Keys && done !! rest && Started(cur)
      invariant forall j :: 0 <= j < |q| ==> q[j] in done || q[j] in rest
      invariant forall d: nat :: Total(cur, d) == ScoreWithin(s, q, done, d)
      decreases |rest|
    {
      var t :| t in rest;
      cur := AddCursor(cur, s, ln, N, postings, dense, pw, pwSpan, blockMeta, q, done, t, qtf[t]);
      rest := rest - {t};
      done := done + {t};
    }
    forall d: nat ensures ScoreWithin(s, q, done, d) == Score(s, q, d) { ScoreWithinAll(s, q, done, d); }
  }

  method NoCursors(ghost s: Stats, ghost q: seq<Term>) returns (cur: seq<Cursor>)
    requires StatsOk(s)
    ensures cur == [] && Started(cur)
    ensures forall d: nat :: Total(cur, d) == ScoreWithin(s, q, {}, d)
  {
    forall d: nat ensures ScoreWithin(s, q, {}, d) == 0.0 { ScoreWithinNone(s, q, d); }
    cur := [];
  }

  lemma {:induction false} CursorsScore(s: Stats, q: seq<Term>, cur: seq<Cursor>)
    requires StatsOk(s)
    requires forall d: nat :: Total(cur, d) == Score(s, q, d)
    ensures ScoredBy(cur, Scores(s, q))
    ensures cur == [] ==> Scores(s, q) == map[]
  {
    forall d: nat
      ensures Total(cur, d) == if d in Scores(s, q) then Scores(s, q)[d] else 0.0
      ensures d in Scores(s, q) ==> d < EXHAUSTED && Score(s, q, d) > 0.0
    {
      ScorePositiveIffMatches(s, q, d);
    }
  }

  /** Accumulators over the dense ordinals hold the scores of the whole query. */
  lemma {:induction false} DenseAccountComplete(s: Stats, q: seq<Term>, acc: seq<real>, touched: seq<nat>, all: seq<Hit>)
    requires StatsOk(s) && TouchedOk(acc, touched)
    requires forall d :: 0 <= d < |acc| ==> acc[d] == Score(s, q, d)
    requires forall d: nat :: Matches(s, q, d) ==> d < |acc|
    requires |all| == |touched| && forall i :: 0 <= i < |all| ==> all[i] == Hit(touched[i], acc[touched[i]])
    ensures DistinctDocs(all) && ExactScores(all, Scores(s, q))
    ensures forall d :: d in Scores(s, q) ==> Listed(all, d)
  {
    forall d: nat
      ensures Score(s, q, d) > 0.0 <==> Matches(s, q, d)
      ensures Matches(s, q, d) ==> d in s.docLen
    {
      ScorePositiveIffMatches(s, q, d);
    }
    forall d | d in Scores(s, q) ensures Listed(all, d) {
      assert acc[d] > 0.0;
      var i :| 0 <= i < |touched| && touched[i] == d;
      assert all[i].doc == d;
    }
  }

  lemma {:induction false} MatchIsDense(s: Stats, q: seq<Term>, d: nat, dense: seq<nat>)
    requires Matches(s, q, d) && DenseOk(s, dense) && dense != []
    ensures d < |dense|
  {
    var j :| 0 <= j < |q| && q[j] in s.postings && HasDoc(s.postings[q[j]], d);
    var i :| 0 <= i < |s.postings[q[j]]| && s.postings[q[j]][i].doc == d;
  }

  method AddTermDense(acc: array<real>, before: seq<nat>, ghost s: Stats, ln: real -> real, N: nat, pl: seq<Posting>,
                      w: seq<real>, ghost t: Term, ghost dense: seq<nat>) returns (touched: seq<nat>)
    requires StatsOk(s) && ln == s.ln && N == |s.docLen| && t in s.postings && pl == s.postings[t]
    requires WeightsOf(s, pl, w) && DenseOk(s, dense) && acc.Length == |dense| > 0
    requires TouchedOk(acc[..], before)
    modifies acc
    ensures TouchedOk(acc[..], touched)
    ensures forall d :: 0 <= d < acc.Length ==> acc[d] == old(acc[d]) + TermScore(s, t, d)
  {
    IdfPositive(s, t);
    forall d: nat ensures ListShare(s, pl, Idf(ln, N, |pl|), |pl|, d) == TermScore(s, t, d) {
      ListShareIsTermScore(s, t, d);
    }
    touched := AccumulateDense(acc, before, s, pl, w, Idf(ln, N, |pl|));
  }

  /** Term-at-a-time over precomputed weights, then the best k. */
  method SearchDense(ghost s: Stats, ln: real -> real, N: nat, postings: map<Term, seq<Posting>>, dense: seq<nat>,
                     pw: seq<real>, pwSpan: map<Term, (nat, nat)>, ghost blockMeta: map<Term, seq<BlockMeta>>,
                     q: seq<Term>, k: nat) returns (hits: seq<Hit>)
    requires StatsOk(s) && ln == s.ln && N == |s.docLen| && postings == s.postings && dense != []
    requires Derived(s, dense, pw, pwSpan, blockMeta)
    ensures IsTopK(hits, Scores(s, q), k)
  {
    hide Describes, DenseOk, StatsOk, Weight, ListOk;
    var acc := new real[|dense|](_ => 0.0);
    var touched: seq<nat> := [];
    for j := 0 to |q|
      invariant fresh(acc) && acc.Length == |dense|
      invariant TouchedOk(acc[..], touched)
      invariant forall d :: 0 <= d < acc.Length ==> acc[d] == Score(s, q[..j], d)
    {
      forall d: nat ensures Score(s, q[..j + 1], d) == Score(s, q[..j], d) + TermScore(s, q[j], d) {
        ScorePrefix(s, q, j, d);
      }
      if q[j] in postings {
        assert MetaOk(s, pw, pwSpan[q[j]], blockMeta[q[j]], q[j]);
        touched := AddTermDense(acc, touched, s, ln, N, postings[q[j]], pw[pwSpan[q[j]].0..pwSpan[q[j]].1], q[j], dense);
      }
    }
    assert q[..|q|] == q;
    var all := seq(|touched|, i requires 0 <= i < |touched| && touched[i] < acc.Length reads acc =>
      Hit(touched[i], acc[touched[i]]));
    forall d: nat | Matches(s, q, d) ensures d < |acc[..]| { MatchIsDense(s, q, d, dense); }
    DenseAccountComplete(s, q, acc[..], touched, all);
    hits := BestOf(all, k, Scores(s, q));
  }

  /** Term-at-a-time with weights recomputed from the document lengths, accumulating in a map. */
  method SearchRecomputed(ghost s: Stats, ln: real -> real, N: nat, k1: real, b: real, avg: real, dense: seq<nat>,
                          docLen: map<nat, nat>, postings: map<Term, seq<Posting>>, q: seq<Term>, k: nat)
    returns (hits: seq<Hit>)
    requires StatsOk(s) && ln == s.ln && N == |s.docLen| && k1 == s.k1 && b == s.b && avg == Avg(s.avgdl)
    requires docLen == s.docLen && postings == s.postings && DenseOk(s, dense)
    ensures IsTopK(hits, Scores(s, q), k)
  {
    var acc: map<nat, real> := map[];
    for j := 0 to |q|
      invariant forall d :: d in acc ==> acc[d] > 0.0
      invariant forall d: nat :: ValueOf(acc, d) == Score(s, q[..j], d)
    {
      var t := q[j];
      forall d: nat ensures Score(s, q[..j + 1], d) == Score(s, q[..j], d) + TermScore(s, t, d) {
        ScorePrefix(s, q, j, d);
      }
      if t in postings {
        IdfPositive(s, t);
        forall d: nat
          ensures ListShare(s, postings[t], Idf(ln, N, |postings[t]|), |postings[t]|, d) == TermScore(s, t, d)
        {
          ListShareIsTermScore(s, t, d);
        }
        var w := ListWeights(s, k1, b, avg, dense, docLen, postings[t]);
        acc := AccumulateMap(acc, s, postings[t], w, Idf(ln, N, |postings[t]|));
      }
    }
    assert q[..|q|] == q;
    var all := ListMap(acc);
    MapAccountComplete(s, q, acc, all);
    hits := BestOf(all, k, Scores(s, q));
  }

  /** The entries of an accumulator map, in some order. */
  method ListMap(acc: map<nat, real>) returns (all: seq<Hit>)
    ensures DistinctDocs(all)
    ensures forall i :: 0 <= i < |all| ==> all[i].doc in acc && all[i].score == acc[all[i].doc]
    ensures forall d :: d in acc ==> Listed(all, d)
  {
    all := [];
    var rest := acc.Keys;
    while rest != {}
      invariant rest <= acc.Keys && DistinctDocs(all)
      invariant forall i :: 0 <= i < |all| ==> all[i].doc in acc && all[i].doc !in rest && all[i].score == acc[all[i].doc]
      invariant forall d :: d in acc && d !in rest ==> Listed(all, d)
      decreases |rest|
    {
      var d :| d in rest;
      ghost var was := all;
      all := all + [Hit(d, acc[d])];
      assert all[|was|].doc == d;
      forall e | Listed(was, e) ensures Listed(all, e) {
        var i :| 0 <= i < |was| && was[i].doc == e;
        assert all[i].doc == e;
      }
      rest := rest - {d};
    }
  }

  lemma {:induction false} MapAccountComplete(s: Stats, q: seq<Term>, acc: map<nat, real>, all: seq<Hit>)
    requires StatsOk(s)
    requires forall d :: d in acc ==> acc[d] > 0.0
    requires forall d: nat :: ValueOf(acc, d) == Score(s, q, d)
    requires forall i :: 0 <= i < |all| ==> all[i].doc in acc && all[i].score == acc[all[i].doc]
    requires forall d :: d in acc ==> Listed(all, d)
    ensures ExactScores(all, Scores(s, q))
    ensures forall d :: d in Scores(s, q) ==> Listed(all, d)
  {
    forall d: nat
      ensures d in acc <==> d in Scores(s, q)
      ensures d in acc ==> acc[d] == Score(s, q, d)
    {
      ScorePositiveIffMatches(s, q, d);
      assert ValueOf(acc, d) == Score(s, q, d);
    }
  }

  // ----- The index -----

  class Index {
    const k1: real
    const b: real
    const ln: real -> real
    var postings: map<Term, seq<Posting>>
    var docLen: map<nat, nat>
    var totalLen: nat
    var avgdl: real
    var denseLen: seq<nat>
    var maxDoc: nat
    var pw: seq<real>
    var pwSpan: map<Term, (nat, nat)>
    var blockMeta: map<Term, seq<BlockMeta>>
    var finalized: bool
    ghost var added: seq<Doc>

    ghost function CurrentStats(): Stats
      reads this
    {
      Stats(k1, b, ln, avgdl, docLen, postings)
    }

    ghost predicate Valid()
      reads this
    {
      && 0.0 <= k1 && 0.0 <= b <= 1.0
      && StatsOk(CurrentStats())
      && Indexes(postings, docLen, totalLen, added)
      && (finalized ==> Derived(CurrentStats(), denseLen, pw, pwSpan, blockMeta))
    }

    constructor (k1: real, b: real, ln: real -> real)
      requires k1 >= 0.0 && 0.0 <= b <= 1.0
      requires forall x: real :: x > 1.0 ==> ln(x) > 0.0
      ensures Valid() && added == [] && !finalized
    {
      this.k1, this.b, this.ln := k1, b, ln;
      postings, docLen, totalLen, avgdl := map[], map[], 0, 0.0;
      denseLen, maxDoc, pw, pwSpan, blockMeta := [], 0, [], map[], map[];
      finalized := false;
      added := [];
    }

    /**
     * Index one document. An empty one records its length and leaves a finalized index finalized. The index stays a
     * faithful one unless the id was used before for a text with terms.
     */
    method Add(id: nat, terms: seq<Term>) returns (n: nat)
      requires Valid() && id < EXHAUSTED
      modifies this
      ensures n == |terms| && added == Others(old(added), id) + [Doc(id, terms)]
      ensures id !in old(docLen) ==> added == old(added) + [Doc(id, terms)]
      ensures docLen == old(docLen)[id := |terms|] && totalLen == old(totalLen) + |terms|
      ensures forall t :: Overwritten(ListFor(old(postings), t), ListFor(postings, t), Doc(id, terms), t)
      ensures Valid() <==> (id in old(docLen) ==> old(docLen)[id] == 0)
      ensures finalized == (old(finalized) && terms == [])
    {
      hide Indexes, ListOk, Derived, Overwritten, StatsOk, Others;
      ghost var a, unused := Doc(id, terms), id in docLen ==> docLen[id] == 0;
      NewIdAdds(postings, docLen, totalLen, added, id);
      if terms == [] {
        EmptyAddIndexes(postings, docLen, totalLen, added, a);
        if unused { EmptyAddKeeps(CurrentStats(), denseLen, pw, pwSpan, blockMeta, finalized, id); }
        docLen := docLen[id := 0];
        added := Others(added, id) + [a];
        return 0;
      }
      var more := InsertDocument(postings, docLen, totalLen, added, id, terms);
      if unused { ListsGrow(CurrentStats(), docLen[id := |terms|], more); }
      postings := more;
      docLen := docLen[id := |terms|];
      totalLen := totalLen + |terms|;
      finalized := false;
      added := Others(added, id) + [a];
      n := |terms|;
    }

    /** Rebuild every derived table from the counts. */
    method Finalize()
      requires Valid()
      modifies this`avgdl, this`denseLen, this`maxDoc, this`pw, this`pwSpan, this`blockMeta, this`finalized
      ensures Valid() && finalized
      ensures avgdl == Mean(TotalLength(added), |docLen|)
    {
      hide StatsOk, Derived, Indexes, LengthsOf, TotalLength, Mean;
      var avg := Mean(totalLen, |docLen|);
      ghost var s := CurrentStats().(avgdl := avg);
      AverageIsFree(CurrentStats(), avg);
      IndexedLengths(postings, docLen, totalLen, added);
      var max, dense, weights, spans, blocks := BuildTables(s, k1, b, avg, docLen, postings);
      avgdl, maxDoc, denseLen, pw, pwSpan, blockMeta, finalized := avg, max, dense, weights, spans, blocks, true;
      assert CurrentStats() == s;
    }

    /** The pruned path; None when the index lacks the tables it needs. */
    method SearchWand(q: seq<Term>, k: nat) returns (r: Option<seq<Hit>>)
      requires Valid() && finalized
      ensures r.None? <==> denseLen == [] || pw == [] || blockMeta == map[]
      ensures r.Some? ==> IsTopK(r.value, Scores(CurrentStats(), q), k)
    {
      if denseLen == [] || pw == [] || blockMeta == map[] { return None; }
      if k == 0 { return Some([]); }
      var cur := StartCursors(CurrentStats(), ln, |docLen|, postings, denseLen, pw, pwSpan, blockMeta, q);
      CursorsScore(CurrentStats(), q, cur);
      if cur == [] { return Some([]); }
      var hits := SearchCursors(cur, k, Scores(CurrentStats(), q));
      return Some(hits);
    }

    /** Search: the pruned path when its tables exist, an exhaustive one otherwise. */
    method Search(q: seq<Term>, k: nat) returns (hits: seq<Hit>)
      requires Valid() && finalized
      ensures IsTopK(hits, Scores(CurrentStats(), q), k)
      ensures Increasing(ln) ==> RarerFirst(CurrentStats(), q, hits)
    {
      hide Scores, IsTopK, RarerFirst;
      NothingToFind(CurrentStats(), q, k);
      if docLen == map[] || q == [] {
        hits := [];
      } else {
        var wand := SearchWand(q, k);
        if wand.Some? { hits := wand.value; } else { hits := SearchExhaustive(q, k); }
      }
      if Increasing(ln) { TopKRarerFirst(CurrentStats(), q, hits, k); }
    }

    /** The paths that score every posting of every query term. */
    method SearchExhaustive(q: seq<Term>, k: nat) returns (hits: seq<Hit>)
      requires Valid() && finalized
      ensures IsTopK(hits, Scores(CurrentStats(), q), k)
    {
      if denseLen != [] && pw != [] {
        hits := SearchDense(CurrentStats(), ln, |docLen|, postings, denseLen, pw, pwSpan, blockMeta, q, k);
      } else {
        hits := SearchRecomputed(CurrentStats(), ln, |docLen|, k1, b, Avg(avgdl), denseLen, docLen, postings, q, k);
      }
    }

    /** Score one document by binary search in each query term's postings. */
    method ScoreDoc(q: seq<Term>, d: nat) returns (score: real)
      requires Valid()
      ensures score == Score(CurrentStats(), q, d)
    {
      hide TermScore;
      ghost var s := CurrentStats();
      ScorePositiveIffMatches(s, q, d);
      score := 0.0;
      if d !in docLen { return; }
      for j := 0 to |q|
        invariant s == CurrentStats() && score == Score(s, q[..j], d)
      {
        ScorePrefix(s, q, j, d);
        var share := TermShare(q[j], d);
        score := score + share;
      }
      assert q[..|q|] == q;
    }

    /** What one query term adds to a document's score: nothing when its postings lack the document. */
    method TermShare(t: Term, d: nat) returns (share: real)
      requires Valid() && d in docLen
      ensures share == TermScore(CurrentStats(), t, d)
    {
      hide Idf;
      share := 0.0;
      if t in postings {
        var pl := postings[t];
        var at := LowerBound(pl, d);
        if at < |pl| && pl[at].doc == d {
          FoundAt(pl, d, at);
          var w := WeightOf(CurrentStats(), k1, b, Avg(avgdl), docLen[d] as real, pl[at]);
          share := Idf(ln, |docLen|, |pl|) * w;
        }
      }
    }

    /** Both paths give the same sequence of scores: the claim made for the pruned one. */
    method CompareSearches(q: seq<Term>, k: nat) returns (pruned: Option<seq<Hit>>, exhaustive: seq<Hit>)
      requires Valid() && finalized
      ensures pruned.Some? ==> |pruned.value| == |exhaustive|
      ensures pruned.Some? ==> forall i :: 0 <= i < |exhaustive| ==> pruned.value[i].score == exhaustive[i].score
    {
      pruned := SearchWand(q, k);
      exhaustive := SearchExhaustive(q, k);
      if pruned.Some? {
        TopKScoresAgree(pruned.value, exhaustive, Scores(CurrentStats(), q), k);
      }
    }
  }

  lemma {:induction false} FoundAt(pl: seq<Posting>, d: nat, at: nat)
    requires Ascending(pl) && at < |pl| && pl[at].doc == d
    ensures HasDoc(pl, d) && IndexOf(pl, d) == at
  {
    assert pl[IndexOf(pl, d)].doc == pl[at].doc;
  }

  lemma {:induction false} NothingToFind(s: Stats, q: seq<Term>, k: nat)
    requires StatsOk(s)
    ensures s.docLen == map[] || q == [] ==> IsTopK([], Scores(s, q), k)
  {
    assert s.docLen == map[] || q == [] ==> Scores(s, q) == map[];
  }

  lemma {:induction false} DerivedAssembled(s: Stats, dense: seq<nat>, pw: seq<real>, pwSpan: map<Term, (nat, nat)>,
                                            blockMeta: map<Term, seq<BlockMeta>>)
    requires StatsOk(s) && DenseOk(s, dense)
    requires pwSpan.Keys == s.postings.Keys && blockMeta.Keys == s.postings.Keys
    requires forall t :: t in s.postings ==> MetaOk(s, pw, pwSpan[t], blockMeta[t], t)
    ensures Derived(s, dense, pw, pwSpan, blockMeta)
  {}

  lemma {:induction false} AverageIsFree(s: Stats, avg: real)
    requires StatsOk(s)
    ensures StatsOk(s.(avgdl := avg))
  {}

  lemma {:induction false} DenseFits(s: Stats, dense: seq<nat>)
    requires StatsOk(s)
    requires dense != [] ==> forall d :: d in s.docLen ==> d < |dense| && dense[d] == s.docLen[d]
    ensures DenseOk(s, dense)
  {
    forall t, i | t in s.postings && 0 <= i < |s.postings[t]| ensures s.postings[t][i].doc in s.docLen {
      assert ListOk(s.postings[t], s.docLen);
    }
  }

  lemma {:induction false} ListsGrow(s: Stats, docLen: map<nat, nat>, postings: map<Term, seq<Posting>>)
    requires StatsOk(s) && forall t :: t in postings ==> postings[t] != [] && ListOk(postings[t], docLen)
    ensures StatsOk(s.(docLen := docLen, postings := postings))
  {}

  lemma {:induction false} NewIdAdds(postings: map<Term, seq<Posting>>, docLen: map<nat, nat>, totalLen: nat,
                                     added: seq<Doc>, id: nat)
    requires Indexes(postings, docLen, totalLen, added)
    ensures id !in docLen ==> Others(added, id) == added
  {
    OthersKeep(added, id);
  }

  lemma {:induction false} EmptyAddKeeps(s: Stats, dense: seq<nat>, pw: seq<real>, pwSpan: map<Term, (nat, nat)>,
                                         blockMeta: map<Term, seq<BlockMeta>>, finalized: bool, id: nat)
    requires StatsOk(s) && (id in s.docLen ==> s.docLen[id] == 0)
    requires finalized ==> Derived(s, dense, pw, pwSpan, blockMeta)
    ensures StatsOk(s.(docLen := s.docLen[id := 0]))
    ensures finalized ==> Derived(s.(docLen := s.docLen[id := 0]), dense, pw, pwSpan, blockMeta)
  {
    var s' := s.(docLen := s.docLen[id := 0]);
    forall t | t in s.postings ensures ListOk(s'.postings[t], s'.docLen) {
      assert ListOk(s.postings[t], s.docLen);
    }
    ListsGrow(s, s'.docLen, s.postings);
    if finalized {
      forall t | t in s.postings ensures MetaOk(s', pw, pwSpan[t], blockMeta[t], t) {
        assert ListOk(s.postings[t], s.docLen);
        SameMeta(s, s', pw, pwSpan[t], blockMeta[t], t);
      }
      hide MetaOk;
      assert DenseOk(s', dense) by {
        forall t, i | dense != [] && t in s.postings && 0 <= i < |s.postings[t]|
          ensures s.postings[t][i].doc in s.docLen && s.postings[t][i].doc != id
        {
          assert ListOk(s.postings[t], s.docLen);
        }
      }
    }
  }

  lemma {:induction false} SameMeta(s: Stats, s': Stats, pw: seq<real>, span: (nat, nat), blocks: seq<BlockMeta>, t: Term)
    requires StatsOk(s) && StatsOk(s') && t in s.postings && MetaOk(s, pw, span, blocks, t)
    requires s' == s.(docLen := s'.docLen)
    requires forall d :: d in s.docLen && s.docLen[d] > 0 ==> d in s'.docLen && s'.docLen[d] == s.docLen[d]
    ensures MetaOk(s', pw, span, blocks, t)
  {
    hide Saturation, Describes;
    assert ListOk(s.postings[t], s.docLen);
  }

  lemma {:induction false} SpansKept(s: Stats, pw: seq<real>, pwSpan: map<Term, (nat, nat)>, w: seq<real>)
    requires StatsOk(s) && pwSpan.Keys <= s.postings.Keys
    requires forall t :: t in pwSpan ==> SpanOk(s, pw, pwSpan[t], t)
    ensures forall t :: t in pwSpan ==> SpanOk(s, pw + w, pwSpan[t], t)
  {
    forall t | t in pwSpan ensures SpanOk(s, pw + w, pwSpan[t], t) {
      assert (pw + w)[pwSpan[t].0..pwSpan[t].1] == pw[pwSpan[t].0..pwSpan[t].1];
    }
  }

  lemma {:induction false} NewSpan(s: Stats, pw: seq<real>, w: seq<real>, t: Term)
    requires StatsOk(s) && t in s.postings && WeightsOf(s, s.postings[t], w)
    ensures SpanOk(s, pw + w, (|pw|, |pw| + |w|), t)
  {
    assert (pw + w)[|pw|..|pw| + |w|] == w;
  }
}
