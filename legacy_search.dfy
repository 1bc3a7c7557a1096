/**
  `_find_similar_documents` of the two stand-alone detector scripts
  (`advanced_plagiarism_detector.py` and `plagiarism_detector.py`): every other
  document with a stored vector is scored by the cosine of the two vectors, the
  ones above the script's threshold are kept and sorted by descending score. There
  is no cache and no `on_defense` filter; the scripts differ only in the threshold.
*/
module LegacySearch {
  import opened Sorting
  import opened Documents
  import opened AdvancedDetector

  /** `Document.objects.exclude(id=document.id).exclude(vector__isnull=True)`. */
  predicate InPool(doc: Document, d: Document) {
    d.id != doc.id && d.vector.Some?
  }

  function Pool(docs: seq<Document>, doc: Document): (r: seq<Document>)
    ensures forall d :: d in r <==> d in docs && InPool(doc, d)
    ensures forall k :: 0 <= k < |r| ==> r[k].vector.Some?
  {
    var r := Where(docs, d => InPool(doc, d));
    assert forall k :: 0 <= k < |r| ==> r[k] in r;
    r
  }

  /** The candidate a pool document becomes: itself with the cosine of the two vectors. */
  function Scored(o: Oracles, current: seq<real>, d: Document): Candidate
    requires d.vector.Some?
  {
    Candidate(d, o.cosine(current, d.vector.value))
  }

  /** The loop over the pool: the scored documents above the threshold, in pool order. */
  function Above(o: Oracles, current: seq<real>, pool: seq<Document>, threshold: real): (r: seq<Candidate>)
    requires forall k :: 0 <= k < |pool| ==> pool[k].vector.Some?
    ensures |r| <= |pool|
  {
    if pool == [] then []
    else
      var c := Scored(o, current, pool[|pool| - 1]);
      Above(o, current, pool[..|pool| - 1], threshold) + if c.score > threshold then [c] else []
  }

  /** A candidate is kept exactly when it is a pool document, scored, and above the threshold. */
  lemma {:induction false} AboveExact(o: Oracles, current: seq<real>, pool: seq<Document>, threshold: real, c: Candidate)
    requires forall k :: 0 <= k < |pool| ==> pool[k].vector.Some?
    ensures c in Above(o, current, pool, threshold) <==>
      c.doc in pool && c.doc.vector.Some? && c == Scored(o, current, c.doc) && c.score > threshold
  {
    if pool != [] {
      var init := pool[..|pool| - 1];
      var last := pool[|pool| - 1];
      assert pool == init + [last];
      AboveExact(o, current, init, threshold, c);
    }
  }

  /** `_find_similar_documents` with the given threshold. */
  function CosineSearch(o: Oracles, docs: seq<Document>, doc: Document, threshold: real): (r: seq<Candidate>)
    ensures SortedDesc(r, ScoreOf)
    ensures !HasVector(doc) ==> r == []
  {
    if !HasVector(doc) then []
    else SortDesc(Above(o, doc.vector.value, Pool(docs, doc), threshold), ScoreOf)
  }

  /**
    For a document with a vector, the candidates are exactly the other documents
    with a vector whose cosine with it exceeds the threshold, each once per record.
  */
  lemma {:induction false} CosineSearchExact(o: Oracles, docs: seq<Document>, doc: Document, threshold: real, c: Candidate)
    requires HasVector(doc)
    ensures c in CosineSearch(o, docs, doc, threshold) <==>
      c.doc in docs && InPool(doc, c.doc) && c.score == o.cosine(doc.vector.value, c.doc.vector.value) && c.score > threshold
  {
    var found := Above(o, doc.vector.value, Pool(docs, doc), threshold);
    SortDescMembers(found, ScoreOf, c);
    AboveExact(o, doc.vector.value, Pool(docs, doc), threshold, c);
  }

  /** The method itself: the loop that appends, then the sort. */
  method SearchSimilarDocuments(o: Oracles, docs: seq<Document>, doc: Document, threshold: real) returns (similar: seq<Candidate>)
    ensures similar == CosineSearch(o, docs, doc, threshold)
  {
    similar := [];
    if !HasVector(doc) {
      return;
    }
    var current := doc.vector.value;
    var pool := Pool(docs, doc);
    var i := 0;
    while i < |pool|
      invariant 0 <= i <= |pool|
      invariant similar == Above(o, current, pool[..i], threshold)
    {
      assert pool[..i + 1][..i] == pool[..i];
      var d := pool[i];
      var s := o.cosine(current, d.vector.value);
      if s > threshold {
        similar := similar + [Candidate(d, s)];
      }
      i := i + 1;
    }
    assert pool[..|pool|] == pool;
    similar := SortDesc(similar, ScoreOf);
  }
}
