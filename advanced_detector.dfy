/**
  The production detector, `AdvancedPlagiarismDetector` of
  `detectors/advanced_detector.py`: candidate retrieval by cached vector scores,
  the text-based fallback, and the decision tree of `detect_plagiarism`.
*/
module AdvancedDetector {
  import opened Wrappers
  import opened Text
  import opened Sorting
  import opened SimCos
  import opened Cache
  import opened Documents
  import opened Similarity

  const SimilarityThreshold: real := 0.6
  const OriginalityThreshold: real := 85.0
  const MinTextLength: nat := 100
  /** `max_docs` of the text fallback. */
  const TextScanLimit: nat := 50
  /** The fallback keeps the best ten. */
  const TextResultLimit: nat := 10

  /** One `(doc, similarity)` pair of `similar_docs`. */
  datatype Candidate = Candidate(doc: Document, score: real)

  function ScoreOf(c: Candidate): real {
    c.score
  }

  // ---------------------------------------------------------------- vector retrieval

  /** The query of `_find_similar_documents`: other documents with a vector that are on defense. */
  predicate InVectorPool(doc: Document, d: Document) {
    d.id != doc.id && d.vector.Some? && d.onDefense
  }

  function VectorPool(docs: seq<Document>, doc: Document): (r: seq<Document>)
    ensures forall d :: d in r <==> d in docs && InVectorPool(doc, d)
    ensures forall k :: 0 <= k < |r| ==> r[k].vector.Some?
  {
    var r := Where(docs, d => InVectorPool(doc, d));
    assert forall k :: 0 <= k < |r| ==> r[k] in r;
    r
  }

  /**
    A vector through the cache: the cached one, or on a miss the stored one,
    which is then cached.
  */
  function VectorOf(st: CacheState, d: Document): (r: (seq<real>, CacheState))
    requires Coherent(st) && d.vector.Some?
    ensures Coherent(r.1)
  {
    match VectorRead(st, d.id)
    case Some(v) => (v, Connect(st))
    case None => (d.vector.value, PutVector(Connect(st), d.id, d.vector.value))
  }

  /**
    The score of `d` against the current vector: the cached score if there is one,
    otherwise the cosine of the two vectors, which is then cached.
  */
  function ScoreStep(o: Oracles, st: CacheState, id: int, current: seq<real>, d: Document): (r: (real, CacheState))
    requires Coherent(st) && d.vector.Some?
    ensures Coherent(r.1)
  {
    match SimilarityRead(st, id, d.id)
    case Some(s) => (s, Connect(st))
    case None =>
      var (v, st1) := VectorOf(Connect(st), d);
      var s := o.cosine(current, v);
      (s, PutSimilarity(st1, id, d.id, s))
  }

  /** The loop over the pool: the candidates above the threshold, in pool order, and the cache after it. */
  function VectorScan(o: Oracles, st: CacheState, id: int, current: seq<real>, pool: seq<Document>): (r: (seq<Candidate>, CacheState))
    requires Coherent(st)
    requires forall k :: 0 <= k < |pool| ==> pool[k].vector.Some?
    ensures Coherent(r.1)
    ensures |r.0| <= |pool|
    ensures forall c :: c in r.0 ==> c.doc in pool && c.score > SimilarityThreshold
  {
    if pool == [] then ([], st)
    else
      var last := pool[|pool| - 1];
      var (found, st1) := VectorScan(o, st, id, current, pool[..|pool| - 1]);
      var (s, st2) := ScoreStep(o, st1, id, current, last);
      (if s > SimilarityThreshold then found + [Candidate(last, s)] else found, st2)
  }

  /** What `_find_similar_documents(document)` returns, and the cache after it. */
  function FindSimilar(o: Oracles, st: CacheState, docs: seq<Document>, doc: Document): (r: (seq<Candidate>, CacheState))
    requires Coherent(st)
    ensures Coherent(r.1)
  {
    if !HasVector(doc) then ([], st)
    else
      var (current, st1) := VectorOf(st, doc);
      var (found, st2) := VectorScan(o, st1, doc.id, current, VectorPool(docs, doc));
      (SortDesc(found, ScoreOf), st2)
  }

  /**
    Without a vector nothing is found and the cache is not touched; otherwise every
    candidate is another on-defense document with a vector and a score above 0.6,
    and the list is in descending order of score.
  */
  lemma {:induction false} FindSimilarSound(o: Oracles, st: CacheState, docs: seq<Document>, doc: Document)
    requires Coherent(st)
    ensures var (r, st') := FindSimilar(o, st, docs, doc);
      (!HasVector(doc) ==> r == [] && st' == st) &&
      SortedDesc(r, ScoreOf) &&
      forall c :: c in r ==>
        c.doc in docs && c.doc.id != doc.id && c.doc.onDefense && c.doc.vector.Some? &&
        c.score > SimilarityThreshold
  {
    if HasVector(doc) {
      var (current, st1) := VectorOf(st, doc);
      var pool := VectorPool(docs, doc);
      var (found, st2) := VectorScan(o, st1, doc.id, current, pool);
      forall c | c in SortDesc(found, ScoreOf)
        ensures c.doc in docs && InVectorPool(doc, c.doc) && c.score > SimilarityThreshold
      {
        SortDescMembers(found, ScoreOf, c);
      }
    }
  }

  /** A score found in the cache is used as it is: no cosine is computed and nothing is written. */
  lemma {:induction false} CachedScoreUsed(o: Oracles, st: CacheState, id: int, current: seq<real>, d: Document, s: real)
    requires Coherent(st) && d.vector.Some?
    requires SimilarityRead(st, id, d.id) == Some(s)
    ensures ScoreStep(o, st, id, current, d) == (s, Connect(st))
    ensures Connect(st).store == st.store
  {
  }

  /**
    The score the scan gives `pool[k]`: the scoring step (the cached score, else the
    cosine, which is then cached) in the cache state the earlier documents left.
  */
  function PoolScore(o: Oracles, st: CacheState, id: int, current: seq<real>, pool: seq<Document>, k: nat): real
    requires Coherent(st) && k < |pool|
    requires forall i :: 0 <= i < |pool| ==> pool[i].vector.Some?
  {
    assert forall i :: 0 <= i < k ==> pool[..k][i] == pool[i];
    ScoreStep(o, VectorScan(o, st, id, current, pool[..k]).1, id, current, pool[k]).0
  }

  /** Every pool document whose score is above the threshold is kept with that score. */
  lemma {:induction false} VectorScanComplete(o: Oracles, st: CacheState, id: int, current: seq<real>, pool: seq<Document>, k: nat)
    requires Coherent(st) && k < |pool|
    requires forall i :: 0 <= i < |pool| ==> pool[i].vector.Some?
    ensures PoolScore(o, st, id, current, pool, k) > SimilarityThreshold ==>
      Candidate(pool[k], PoolScore(o, st, id, current, pool, k)) in VectorScan(o, st, id, current, pool).0
    decreases |pool|
  {
    var init := pool[..|pool| - 1];
    assert pool[..|pool| - 1] == pool[..|pool|][..|pool| - 1];
    if k < |pool| - 1 {
      VectorScanComplete(o, st, id, current, init, k);
      PoolScoreOfPrefix(o, st, id, current, pool, k);
    }
  }

  /** A document's score does not depend on the documents after it. */
  lemma {:induction false} PoolScoreOfPrefix(o: Oracles, st: CacheState, id: int, current: seq<real>, pool: seq<Document>, k: nat)
    requires Coherent(st) && k < |pool| - 1
    requires forall i :: 0 <= i < |pool| ==> pool[i].vector.Some?
    ensures PoolScore(o, st, id, current, pool[..|pool| - 1], k) == PoolScore(o, st, id, current, pool, k)
  {
    assert pool[..|pool| - 1][..k] == pool[..k];
  }

  /** Every kept candidate is a pool document with the score the scan gave it. */
  lemma {:induction false} VectorScanSound(o: Oracles, st: CacheState, id: int, current: seq<real>, pool: seq<Document>, c: Candidate)
    returns (k: nat)
    requires Coherent(st)
    requires forall i :: 0 <= i < |pool| ==> pool[i].vector.Some?
    requires c in VectorScan(o, st, id, current, pool).0
    ensures k < |pool| && c == Candidate(pool[k], PoolScore(o, st, id, current, pool, k))
    ensures c.score > SimilarityThreshold
    decreases |pool|
  {
    var init := pool[..|pool| - 1];
    if c in VectorScan(o, st, id, current, init).0 {
      k := VectorScanSound(o, st, id, current, init, c);
      PoolScoreOfPrefix(o, st, id, current, pool, k);
    } else {
      k := |pool| - 1;
      assert pool[..k] == init;
    }
  }

  /**
    The vector search finds exactly the pool documents scoring above 0.6, each with
    its score: `c` is in the result if and only if it is `(pool[k], score of pool[k])`
    for some position `k` of the pool whose score is above the threshold.
  */
  lemma {:induction false} FindSimilarExact(o: Oracles, st: CacheState, docs: seq<Document>, doc: Document, c: Candidate)
    requires Coherent(st) && HasVector(doc)
    ensures var (current, st1) := VectorOf(st, doc);
      var pool := VectorPool(docs, doc);
      c in FindSimilar(o, st, docs, doc).0 <==>
        exists k :: 0 <= k < |pool| && c == Candidate(pool[k], PoolScore(o, st1, doc.id, current, pool, k)) &&
          PoolScore(o, st1, doc.id, current, pool, k) > SimilarityThreshold
  {
    var (current, st1) := VectorOf(st, doc);
    var pool := VectorPool(docs, doc);
    var found := VectorScan(o, st1, doc.id, current, pool).0;
    SortDescMembers(found, ScoreOf, c);
    if c in found {
      var k := VectorScanSound(o, st1, doc.id, current, pool, c);
    }
    forall k | 0 <= k < |pool| && c == Candidate(pool[k], PoolScore(o, st1, doc.id, current, pool, k)) &&
        PoolScore(o, st1, doc.id, current, pool, k) > SimilarityThreshold
      ensures c in found
    {
      VectorScanComplete(o, st1, doc.id, current, pool, k);
    }
  }

  /** `_find_similar_documents`, with the module cache as an object. */
  method FindSimilarDocuments(o: Oracles, cache: RedisCache, docs: seq<Document>, doc: Document) returns (similar: seq<Candidate>)
    requires cache.Valid()
    modifies cache
    ensures cache.Valid()
    ensures (similar, cache.State()) == FindSimilar(o, old(cache.State()), docs, doc)
  {
    similar := [];
    if !HasVector(doc) {
      return;
    }
    var current := CachedVector(cache, doc);
    var pool := VectorPool(docs, doc);
    ghost var st0 := cache.State();
    var i := 0;
    while i < |pool|
      invariant 0 <= i <= |pool|
      invariant cache.Valid()
      invariant similar == VectorScan(o, st0, doc.id, current, pool[..i]).0
      invariant cache.State() == VectorScan(o, st0, doc.id, current, pool[..i]).1
    {
      var d := pool[i];
      VectorScanStep(o, st0, doc.id, current, pool, i);
      var s := ScoreCandidate(o, cache, doc.id, current, d);
      if s > SimilarityThreshold {
        similar := similar + [Candidate(d, s)];
      }
      i := i + 1;
    }
    assert pool[..|pool|] == pool;
    similar := SortDesc(similar, ScoreOf);
  }

  /** The scan over one more document of the pool. */
  lemma {:induction false} VectorScanStep(o: Oracles, st: CacheState, id: int, current: seq<real>, pool: seq<Document>, i: nat)
    requires Coherent(st) && i < |pool|
    requires forall k :: 0 <= k < |pool| ==> pool[k].vector.Some?
    ensures var (found, st1) := VectorScan(o, st, id, current, pool[..i]);
      var (s, st2) := ScoreStep(o, st1, id, current, pool[i]);
      VectorScan(o, st, id, current, pool[..i + 1]) ==
        (if s > SimilarityThreshold then found + [Candidate(pool[i], s)] else found, st2)
  {
    assert pool[..i + 1][..i] == pool[..i];
  }

  /** `get_cached_vector`, and on a miss `get_vector_array` and `cache_vector`. */
  method CachedVector(cache: RedisCache, d: Document) returns (v: seq<real>)
    requires cache.Valid() && d.vector.Some?
    modifies cache
    ensures cache.Valid()
    ensures (v, cache.State()) == VectorOf(old(cache.State()), d)
  {
    var cached := cache.GetCachedVector(d.id);
    if cached.Some? {
      v := cached.value;
    } else {
      v := d.vector.value;
      cache.CacheVector(d.id, v);
    }
  }

  /** One pass of the loop over the pool. */
  method ScoreCandidate(o: Oracles, cache: RedisCache, id: int, current: seq<real>, d: Document) returns (s: real)
    requires cache.Valid() && d.vector.Some?
    modifies cache
    ensures cache.Valid()
    ensures (s, cache.State()) == ScoreStep(o, old(cache.State()), id, current, d)
  {
    var cached := cache.GetCachedSimilarity(id, d.id);
    if cached.Some? {
      s := cached.value;
    } else {
      var v := CachedVector(cache, d);
      s := o.cosine(current, v);
      cache.CacheSimilarityResult(id, d.id, s);
    }
  }

  // ---------------------------------------------------------------- text-based fallback

  /** The query of the fallback: other on-defense documents with a text file. */
  predicate InTextPool(doc: Document, d: Document) {
    d.id != doc.id && d.onDefense && d.txtFile != ""
  }

  /** The first 50 documents of that query. */
  function TextPool(docs: seq<Document>, doc: Document): (r: seq<Document>)
    ensures |r| <= TextScanLimit
    ensures forall d :: d in r ==> d in docs && InTextPool(doc, d)
  {
    var all := Where(docs, d => InTextPool(doc, d));
    var r := Take(all, TextScanLimit);
    assert forall d :: d in r ==> d in all;
    r
  }

  /**
    The fallback's score of `d`: its overall similarity with the cleaned document
    text, or nothing when its file is missing, unreadable or shorter than 100 characters.
  */
  function TextScore(h: Hasher, fs: FileSystem, clean: string, d: Document): Option<real>
  {
    if d.txtFile == "" || d.txtFile !in fs then None
    else match fs[d.txtFile]
      case Unreadable(_) => None
      case Readable(t) =>
        if |t| < MinTextLength then None else Some(TextSim(h, clean, Preprocess(t)).overall)
  }

  /** The fallback's loop: the documents whose score is above the threshold, in pool order. */
  function TextScan(h: Hasher, fs: FileSystem, clean: string, pool: seq<Document>): (r: seq<Candidate>)
    ensures |r| <= |pool|
    ensures forall c :: c in r ==>
      c.doc in pool && TextScore(h, fs, clean, c.doc) == Some(c.score) && c.score > SimilarityThreshold
  {
    if pool == [] then []
    else
      var last := pool[|pool| - 1];
      TextScan(h, fs, clean, pool[..|pool| - 1]) + Kept(last, TextScore(h, fs, clean, last))
  }

  /** `[(d, s)]` when there is a score above the threshold, nothing otherwise. */
  function Kept(d: Document, score: Option<real>): (r: seq<Candidate>)
    ensures forall c :: c in r ==> c.doc == d && score == Some(c.score) && c.score > SimilarityThreshold
  {
    if score.Some? && score.value > SimilarityThreshold then [Candidate(d, score.value)] else []
  }

  /** What `_find_similar_documents_text_based(document, document_text)` returns. */
  function FindSimilarText(h: Hasher, fs: FileSystem, docs: seq<Document>, doc: Document, text: string): seq<Candidate>
  {
    Take(SortDesc(TextScan(h, fs, Preprocess(text), TextPool(docs, doc)), ScoreOf), TextResultLimit)
  }

  /** Comparing two texts or their preprocessed forms gives the same scores. */
  lemma {:induction false} TextSimOfPreprocessed(h: Hasher, t1: string, t2: string)
    ensures TextSim(h, Preprocess(t1), Preprocess(t2)) == TextSim(h, t1, t2)
  {
    PreprocessIdempotent(t1);
    PreprocessIdempotent(t2);
  }

  /**
    The fallback returns at most ten candidates in descending order of score, each
    one of the first fifty other on-defense documents with a text file, whose text
    has at least 100 characters and scores above 0.6 against the document's text.
  */
  lemma {:induction false} FindSimilarTextSound(h: Hasher, fs: FileSystem, docs: seq<Document>, doc: Document, text: string)
    ensures var r := FindSimilarText(h, fs, docs, doc, text);
      |r| <= TextResultLimit && SortedDesc(r, ScoreOf) &&
      forall c :: c in r ==>
        c.doc in TextPool(docs, doc) && c.doc.id != doc.id && c.doc.onDefense &&
        c.doc.txtFile in fs && fs[c.doc.txtFile].Readable? &&
        |fs[c.doc.txtFile].text| >= MinTextLength &&
        c.score == TextSim(h, text, fs[c.doc.txtFile].text).overall && c.score > SimilarityThreshold
  {
    var pool := TextPool(docs, doc);
    var found := TextScan(h, fs, Preprocess(text), pool);
    var sorted := SortDesc(found, ScoreOf);
    var r := Take(sorted, TextResultLimit);
    TakeSorted(sorted, TextResultLimit, ScoreOf);
    forall c | c in r
      ensures c.doc in pool && InTextPool(doc, c.doc) && c.doc.txtFile in fs && fs[c.doc.txtFile].Readable? &&
        |fs[c.doc.txtFile].text| >= MinTextLength &&
        c.score == TextSim(h, text, fs[c.doc.txtFile].text).overall && c.score > SimilarityThreshold
    {
      assert c in sorted;
      SortDescMembers(found, ScoreOf, c);
      TextSimOfPreprocessed(h, text, fs[c.doc.txtFile].text);
    }
  }

  /** Every pool document with a score above the threshold is kept with that score. */
  lemma {:induction false} TextScanComplete(h: Hasher, fs: FileSystem, clean: string, pool: seq<Document>, k: nat)
    requires k < |pool|
    ensures var s := TextScore(h, fs, clean, pool[k]);
      s.Some? && s.value > SimilarityThreshold ==> Candidate(pool[k], s.value) in TextScan(h, fs, clean, pool)
    decreases |pool|
  {
    if k < |pool| - 1 {
      var init := pool[..|pool| - 1];
      TextScanComplete(h, fs, clean, init, k);
      assert init[k] == pool[k];
    }
  }

  /**
    The fallback misses no qualifying document: a document among the first fifty of
    the pool whose readable text has at least 100 characters and scores above 0.6 is
    returned with that score, unless ten results that each score at least as high
    already fill the list.
  */
  lemma {:induction false} FindSimilarTextComplete(h: Hasher, fs: FileSystem, docs: seq<Document>, doc: Document, text: string, d: Document)
    ensures var r := FindSimilarText(h, fs, docs, doc, text);
      d in TextPool(docs, doc) && d.txtFile in fs && fs[d.txtFile].Readable? &&
      |fs[d.txtFile].text| >= MinTextLength &&
      TextSim(h, text, fs[d.txtFile].text).overall > SimilarityThreshold ==>
        var s := TextSim(h, text, fs[d.txtFile].text).overall;
        Candidate(d, s) in r ||
        (|r| == TextResultLimit && forall c :: c in r ==> c.score >= s)
  {
    var pool := TextPool(docs, doc);
    if d in pool && d.txtFile in fs && fs[d.txtFile].Readable? && |fs[d.txtFile].text| >= MinTextLength {
      var s := TextSim(h, text, fs[d.txtFile].text).overall;
      if s > SimilarityThreshold {
        var clean := Preprocess(text);
        var found := TextScan(h, fs, clean, pool);
        var sorted := SortDesc(found, ScoreOf);
        var r := Take(sorted, TextResultLimit);
        var k :| 0 <= k < |pool| && pool[k] == d;
        TextScoreOf(h, fs, text, d);
        TextScanComplete(h, fs, clean, pool, k);
        SortDescMembers(found, ScoreOf, Candidate(d, s));
        TakeSortedMember(sorted, TextResultLimit, ScoreOf, Candidate(d, s));
      }
    }
  }

  /** The fallback's score of a readable text of at least 100 characters is its similarity with the document's text. */
  lemma {:induction false} TextScoreOf(h: Hasher, fs: FileSystem, text: string, d: Document)
    requires d.txtFile != "" && d.txtFile in fs && fs[d.txtFile].Readable? && |fs[d.txtFile].text| >= MinTextLength
    ensures TextScore(h, fs, Preprocess(text), d) == Some(TextSim(h, text, fs[d.txtFile].text).overall)
  {
    TextSimOfPreprocessed(h, text, fs[d.txtFile].text);
  }

  /** `_find_similar_documents_text_based`. */
  method FindSimilarDocumentsTextBased(h: Hasher, fs: FileSystem, docs: seq<Document>, doc: Document, text: string)
    returns (similar: seq<Candidate>)
    ensures similar == FindSimilarText(h, fs, docs, doc, text)
  {
    var clean := Preprocess(text);
    var pool := TextPool(docs, doc);
    similar := ScanPool(h, fs, clean, pool);
    similar := SortDesc(similar, ScoreOf);
    similar := Take(similar, TextResultLimit);
  }

  /** The fallback's loop over the pool. */
  method ScanPool(h: Hasher, fs: FileSystem, clean: string, pool: seq<Document>) returns (similar: seq<Candidate>)
    ensures similar == TextScan(h, fs, clean, pool)
  {
    similar := [];
    var i := 0;
    while i < |pool|
      invariant 0 <= i <= |pool|
      invariant similar == TextScan(h, fs, clean, pool[..i])
    {
      var score := ScoreText(h, fs, clean, pool[i]);
      TextScanStep(h, fs, clean, pool, i);
      similar := similar + Kept(pool[i], score);
      i := i + 1;
    }
    assert pool[..|pool|] == pool;
  }

  lemma {:induction false} TextScanStep(h: Hasher, fs: FileSystem, clean: string, pool: seq<Document>, i: nat)
    requires i < |pool|
    ensures TextScan(h, fs, clean, pool[..i + 1]) == TextScan(h, fs, clean, pool[..i]) + Kept(pool[i], TextScore(h, fs, clean, pool[i]))
  {
    assert pool[..i + 1][..i] == pool[..i];
  }

  /** One pass of the fallback's loop: the checks on the file, then the comparison. */
  method ScoreText(h: Hasher, fs: FileSystem, clean: string, d: Document) returns (score: Option<real>)
    ensures score == TextScore(h, fs, clean, d)
  {
    if d.txtFile == "" || d.txtFile !in fs {
      return None;
    }
    match fs[d.txtFile]
    case Unreadable(_) =>
      return None;
    case Readable(t) =>
      if |t| < MinTextLength {
        return None;
      }
      var detail := CalculateTextSimilarity(h, clean, Preprocess(t));
      score := Some(detail.overall);
  }

  // ---------------------------------------------------------------- the file-name check

  /** The query of the file-name check: other on-defense documents with an upload. */
  predicate InNamePool(doc: Document, d: Document) {
    d.onDefense && d.id != doc.id && d.data != ""
  }

  /** The documents of `pool` whose upload has the base name `name` (case-sensitive), in order. */
  function SameBaseName(pool: seq<Document>, name: string): (r: seq<Document>)
    ensures forall d :: d in r <==> d in pool && BaseName(d.data) == name
  {
    if pool == [] then []
    else
      var last := pool[|pool| - 1];
      assert pool == pool[..|pool| - 1] + [last];
      SameBaseName(pool[..|pool| - 1], name) + if BaseName(last.data) == name then [last] else []
  }

  lemma {:induction false} SameBaseNameStep(pool: seq<Document>, name: string, i: nat)
    requires i < |pool|
    ensures SameBaseName(pool[..i + 1], name) == SameBaseName(pool[..i], name) + if BaseName(pool[i].data) == name then [pool[i]] else []
  {
    assert pool[..i + 1][..i] == pool[..i];
  }

  /** `exact_duplicates`. */
  function NameDuplicates(docs: seq<Document>, doc: Document): (r: seq<Document>)
    ensures forall d :: d in r <==> d in docs && InNamePool(doc, d) && BaseName(d.data) == BaseName(doc.data)
  {
    SameBaseName(NamePool(docs, doc), BaseName(doc.data))
  }

  function NamePool(docs: seq<Document>, doc: Document): (r: seq<Document>)
    ensures forall d :: d in r <==> d in docs && InNamePool(doc, d)
  {
    Where(docs, d => InNamePool(doc, d))
  }

  /** `source_matches` of the file-name verdict. */
  function NameMatches(dups: seq<Document>, fileName: string): (r: seq<SourceMatch>)
    ensures |r| == |dups|
    ensures forall i :: 0 <= i < |r| ==> r[i] == NameMatch(dups[i].id, dups[i].name, fileName)
  {
    seq(|dups|, i requires 0 <= i < |dups| => NameMatch(dups[i].id, dups[i].name, fileName))
  }

  /** The verdict when another document has an upload of the same name. */
  function NameVerdict(init: Verdict, fileName: string, dups: seq<Document>): Verdict {
    init.(originality := 0.0, similarity := 100.0, isPlagiarized := true, risk := VeryHigh,
          message := SameFileName(fileName), sourceMatches := Some(NameMatches(dups, fileName)))
  }

  /** The loop of the file-name check. */
  method FindNameDuplicates(docs: seq<Document>, doc: Document) returns (dups: seq<Document>)
    ensures dups == NameDuplicates(docs, doc)
  {
    var name := BaseName(doc.data);
    var pool := NamePool(docs, doc);
    dups := [];
    var i := 0;
    while i < |pool|
      invariant 0 <= i <= |pool|
      invariant dups == SameBaseName(pool[..i], name)
    {
      SameBaseNameStep(pool, name, i);
      if BaseName(pool[i].data) == name {
        dups := dups + [pool[i]];
      }
      i := i + 1;
    }
    assert pool[..|pool|] == pool;
  }

  // ---------------------------------------------------------------- reading the candidates

  /** What the reading loop collects: `similar_texts`, `similar_documents` and `similarities`. */
  datatype Reading = Reading(texts: seq<string>, entries: seq<SimilarEntry>, sims: seq<real>)

  /** `float(doc.result) if doc.result else 0.0`. */
  function StoredOriginality(d: Document): real {
    if d.result.Some? && d.result.value != 0.0 then d.result.value else 0.0
  }

  function Entry(c: Candidate, detail: TextSimilarity): SimilarEntry {
    SimilarEntry(c.doc.id, c.doc.name, c.score, detail.overall, detail, StoredOriginality(c.doc))
  }

  /** One readable candidate: its text, its `similar_documents` entry and its overall score. */
  datatype Compared = Compared(text: string, entry: SimilarEntry, sim: real)

  /**
    One candidate of the reading loop: skipped (`None`) when it has no file or the
    file does not exist, an exception when the file cannot be read, and otherwise
    compared in full with the document's text.
  */
  function ReadOne(h: Hasher, fs: FileSystem, text: string, c: Candidate): (r: Result<Option<Compared>, string>)
    ensures r.Ok? && r.value.Some? ==> 0.0 <= r.value.value.sim <= 1.0
  {
    if c.doc.txtFile == "" || c.doc.txtFile !in fs then Ok(None)
    else match fs[c.doc.txtFile]
      case Unreadable(e) => Err(e)
      case Readable(t) =>
        var detail := TextSim(h, text, t);
        TextSimBounds(h, text, t);
        Ok(Some(Compared(t, Entry(c, detail), detail.overall)))
  }

  /** Every value lies in [0, 1]. */
  predicate InUnit(xs: seq<real>) {
    forall i :: 0 <= i < |xs| ==> 0.0 <= xs[i] <= 1.0
  }

  /** The reading so far, after one more candidate. */
  function Extend(rd: Reading, one: Result<Option<Compared>, string>): Result<Reading, string> {
    match one
    case Err(e) => Err(e)
    case Ok(None) => Ok(rd)
    case Ok(Some(x)) => Ok(Reading(rd.texts + [x.text], rd.entries + [x.entry], rd.sims + [x.sim]))
  }

  /** The reading loop over the candidates, stopped by the first exception. */
  function ReadAll(h: Hasher, fs: FileSystem, text: string, cands: seq<Candidate>): (r: Result<Reading, string>)
    ensures r.Ok? ==> |r.value.texts| == |r.value.entries| == |r.value.sims| <= |cands|
    ensures r.Ok? ==> InUnit(r.value.sims)
  {
    if cands == [] then Ok(Reading([], [], []))
    else
      match ReadAll(h, fs, text, cands[..|cands| - 1])
      case Err(e) => Err(e)
      case Ok(rd) =>
        var one := ReadOne(h, fs, text, cands[|cands| - 1]);
        UnitAppend(rd.sims, one);
        Extend(rd, one)
  }

  lemma {:induction false} UnitAppend(sims: seq<real>, one: Result<Option<Compared>, string>)
    requires InUnit(sims)
    requires one.Ok? && one.value.Some? ==> 0.0 <= one.value.value.sim <= 1.0
    ensures one.Ok? && one.value.Some? ==> InUnit(sims + [one.value.value.sim])
  {
  }

  /** One step of the reading loop. */
  lemma {:induction false} ReadAllStep(h: Hasher, fs: FileSystem, text: string, cands: seq<Candidate>, i: nat)
    requires i < |cands| && ReadAll(h, fs, text, cands[..i]).Ok?
    ensures ReadAll(h, fs, text, cands[..i + 1]) == Extend(ReadAll(h, fs, text, cands[..i]).value, ReadOne(h, fs, text, cands[i]))
  {
    assert cands[..i + 1][..i] == cands[..i];
  }

  /** The reading loop of `detect_plagiarism`. */
  method ReadSimilarTexts(h: Hasher, fs: FileSystem, text: string, cands: seq<Candidate>) returns (r: Result<Reading, string>)
    ensures r == ReadAll(h, fs, text, cands)
  {
    var rd := Reading([], [], []);
    var i := 0;
    while i < |cands|
      invariant 0 <= i <= |cands|
      invariant ReadAll(h, fs, text, cands[..i]) == Ok(rd)
    {
      var one := ReadCandidate(h, fs, text, cands[i]);
      ReadAllStep(h, fs, text, cands, i);
      match one {
        case Err(e) =>
          ReadAllErr(h, fs, text, cands, i + 1);
          return Err(e);
        case Ok(None) =>
        case Ok(Some(x)) =>
          rd := Reading(rd.texts + [x.text], rd.entries + [x.entry], rd.sims + [x.sim]);
      }
      i := i + 1;
    }
    assert cands[..|cands|] == cands;
    r := Ok(rd);
  }

  /** One pass of the reading loop. */
  method ReadCandidate(h: Hasher, fs: FileSystem, text: string, c: Candidate) returns (r: Result<Option<Compared>, string>)
    ensures r == ReadOne(h, fs, text, c)
  {
    if c.doc.txtFile == "" || c.doc.txtFile !in fs {
      return Ok(None);
    }
    match fs[c.doc.txtFile]
    case Unreadable(e) =>
      return Err(e);
    case Readable(t) =>
      var detail := CalculateTextSimilarity(h, text, t);
      r := Ok(Some(Compared(t, Entry(c, detail), detail.overall)));
  }

  /** Once the reading loop has raised, it stays raised. */
  lemma {:induction false} ReadAllErr(h: Hasher, fs: FileSystem, text: string, cands: seq<Candidate>, n: nat)
    requires n <= |cands| && ReadAll(h, fs, text, cands[..n]).Err?
    ensures ReadAll(h, fs, text, cands) == ReadAll(h, fs, text, cands[..n])
    decreases |cands| - n
  {
    if n < |cands| {
      assert cands[..n + 1][..n] == cands[..n];
      ReadAllErr(h, fs, text, cands, n + 1);
    } else {
      assert cands[..n] == cands;
    }
  }

  // ---------------------------------------------------------------- per-source scores

  /** The originality of the document against the `i`-th similar text alone, with shingles of 3. */
  function SourceOriginality(h: Hasher, text: string, texts: seq<string>, i: nat): real
    requires i < |texts|
  {
    Originality(h, text, [texts[i]], 3)
  }

  /**
    The `i`-th entry of `source_matches`: the `i`-th candidate's id and name with the
    `i`-th readable text's scores, paired by position as the source does.
  */
  function SourceEntry(o: Oracles, text: string, cands: seq<Candidate>, texts: seq<string>, i: nat): SourceMatch
    requires i < |texts| <= |cands|
  {
    TextMatch(cands[i].doc.id, cands[i].doc.name,
      o.round2(o.bySource(text, texts[i], 3)), o.round2(o.citations(text, texts[i], 3)))
  }

  /** `originality_scores` and `source_matches` for the first `n` readable texts. */
  function SourceScores(o: Oracles, text: string, cands: seq<Candidate>, texts: seq<string>, n: nat)
    : (r: (seq<real>, seq<SourceMatch>))
    requires n <= |texts| <= |cands|
    ensures |r.0| == |r.1| == n
  {
    if n == 0 then ([], [])
    else
      var (origs, matches) := SourceScores(o, text, cands, texts, n - 1);
      (origs + [SourceOriginality(o.md5, text, texts, n - 1)], matches + [SourceEntry(o, text, cands, texts, n - 1)])
  }

  /** Entry `i` of both lists belongs to the `i`-th readable text and the `i`-th candidate. */
  lemma {:induction false} SourceScoresAt(o: Oracles, text: string, cands: seq<Candidate>, texts: seq<string>, n: nat, i: nat)
    requires i < n <= |texts| <= |cands|
    ensures SourceScores(o, text, cands, texts, n).0[i] == SourceOriginality(o.md5, text, texts, i)
    ensures SourceScores(o, text, cands, texts, n).1[i] == SourceEntry(o, text, cands, texts, i)
  {
    var (origs, matches) := SourceScores(o, text, cands, texts, n - 1);
    if i < n - 1 {
      SourceScoresAt(o, text, cands, texts, n - 1, i);
      assert (origs + [SourceOriginality(o.md5, text, texts, n - 1)])[i] == origs[i];
      assert (matches + [SourceEntry(o, text, cands, texts, n - 1)])[i] == matches[i];
    }
  }

  /** The loop over `enumerate(similar_docs)` that fills `originality_scores` and `source_matches`. */
  method ScoreSources(o: Oracles, text: string, cands: seq<Candidate>, texts: seq<string>)
    returns (origs: seq<real>, matches: seq<SourceMatch>)
    requires |texts| <= |cands|
    ensures (origs, matches) == SourceScores(o, text, cands, texts, |texts|)
  {
    origs, matches := [], [];
    var idx := 0;
    while idx < |cands|
      invariant 0 <= idx <= |cands|
      invariant origs == SourceScores(o, text, cands, texts, if idx < |texts| then idx else |texts|).0
      invariant matches == SourceScores(o, text, cands, texts, if idx < |texts| then idx else |texts|).1
    {
      if idx < |texts| {
        var originality, m := ScoreSource(o, text, cands, texts, idx);
        SourceScoresStep(o, text, cands, texts, idx);
        origs := origs + [originality];
        matches := matches + [m];
      }
      idx := idx + 1;
    }
  }

  /** One more readable text appends its originality and its entry to both lists. */
  lemma {:induction false} SourceScoresStep(o: Oracles, text: string, cands: seq<Candidate>, texts: seq<string>, n: nat)
    requires n < |texts| <= |cands|
    ensures SourceScores(o, text, cands, texts, n + 1).0 ==
      SourceScores(o, text, cands, texts, n).0 + [SourceOriginality(o.md5, text, texts, n)]
    ensures SourceScores(o, text, cands, texts, n + 1).1 ==
      SourceScores(o, text, cands, texts, n).1 + [SourceEntry(o, text, cands, texts, n)]
  {
  }

  /** One pass of that loop: the originality against one text, and its `source_matches` entry. */
  method ScoreSource(o: Oracles, text: string, cands: seq<Candidate>, texts: seq<string>, idx: nat)
    returns (originality: real, m: SourceMatch)
    requires idx < |texts| <= |cands|
    ensures originality == SourceOriginality(o.md5, text, texts, idx)
    ensures m == SourceEntry(o, text, cands, texts, idx)
  {
    var similarText := texts[idx];
    originality := CalculateOriginalityLargeTexts(o.md5, text, [similarText], 3);
    var matchPercent := o.bySource(text, similarText, 3);
    var citationPercent := o.citations(text, similarText, 3);
    m := TextMatch(cands[idx].doc.id, cands[idx].doc.name, o.round2(matchPercent), o.round2(citationPercent));
  }

  // ---------------------------------------------------------------- the verdict

  function MinOf(xs: seq<real>): (m: real)
    requires xs != []
    ensures m in xs && forall i :: 0 <= i < |xs| ==> m <= xs[i]
  {
    if |xs| == 1 then xs[0]
    else
      var m := MinOf(xs[..|xs| - 1]);
      assert forall i :: 0 <= i < |xs| - 1 ==> xs[..|xs| - 1][i] == xs[i];
      if xs[|xs| - 1] < m then xs[|xs| - 1] else m
  }

  function MaxOf(xs: seq<real>): (m: real)
    requires xs != []
    ensures m in xs && forall i :: 0 <= i < |xs| ==> xs[i] <= m
  {
    if |xs| == 1 then xs[0]
    else
      var m := MaxOf(xs[..|xs| - 1]);
      assert forall i :: 0 <= i < |xs| - 1 ==> xs[..|xs| - 1][i] == xs[i];
      if xs[|xs| - 1] > m then xs[|xs| - 1] else m
  }

  function Min(a: real, b: real): real {
    if a <= b then a else b
  }

  /** `max(0.0, min(100.0, x))`. */
  function Clamp(x: real): (r: real)
    ensures 0.0 <= r <= 100.0
    ensures 0.0 <= x <= 100.0 ==> r == x
  {
    if x < 0.0 then 0.0 else if x > 100.0 then 100.0 else x
  }

  /** The risk bands over the maximum overall similarity. */
  function RiskOf(maxSim: real): (r: Risk)
    ensures r == VeryHigh <==> maxSim > 0.9
    ensures r == High <==> 0.8 < maxSim <= 0.9
    ensures r == Medium <==> 0.7 < maxSim <= 0.8
    ensures r == Low <==> 0.5 < maxSim <= 0.7
    ensures r == VeryLow <==> maxSim <= 0.5
  {
    if maxSim > 0.9 then VeryHigh
    else if maxSim > 0.8 then High
    else if maxSim > 0.7 then Medium
    else if maxSim > 0.5 then Low
    else VeryLow
  }

  /** The keys of a `calculate_text_similarity` dictionary, in insertion order. */
  function MethodNames(t: TextSimilarity): seq<string> {
    (if t.shingle1.Some? then ["shingle_1"] else []) +
    (if t.shingle3.Some? then ["shingle_3"] else []) +
    (if t.shingle5.Some? then ["shingle_5"] else []) +
    (if t.word.Some? then ["word_similarity"] else []) +
    ["char_similarity"] +
    (if t.sentence.Some? then ["sentence_similarity"] else []) +
    ["overall_similarity"]
  }

  function CitationPercent(m: SourceMatch): real {
    match m
    case TextMatch(_, _, _, c) => c
    case NameMatch(_, _, _) => 0.0
  }

  /** The maximum `citation_percent` over the sources. */
  function MaxCitation(matches: seq<SourceMatch>): real
    requires matches != []
  {
    MaxOf(seq(|matches|, i requires 0 <= i < |matches| => CitationPercent(matches[i])))
  }

  /** The verdict once the per-source scores are known. */
  function Assemble(o: Oracles, init: Verdict, text: string, cands: seq<Candidate>, rd: Reading,
                    origs: seq<real>, matches: seq<SourceMatch>): Verdict
    requires rd.texts != [] && |rd.texts| == |rd.entries| == |rd.sims| <= |cands|
    requires |origs| == |matches| == |rd.texts|
  {
    var originality := Clamp(MinOf(origs));
    var similarity := 100.0 - originality;
    var maxSim := MaxOf(rd.sims);
    var avgSim := Sum(rd.sims) / (|rd.sims| as real);
    var plagiarized := originality < OriginalityThreshold || maxSim > 0.8;
    init.(
      originality := originality,
      similarity := similarity,
      similarDocuments := rd.entries,
      citations := Some(o.round2(Min(MaxCitation(matches), similarity))),
      sourceMatches := Some(matches),
      risk := RiskOf(maxSim),
      isPlagiarized := plagiarized,
      detailed := Some(Analysis(maxSim, avgSim, |cands|, |text|, MethodNames(rd.entries[0].detail))),
      message := if plagiarized then PlagiarismSuspected(originality, maxSim) else Original(originality, maxSim))
  }

  /** The verdict of the comparison with at least one readable candidate text. */
  function Conclude(o: Oracles, init: Verdict, text: string, cands: seq<Candidate>, rd: Reading): Verdict
    requires rd.texts != [] && |rd.texts| == |rd.entries| == |rd.sims| <= |cands|
  {
    var (origs, matches) := SourceScores(o, text, cands, rd.texts, |rd.texts|);
    Assemble(o, init, text, cands, rd, origs, matches)
  }

  /** The verdict when there is nothing to compare with. */
  function NoSources(init: Verdict, m: Message): Verdict {
    init.(originality := 100.0, similarity := 0.0, citations := Some(0.0), sourceMatches := Some([]),
          message := m, risk := VeryLow)
  }

  /** `similar_docs` after the retrieval and, for a document without a vector, the fallback. */
  function Candidates(o: Oracles, fs: FileSystem, st: CacheState, docs: seq<Document>, doc: Document, text: string)
    : (r: (seq<Candidate>, CacheState))
    requires Coherent(st)
    ensures Coherent(r.1)
  {
    var (found, st1) := FindSimilar(o, st, docs, doc);
    if found == [] && !HasVector(doc) then (FindSimilarText(o.md5, fs, docs, doc, text), st1) else (found, st1)
  }

  /** The comparison part of `detect_plagiarism`, for a text of at least 100 characters. */
  function Analyse(o: Oracles, fs: FileSystem, st: CacheState, docs: seq<Document>, doc: Document, init: Verdict, text: string)
    : (r: (DetectResult, CacheState))
    requires Coherent(st)
    ensures Coherent(r.1)
  {
    var (cands, st1) := Candidates(o, fs, st, docs, doc, text);
    if cands == [] then (Full(NoSources(init, NoSimilarDocuments)), st1)
    else match ReadAll(o.md5, fs, text, cands)
      case Err(e) => (Bare(init.documentId, AnalysisFailed(e)), st1)
      case Ok(rd) =>
        if rd.texts == [] then (Full(NoSources(init, SimilarUnreadable)), st1)
        else (Full(Conclude(o, init, text, cands, rd)), st1)
  }

  /** What `detect_plagiarism(document_id)` returns, and the cache after it. */
  function Detect(o: Oracles, fs: FileSystem, st: CacheState, docs: seq<Document>, id: int): (r: (DetectResult, CacheState))
    requires Coherent(st)
    ensures Coherent(r.1)
  {
    match Find(docs, id)
    case None => (Bare(id, DocumentNotFound(id)), st)
    case Some(i) =>
      var doc := docs[i];
      var init := Initial(id, doc.name);
      var dups := NameDuplicates(docs, doc);
      if doc.data != "" && dups != [] then (Full(NameVerdict(init, BaseName(doc.data), dups)), st)
      else if doc.txtFile == "" then (Full(init.(status := Error, message := NoTxtFile)), st)
      else if doc.txtFile !in fs then (Full(init.(status := Error, message := TxtFileMissing(doc.txtFile))), st)
      else match fs[doc.txtFile]
        case Unreadable(e) => (Bare(id, AnalysisFailed(e)), st)
        case Readable(text) =>
          if |text| < MinTextLength then (Full(init.(status := Warning, message := TextTooShort(|text|))), st)
          else Analyse(o, fs, st, docs, doc, init, text)
  }

  /** `detect_plagiarism`, with the module cache as an object. */
  method DetectPlagiarism(o: Oracles, fs: FileSystem, cache: RedisCache, docs: seq<Document>, id: int)
    returns (r: DetectResult)
    requires cache.Valid()
    modifies cache
    ensures cache.Valid()
    ensures (r, cache.State()) == Detect(o, fs, old(cache.State()), docs, id)
  {
    var found := Find(docs, id);
    if found.None? {
      return Bare(id, DocumentNotFound(id));
    }
    var doc := docs[found.value];
    var result := Initial(id, doc.name);
    if doc.data != "" {
      var currentFileName := BaseName(doc.data);
      var dups := FindNameDuplicates(docs, doc);
      if dups != [] {
        result := result.(originality := 0.0, similarity := 100.0, isPlagiarized := true, risk := VeryHigh,
                          message := SameFileName(currentFileName),
                          sourceMatches := Some(NameMatches(dups, currentFileName)));
        return Full(result);
      }
    }
    if doc.txtFile == "" {
      return Full(result.(status := Error, message := NoTxtFile));
    }
    if doc.txtFile !in fs {
      return Full(result.(status := Error, message := TxtFileMissing(doc.txtFile)));
    }
    match fs[doc.txtFile]
    case Unreadable(e) =>
      return Bare(id, AnalysisFailed(e));
    case Readable(text) =>
      if |text| < MinTextLength {
        return Full(result.(status := Warning, message := TextTooShort(|text|)));
      }
      r := AnalyseText(o, fs, cache, docs, doc, result, text);
  }

  /** The part of `detect_plagiarism` after the text has been read. */
  method AnalyseText(o: Oracles, fs: FileSystem, cache: RedisCache, docs: seq<Document>, doc: Document,
                     result: Verdict, text: string) returns (r: DetectResult)
    requires cache.Valid()
    modifies cache
    ensures cache.Valid()
    ensures (r, cache.State()) == Analyse(o, fs, old(cache.State()), docs, doc, result, text)
  {
    var similar := FindSimilarDocuments(o, cache, docs, doc);
    if similar == [] && !HasVector(doc) {
      similar := FindSimilarDocumentsTextBased(o.md5, fs, docs, doc, text);
    }
    if similar == [] {
      return Full(NoSources(result, NoSimilarDocuments));
    }
    var reading := ReadSimilarTexts(o.md5, fs, text, similar);
    if reading.Err? {
      return Bare(result.documentId, AnalysisFailed(reading.error));
    }
    var rd := reading.value;
    if rd.texts == [] {
      return Full(NoSources(result, SimilarUnreadable));
    }
    var origs, matches := ScoreSources(o, text, similar, rd.texts);
    r := Full(Assemble(o, result, text, similar, rd, origs, matches));
  }

  // ---------------------------------------------------------------- properties of the verdict

  /** An unknown id gives the short error result and touches nothing. */
  lemma {:induction false} DetectNotFound(o: Oracles, fs: FileSystem, st: CacheState, docs: seq<Document>, id: int)
    requires Coherent(st)
    requires forall i :: 0 <= i < |docs| ==> docs[i].id != id
    ensures Detect(o, fs, st, docs, id) == (Bare(id, DocumentNotFound(id)), st)
  {
    assert Find(docs, id).None?;
  }

  /**
    When another on-defense document has an upload with the same base name, the
    verdict is originality 0, similarity 100, plagiarized, very high risk, with every
    such document listed; no text file is consulted and the cache is not touched.
  */
  lemma {:induction false} DetectSameFileName(o: Oracles, fs: FileSystem, fs': FileSystem, st: CacheState, docs: seq<Document>, i: nat)
    requires Coherent(st) && i < |docs| && UniqueIds(docs)
    requires docs[i].data != ""
    requires exists d :: d in docs && InNamePool(docs[i], d) && BaseName(d.data) == BaseName(docs[i].data)
    ensures var (r, st') := Detect(o, fs, st, docs, docs[i].id);
      var name := BaseName(docs[i].data);
      st' == st && r.Full? &&
      r.verdict.originality == 0.0 && r.verdict.similarity == 100.0 && r.verdict.isPlagiarized &&
      r.verdict.risk == VeryHigh && r.verdict.status == Success && r.verdict.sourceMatches.Some? &&
      (forall d :: d in docs && InNamePool(docs[i], d) && BaseName(d.data) == name ==>
        NameMatch(d.id, d.name, name) in r.verdict.sourceMatches.value) &&
      (forall m :: m in r.verdict.sourceMatches.value ==>
        exists d :: d in docs && InNamePool(docs[i], d) && BaseName(d.data) == name && m == NameMatch(d.id, d.name, name))
    ensures Detect(o, fs, st, docs, docs[i].id) == Detect(o, fs', st, docs, docs[i].id)
  {
    var doc := docs[i];
    FindUnique(docs, i);
    var name := BaseName(doc.data);
    var dups := NameDuplicates(docs, doc);
    var d0 :| d0 in docs && InNamePool(doc, d0) && BaseName(d0.data) == name;
    assert d0 in dups;
    NameMatchesExact(docs, doc);
    assert Detect(o, fs, st, docs, doc.id) == (Full(NameVerdict(Initial(doc.id, doc.name), name, dups)), st);
  }

  /** The listed name matches are exactly the same-named documents of the pool. */
  lemma {:induction false} NameMatchesExact(docs: seq<Document>, doc: Document)
    ensures var name := BaseName(doc.data);
      var ms := NameMatches(NameDuplicates(docs, doc), name);
      (forall d :: d in docs && InNamePool(doc, d) && BaseName(d.data) == name ==> NameMatch(d.id, d.name, name) in ms) &&
      (forall m :: m in ms ==> exists d :: d in docs && InNamePool(doc, d) && BaseName(d.data) == name && m == NameMatch(d.id, d.name, name))
  {
    var name := BaseName(doc.data);
    var dups := NameDuplicates(docs, doc);
    var ms := NameMatches(dups, name);
    forall d | d in docs && InNamePool(doc, d) && BaseName(d.data) == name
      ensures NameMatch(d.id, d.name, name) in ms
    {
      var k :| 0 <= k < |dups| && dups[k] == d;
      assert ms[k] == NameMatch(d.id, d.name, name);
    }
    forall m | m in ms
      ensures exists d :: d in docs && InNamePool(doc, d) && BaseName(d.data) == name && m == NameMatch(d.id, d.name, name)
    {
      var k :| 0 <= k < |ms| && ms[k] == m;
      assert dups[k] in dups;
    }
  }

  /** With unique ids, looking up the id of the `i`-th record finds it. */
  lemma {:induction false} FindUnique(docs: seq<Document>, i: nat)
    requires i < |docs| && UniqueIds(docs)
    ensures Find(docs, docs[i].id) == Some(i)
  {
    var r := Find(docs, docs[i].id);
    assert r.Some?;
  }

  /**
    Without a file-name duplicate: no text file gives an error, a missing file gives
    an error, and a text under 100 characters gives a warning with no originality
    computed; none of them reaches the cache.
  */
  lemma {:induction false} DetectEarlyExits(o: Oracles, fs: FileSystem, st: CacheState, docs: seq<Document>, i: nat)
    requires Coherent(st) && i < |docs| && UniqueIds(docs)
    requires docs[i].data == "" || NameDuplicates(docs, docs[i]) == []
    ensures var doc := docs[i];
      var (r, st') := Detect(o, fs, st, docs, doc.id);
      (doc.txtFile == "" ==> r == Full(Initial(doc.id, doc.name).(status := Error, message := NoTxtFile)) && st' == st) &&
      (doc.txtFile != "" && doc.txtFile !in fs ==> r.Status() == Error && st' == st) &&
      (doc.txtFile != "" && doc.txtFile in fs && fs[doc.txtFile].Readable? && |fs[doc.txtFile].text| < MinTextLength ==>
        r.Full? && r.verdict.status == Warning && r.verdict.originality == 0.0 &&
        r.verdict.detailed.None? && r.verdict.sourceMatches.None? && st' == st)
  {
    FindUnique(docs, i);
  }

  /**
    When nothing is found, or no candidate's text could be read, the verdict is
    originality 100, similarity 0, citations 0, very low risk, not plagiarized.
  */
  lemma {:induction false} AnalyseNoSources(o: Oracles, fs: FileSystem, st: CacheState, docs: seq<Document>, doc: Document, text: string)
    requires Coherent(st)
    requires var (cands, _) := Candidates(o, fs, st, docs, doc, text);
      cands == [] || (ReadAll(o.md5, fs, text, cands).Ok? && ReadAll(o.md5, fs, text, cands).value.texts == [])
    ensures var (r, _) := Analyse(o, fs, st, docs, doc, Initial(doc.id, doc.name), text);
      r.Full? && r.verdict.status == Success &&
      r.verdict.originality == 100.0 && r.verdict.similarity == 0.0 && r.verdict.citations == Some(0.0) &&
      r.verdict.risk == VeryLow && !r.verdict.isPlagiarized && r.verdict.sourceMatches == Some([])
  {
  }

  /**
    The text fallback replaces the vector search exactly when the document has no
    vector; an empty vector search for a document with a vector stays empty.
  */
  lemma {:induction false} FallbackOnlyWithoutVector(o: Oracles, fs: FileSystem, st: CacheState, docs: seq<Document>, doc: Document, text: string)
    requires Coherent(st)
    ensures HasVector(doc) ==> Candidates(o, fs, st, docs, doc, text) == FindSimilar(o, st, docs, doc)
    ensures !HasVector(doc) ==> Candidates(o, fs, st, docs, doc, text) == (FindSimilarText(o.md5, fs, docs, doc, text), st)
  {
  }

  /**
    The originality of a comparison is the smallest per-source originality, clamped
    to [0, 100], and the similarity is its complement.
  */
  lemma {:induction false} ConcludeOriginality(o: Oracles, init: Verdict, text: string, cands: seq<Candidate>, rd: Reading)
    requires rd.texts != [] && |rd.texts| == |rd.entries| == |rd.sims| <= |cands|
    ensures var v := Conclude(o, init, text, cands, rd);
      0.0 <= v.originality <= 100.0 && v.similarity == 100.0 - v.originality &&
      (forall i :: 0 <= i < |rd.texts| ==> v.originality <= Clamp(SourceOriginality(o.md5, text, rd.texts, i))) &&
      (exists i :: 0 <= i < |rd.texts| && v.originality == Clamp(SourceOriginality(o.md5, text, rd.texts, i)))
  {
    var (origs, matches) := SourceScores(o, text, cands, rd.texts, |rd.texts|);
    var m := MinOf(origs);
    forall i | 0 <= i < |rd.texts|
      ensures Clamp(m) <= Clamp(SourceOriginality(o.md5, text, rd.texts, i))
    {
      SourceScoresAt(o, text, cands, rd.texts, |rd.texts|, i);
    }
    var k :| 0 <= k < |origs| && origs[k] == m;
    SourceScoresAt(o, text, cands, rd.texts, |rd.texts|, k);
  }

  /**
    The `i`-th source entry carries the `i`-th candidate's id and the scores of the
    `i`-th readable text: the pairing is by position.
  */
  lemma {:induction false} ConcludeMatches(o: Oracles, init: Verdict, text: string, cands: seq<Candidate>, rd: Reading)
    requires rd.texts != [] && |rd.texts| == |rd.entries| == |rd.sims| <= |cands|
    ensures var v := Conclude(o, init, text, cands, rd);
      v.sourceMatches.Some? && |v.sourceMatches.value| == |rd.texts| &&
      forall i :: 0 <= i < |rd.texts| ==>
        v.sourceMatches.value[i] == TextMatch(cands[i].doc.id, cands[i].doc.name,
          o.round2(o.bySource(text, rd.texts[i], 3)), o.round2(o.citations(text, rd.texts[i], 3)))
  {
    var (origs, matches) := SourceScores(o, text, cands, rd.texts, |rd.texts|);
    forall i | 0 <= i < |rd.texts|
      ensures matches[i] == SourceEntry(o, text, cands, rd.texts, i)
    {
      SourceScoresAt(o, text, cands, rd.texts, |rd.texts|, i);
    }
  }

  /**
    The citation share is the rounded minimum of the largest per-source citation
    share and the similarity.
  */
  lemma {:induction false} ConcludeCitations(o: Oracles, init: Verdict, text: string, cands: seq<Candidate>, rd: Reading)
    requires rd.texts != [] && |rd.texts| == |rd.entries| == |rd.sims| <= |cands|
    ensures var v := Conclude(o, init, text, cands, rd);
      exists i :: 0 <= i < |rd.texts| &&
        v.citations == Some(o.round2(Min(o.round2(o.citations(text, rd.texts[i], 3)), v.similarity))) &&
        forall j :: 0 <= j < |rd.texts| ==> o.round2(o.citations(text, rd.texts[j], 3)) <= o.round2(o.citations(text, rd.texts[i], 3))
  {
    ConcludeCitationsField(o, init, text, cands, rd);
    var k := CitationShares(o, text, cands, rd.texts);
  }

  /** The largest rounded citation share among the sources belongs to some readable text. */
  lemma {:induction false} CitationShares(o: Oracles, text: string, cands: seq<Candidate>, texts: seq<string>) returns (k: nat)
    requires texts != [] && |texts| <= |cands|
    ensures k < |texts|
    ensures MaxCitation(SourceScores(o, text, cands, texts, |texts|).1) == o.round2(o.citations(text, texts[k], 3))
    ensures forall j :: 0 <= j < |texts| ==> o.round2(o.citations(text, texts[j], 3)) <= o.round2(o.citations(text, texts[k], 3))
  {
    var matches := SourceScores(o, text, cands, texts, |texts|).1;
    k := MaxCitationAt(matches);
    SourceScoresAt(o, text, cands, texts, |texts|, k);
    assert CitationPercent(matches[k]) == o.round2(o.citations(text, texts[k], 3));
    forall j | 0 <= j < |texts|
      ensures o.round2(o.citations(text, texts[j], 3)) <= o.round2(o.citations(text, texts[k], 3))
    {
      SourceScoresAt(o, text, cands, texts, |texts|, j);
      assert CitationPercent(matches[j]) == o.round2(o.citations(text, texts[j], 3));
      assert CitationPercent(matches[j]) <= CitationPercent(matches[k]);
    }
  }

  /** The verdict's citation share, in terms of the per-source entries. */
  lemma {:induction false} ConcludeCitationsField(o: Oracles, init: Verdict, text: string, cands: seq<Candidate>, rd: Reading)
    requires rd.texts != [] && |rd.texts| == |rd.entries| == |rd.sims| <= |cands|
    ensures var v := Conclude(o, init, text, cands, rd);
      v.citations == Some(o.round2(Min(MaxCitation(SourceScores(o, text, cands, rd.texts, |rd.texts|).1), v.similarity)))
  {
  }

  /** The largest citation share is the share of some entry, and no entry's is larger. */
  lemma {:induction false} MaxCitationAt(matches: seq<SourceMatch>) returns (k: nat)
    requires matches != []
    ensures k < |matches| && MaxCitation(matches) == CitationPercent(matches[k])
    ensures forall j :: 0 <= j < |matches| ==> CitationPercent(matches[j]) <= CitationPercent(matches[k])
  {
    var cs := seq(|matches|, i requires 0 <= i < |matches| => CitationPercent(matches[i]));
    k :| 0 <= k < |cs| && cs[k] == MaxOf(cs);
    assert cs[k] == CitationPercent(matches[k]);
    forall j | 0 <= j < |matches|
      ensures CitationPercent(matches[j]) <= CitationPercent(matches[k])
    {
      assert cs[j] == CitationPercent(matches[j]) && cs[j] <= MaxOf(cs);
    }
  }

  /**
    The risk follows the bands of the largest overall similarity, the document is
    flagged exactly when its originality is under 85 or that similarity exceeds 0.8,
    and the analysis counts every candidate.
  */
  lemma {:induction false} ConcludeRisk(o: Oracles, init: Verdict, text: string, cands: seq<Candidate>, rd: Reading)
    requires rd.texts != [] && |rd.texts| == |rd.entries| == |rd.sims| <= |cands|
    ensures var v := Conclude(o, init, text, cands, rd);
      v.detailed.Some? &&
      var maxSim := v.detailed.value.maxSimilarity;
      maxSim in rd.sims && (forall i :: 0 <= i < |rd.sims| ==> rd.sims[i] <= maxSim) &&
      v.risk == RiskOf(maxSim) &&
      (v.isPlagiarized <==> v.originality < OriginalityThreshold || maxSim > 0.8) &&
      v.detailed.value.similarDocumentsCount == |cands| && v.detailed.value.textLength == |text| &&
      v.similarDocuments == rd.entries
  {
  }

  /**
    A candidate without a text file is skipped; the readable one after it is read, and
    its text is the only one collected.
  */
  lemma {:induction false} ReadSkipsFirst(h: Hasher, fs: FileSystem, text: string, cands: seq<Candidate>)
    requires |cands| == 2 && cands[0].doc.txtFile == ""
    requires cands[1].doc.txtFile != "" && cands[1].doc.txtFile in fs && fs[cands[1].doc.txtFile].Readable?
    ensures ReadAll(h, fs, text, cands) == Extend(Reading([], [], []), ReadOne(h, fs, text, cands[1]))
    ensures var r := ReadAll(h, fs, text, cands);
      r.Ok? && r.value.texts == [fs[cands[1].doc.txtFile].text] && |r.value.entries| == 1 && r.value.entries[0].id == cands[1].doc.id
  {
    ReadAfterSkip(h, fs, text, cands);
    ReadOneReadable(h, fs, text, cands[1]);
    var x := ReadOne(h, fs, text, cands[1]).value.value;
    assert [] + [x.text] == [x.text];
  }

  /** With the first candidate skipped, the reading is the second candidate's alone. */
  lemma {:induction false} ReadAfterSkip(h: Hasher, fs: FileSystem, text: string, cands: seq<Candidate>)
    requires |cands| == 2 && cands[0].doc.txtFile == ""
    ensures ReadAll(h, fs, text, cands) == Extend(Reading([], [], []), ReadOne(h, fs, text, cands[1]))
  {
    FirstSkipped(h, fs, text, cands);
    ReadAllStep(h, fs, text, cands, 1);
    assert cands[..2] == cands;
  }

  /** A candidate whose file is readable is compared, under its own id. */
  lemma {:induction false} ReadOneReadable(h: Hasher, fs: FileSystem, text: string, c: Candidate)
    requires c.doc.txtFile != "" && c.doc.txtFile in fs && fs[c.doc.txtFile].Readable?
    ensures var r := ReadOne(h, fs, text, c);
      r.Ok? && r.value.Some? && r.value.value.text == fs[c.doc.txtFile].text && r.value.value.entry.id == c.doc.id
  {
  }

  /** A first candidate without a text file leaves the reading empty. */
  lemma {:induction false} FirstSkipped(h: Hasher, fs: FileSystem, text: string, cands: seq<Candidate>)
    requires |cands| > 0 && cands[0].doc.txtFile == ""
    ensures ReadAll(h, fs, text, cands[..1]) == Ok(Reading([], [], []))
  {
    assert cands[..1][..0] == [];
  }

  /**
    The pairing by position: when the first candidate has no text file and the second
    one's text is readable, the only source entry names the first candidate with the
    second one's scores.
  */
  lemma {:induction false} MispairedSource(o: Oracles, fs: FileSystem, init: Verdict, text: string, c0: Candidate, c1: Candidate)
    requires c0.doc.txtFile == ""
    requires c1.doc.txtFile != "" && c1.doc.txtFile in fs && fs[c1.doc.txtFile].Readable?
    ensures var t := fs[c1.doc.txtFile].text;
      var reading := ReadAll(o.md5, fs, text, [c0, c1]);
      reading.Ok? && reading.value.texts == [t] &&
      Conclude(o, init, text, [c0, c1], reading.value).sourceMatches ==
        Some([TextMatch(c0.doc.id, c0.doc.name, o.round2(o.bySource(text, t, 3)), o.round2(o.citations(text, t, 3)))])
  {
    ReadSkipsFirst(o.md5, fs, text, [c0, c1]);
    var t := fs[c1.doc.txtFile].text;
    var cands := [c0, c1];
    var rd := ReadAll(o.md5, fs, text, cands).value;
    var m := TextMatch(c0.doc.id, c0.doc.name, o.round2(o.bySource(text, t, 3)), o.round2(o.citations(text, t, 3)));
    var scores := SourceScores(o, text, cands, rd.texts, 1);
    SourceScoresAt(o, text, cands, rd.texts, 1, 0);
    assert scores.1 == [m];
    assert Conclude(o, init, text, cands, rd).sourceMatches == Some(scores.1);
  }
}
