/**
  The first stand-alone script, `plagiarism_detector.py`: retrieval by cosine with
  threshold 0.7, one union-based originality (shingles of 3 words) against the
  readable candidate texts, the flag `originality < 80`, and the statistics of
  `get_plagiarism_report`. It has no minimum text length and no risk bands.
*/
module LegacyBasic {
  import opened Wrappers
  import opened SimCos
  import opened Documents
  import opened AdvancedDetector
  import opened LegacySearch
  import LegacyAdvanced
  import opened Similarity

  /** `self.similarity_threshold`. */
  const VectorThreshold: real := 0.7
  /** `self.originality_threshold`: below it a document is flagged. */
  const OriginalityLimit: real := 80.0
  /** `self.shingle_size`. */
  const ShingleSize: nat := 3

  /** One entry of this script's `similar_documents`. */
  datatype Listed = Listed(id: int, name: Option<string>, similarity: real, originality: real)

  /** This script's result dictionary. */
  datatype BasicVerdict = BasicVerdict(
    documentId: int,
    documentName: Option<string>,
    status: AnalysisStatus,
    originality: real,
    similarity: real,
    similarDocuments: seq<Listed>,
    isPlagiarized: bool,
    message: Message)

  /** A full dictionary, or the short one of an exception handler. */
  datatype BasicResult = Analysed(verdict: BasicVerdict) | Aborted(documentId: int, message: Message)
  {
    function Status(): AnalysisStatus {
      match this
      case Analysed(v) => v.status
      case Aborted(_, _) => Error
    }
  }

  function Initial(id: int, name: Option<string>): (v: BasicVerdict)
    ensures v.status == Success && !v.isPlagiarized && v.similarDocuments == []
  {
    BasicVerdict(id, name, Success, 0.0, 0.0, [], false, NoMessage)
  }

  function Listing(c: Candidate): Listed {
    Listed(c.doc.id, c.doc.name, c.score, StoredOriginality(c.doc))
  }

  /**
    The reading loop: the texts of the candidates whose file is named and exists, in
    candidate order; a file that cannot be read raises, which ends the analysis.
  */
  function ReadTexts(fs: FileSystem, cands: seq<Candidate>): (r: Result<seq<string>, string>)
    ensures r.Ok? ==> |r.value| <= |cands|
  {
    if cands == [] then Ok([])
    else
      match ReadTexts(fs, cands[..|cands| - 1])
      case Err(e) => Err(e)
      case Ok(ts) =>
        var f := cands[|cands| - 1].doc.txtFile;
        if f == "" || f !in fs then Ok(ts)
        else match fs[f]
          case Unreadable(e) => Err(e)
          case Readable(t) => Ok(ts + [t])
  }

  /** A file that can be read, of a candidate that names it. */
  predicate ReadableFile(fs: FileSystem, c: Candidate) {
    c.doc.txtFile != "" && c.doc.txtFile in fs && fs[c.doc.txtFile].Readable?
  }

  /** A file that exists but cannot be read. */
  predicate BrokenFile(fs: FileSystem, c: Candidate) {
    c.doc.txtFile != "" && c.doc.txtFile in fs && fs[c.doc.txtFile].Unreadable?
  }

  /**
    The reading fails exactly when some candidate's file exists but cannot be read;
    otherwise every text read is the text of a candidate's readable file, and there
    is one when any candidate has such a file.
  */
  lemma {:induction false} ReadTextsExact(fs: FileSystem, cands: seq<Candidate>)
    ensures ReadTexts(fs, cands).Err? <==> exists c :: c in cands && BrokenFile(fs, c)
    ensures ReadTexts(fs, cands).Ok? ==>
      (forall t :: t in ReadTexts(fs, cands).value ==> exists c :: c in cands && ReadableFile(fs, c) && fs[c.doc.txtFile].text == t) &&
      (ReadTexts(fs, cands).value == [] <==> forall c :: c in cands ==> !ReadableFile(fs, c))
  {
    if cands != [] {
      var init := cands[..|cands| - 1];
      var last := cands[|cands| - 1];
      assert cands == init + [last];
      ReadTextsExact(fs, init);
      var before := ReadTexts(fs, init);
      if before.Err? {
        var c :| c in init && BrokenFile(fs, c);
        assert c in cands;
      } else if BrokenFile(fs, last) {
        assert ReadTexts(fs, cands).Err?;
      } else {
        forall c | c in cands ensures !BrokenFile(fs, c) {
          if c != last {
            assert c in init;
          }
        }
        var ts := ReadTexts(fs, cands).value;
        if ReadableFile(fs, last) {
          assert ts == before.value + [fs[last.doc.txtFile].text];
          forall t | t in ts ensures exists c :: c in cands && ReadableFile(fs, c) && fs[c.doc.txtFile].text == t {
            if t !in before.value {
              assert t == fs[last.doc.txtFile].text;
            } else {
              var c :| c in init && ReadableFile(fs, c) && fs[c.doc.txtFile].text == t;
              assert c in cands;
            }
          }
        } else {
          assert ts == before.value;
          forall t | t in ts ensures exists c :: c in cands && ReadableFile(fs, c) && fs[c.doc.txtFile].text == t {
            var c :| c in init && ReadableFile(fs, c) && fs[c.doc.txtFile].text == t;
            assert c in cands;
          }
          if ts != [] {
            var t := ts[0];
            assert t in before.value;
            var c :| c in init && ReadableFile(fs, c) && fs[c.doc.txtFile].text == t;
            assert c in cands;
          } else {
            forall c | c in cands ensures !ReadableFile(fs, c) {
              if c != last {
                assert c in init;
              }
            }
          }
        }
      }
    }
  }

  /** The result once the document's own text is known. */
  function Compare(o: Oracles, fs: FileSystem, docs: seq<Document>, doc: Document, init: BasicVerdict, text: string): BasicResult {
    var cands := CosineSearch(o, docs, doc, VectorThreshold);
    if cands == [] then Analysed(init.(originality := 100.0, similarity := 0.0, message := NoSimilarDocuments))
    else match ReadTexts(fs, cands)
      case Err(e) => Aborted(init.documentId, AnalysisFailed(e))
      case Ok(texts) =>
        if texts == [] then Analysed(init.(originality := 100.0, similarity := 0.0, message := SimilarUnreadable))
        else Analysed(Judge(o.md5, init, text, cands, texts))
  }

  /** What this script's `detect_plagiarism(document_id)` returns. */
  function Detect(o: Oracles, fs: FileSystem, docs: seq<Document>, id: int): BasicResult {
    match Find(docs, id)
    case None => Aborted(id, DocumentNotFound(id))
    case Some(i) =>
      var doc := docs[i];
      var init := Initial(id, doc.name);
      if doc.txtFile == "" then Analysed(init.(status := Error, message := NoTxtFile))
      else if doc.txtFile !in fs then Analysed(init.(status := Error, message := TxtFileMissing(doc.txtFile)))
      else match fs[doc.txtFile]
        case Unreadable(e) => Aborted(id, AnalysisFailed(e))
        case Readable(text) => Compare(o, fs, docs, doc, init, text)
  }

  /** `detect_plagiarism`, filling the result step by step. */
  method DetectPlagiarism(o: Oracles, fs: FileSystem, docs: seq<Document>, id: int) returns (r: BasicResult)
    ensures r == Detect(o, fs, docs, id)
  {
    var found := Find(docs, id);
    if found.None? {
      return Aborted(id, DocumentNotFound(id));
    }
    var doc := docs[found.value];
    var result := Initial(id, doc.name);
    if doc.txtFile == "" {
      return Analysed(result.(status := Error, message := NoTxtFile));
    }
    if doc.txtFile !in fs {
      return Analysed(result.(status := Error, message := TxtFileMissing(doc.txtFile)));
    }
    match fs[doc.txtFile]
    case Unreadable(e) =>
      return Aborted(id, AnalysisFailed(e));
    case Readable(text) =>
      r := CompareText(o, fs, docs, doc, result, text);
  }

  /** The part of `detect_plagiarism` after the text has been read. */
  method CompareText(o: Oracles, fs: FileSystem, docs: seq<Document>, doc: Document, result: BasicVerdict, text: string)
    returns (r: BasicResult)
    ensures r == Compare(o, fs, docs, doc, result, text)
  {
    var similar := SearchSimilarDocuments(o, docs, doc, VectorThreshold);
    if similar == [] {
      return Analysed(result.(originality := 100.0, similarity := 0.0, message := NoSimilarDocuments));
    }
    var reading := ReadSimilarTexts(fs, similar);
    if reading.Err? {
      return Aborted(result.documentId, AnalysisFailed(reading.error));
    }
    var texts := reading.value;
    if texts == [] {
      return Analysed(result.(originality := 100.0, similarity := 0.0, message := SimilarUnreadable));
    }
    var v := JudgeText(o.md5, result, text, similar, texts);
    r := Analysed(v);
  }

  /** The verdict against the readable texts. */
  function Judge(h: Hasher, init: BasicVerdict, text: string, cands: seq<Candidate>, texts: seq<string>): BasicVerdict {
    var originality := Clamp(Originality(h, text, texts, ShingleSize));
    var plagiarized := originality < OriginalityLimit;
    init.(
      originality := originality,
      similarity := 100.0 - originality,
      similarDocuments := seq(|cands|, i requires 0 <= i < |cands| => Listing(cands[i])),
      isPlagiarized := plagiarized,
      message := if plagiarized then PlagiarismSuspectedAt(originality) else OriginalAt(originality))
  }

  /** The originality, the listing of every candidate and the flag. */
  method JudgeText(h: Hasher, result: BasicVerdict, text: string, similar: seq<Candidate>, texts: seq<string>)
    returns (v: BasicVerdict)
    ensures v == Judge(h, result, text, similar, texts)
  {
    var originality := CalculateOriginalityLargeTexts(h, text, texts, ShingleSize);
    var clamped := Clamp(originality);
    var listed := ListSimilar(similar);
    var plagiarized := clamped < OriginalityLimit;
    v := result.(
      originality := clamped,
      similarity := 100.0 - clamped,
      similarDocuments := listed,
      isPlagiarized := plagiarized,
      message := if plagiarized then PlagiarismSuspectedAt(clamped) else OriginalAt(clamped));
  }

  /** The loop that collects `similar_texts`. */
  method ReadSimilarTexts(fs: FileSystem, cands: seq<Candidate>) returns (r: Result<seq<string>, string>)
    ensures r == ReadTexts(fs, cands)
  {
    var texts := [];
    var i := 0;
    while i < |cands|
      invariant 0 <= i <= |cands|
      invariant ReadTexts(fs, cands[..i]) == Ok(texts)
    {
      assert cands[..i + 1][..i] == cands[..i];
      var f := cands[i].doc.txtFile;
      if f != "" && f in fs {
        match fs[f] {
          case Unreadable(e) =>
            ReadTextsStops(fs, cands, i + 1);
            return Err(e);
          case Readable(t) =>
            texts := texts + [t];
        }
      }
      i := i + 1;
    }
    assert cands[..|cands|] == cands;
    r := Ok(texts);
  }

  /** Once the reading fails on a prefix, it fails on the whole list with the same error. */
  lemma {:induction false} ReadTextsStops(fs: FileSystem, cands: seq<Candidate>, n: nat)
    requires n <= |cands| && ReadTexts(fs, cands[..n]).Err?
    ensures ReadTexts(fs, cands) == ReadTexts(fs, cands[..n])
    decreases |cands| - n
  {
    if n < |cands| {
      assert cands[..n + 1][..n] == cands[..n];
      ReadTextsStops(fs, cands, n + 1);
    } else {
      assert cands[..n] == cands;
    }
  }

  /** The loop that lists every candidate, readable or not. */
  method ListSimilar(cands: seq<Candidate>) returns (listed: seq<Listed>)
    ensures listed == seq(|cands|, i requires 0 <= i < |cands| => Listing(cands[i]))
  {
    listed := [];
    var i := 0;
    while i < |cands|
      invariant 0 <= i <= |cands|
      invariant |listed| == i
      invariant forall j :: 0 <= j < i ==> listed[j] == Listing(cands[j])
    {
      listed := listed + [Listing(cands[i])];
      i := i + 1;
    }
  }

  // ---------------------------------------------------------------- properties of the verdict

  /**
    With no candidate, or none with a readable text, the document is fully original
    and not flagged; otherwise its originality is the clamped union-based originality
    against the readable texts, similarity is the complement, every candidate is
    listed, and the flag is exactly `originality < 80`.
  */
  lemma {:induction false} CompareOutcome(o: Oracles, fs: FileSystem, docs: seq<Document>, doc: Document, text: string)
    ensures var init := Initial(doc.id, doc.name);
      var r := Compare(o, fs, docs, doc, init, text);
      var cands := CosineSearch(o, docs, doc, VectorThreshold);
      var reading := ReadTexts(fs, cands);
      ((cands == [] || reading == Ok([])) ==>
        r.Analysed? && r.verdict.originality == 100.0 && r.verdict.similarity == 0.0 && !r.verdict.isPlagiarized) &&
      (cands != [] && reading.Ok? && reading.value != [] ==>
        var u := Originality(o.md5, text, reading.value, 3);
        r.Analysed? && r.verdict.status == Success &&
        r.verdict.originality == (if u < 0.0 then 0.0 else u) && 0.0 <= r.verdict.originality <= 99.99 &&
        r.verdict.similarity == 100.0 - r.verdict.originality &&
        |r.verdict.similarDocuments| == |cands| &&
        (forall i :: 0 <= i < |cands| ==> r.verdict.similarDocuments[i].id == cands[i].doc.id) &&
        (r.verdict.isPlagiarized <==> r.verdict.originality < 80.0))
  {
    var cands := CosineSearch(o, docs, doc, VectorThreshold);
    var reading := ReadTexts(fs, cands);
    if cands != [] && reading.Ok? && reading.value != [] {
      var u := Originality(o.md5, text, reading.value, 3);
      assert -0.01 <= u <= 99.99 by {
        assert u == OriginalityOf(Shingles(o.md5, text, 3), CorpusShingles(o.md5, reading.value, 3));
      }
    }
  }

  /** Only a successful analysis can be flagged. */
  lemma {:induction false} FlaggedSucceeded(o: Oracles, fs: FileSystem, docs: seq<Document>, id: int)
    ensures var r := Detect(o, fs, docs, id);
      r.Analysed? && r.verdict.isPlagiarized ==> r.Status() == Success
  {
  }

  // ---------------------------------------------------------------- the report

  /** `get_plagiarism_report` without the results list; a NaN mean is `None`. */
  datatype Report = Report(total: nat, plagiarized: nat, errors: nat, averageOriginality: Option<real>, plagiarismRate: real)

  /** `r.get('is_plagiarized', False)`. */
  predicate Flagged(r: BasicResult) {
    r.Analysed? && r.verdict.isPlagiarized
  }

  function CountFlagged(rs: seq<BasicResult>): (n: nat)
    ensures n <= |rs|
  {
    if rs == [] then 0 else CountFlagged(rs[..|rs| - 1]) + if Flagged(rs[|rs| - 1]) then 1 else 0
  }

  function CountErrors(rs: seq<BasicResult>): (n: nat)
    ensures n <= |rs|
  {
    if rs == [] then 0 else CountErrors(rs[..|rs| - 1]) + if rs[|rs| - 1].Status() == Error then 1 else 0
  }

  function SuccessOriginalities(rs: seq<BasicResult>): seq<real> {
    if rs == [] then []
    else
      var r := rs[|rs| - 1];
      SuccessOriginalities(rs[..|rs| - 1]) + if r.Status() == Success then [r.verdict.originality] else []
  }

  function Summarize(rs: seq<BasicResult>): Report {
    var flagged := CountFlagged(rs);
    var originalities := SuccessOriginalities(rs);
    Report(
      |rs|, flagged, CountErrors(rs),
      if originalities == [] then None else Some(Sum(originalities) / (|originalities| as real)),
      if |rs| == 0 then 0.0 else (flagged as real) / (|rs| as real) * 100.0)
  }

  /**
    The rate is the flagged share of ALL results, errors included, as a percentage;
    it is 0 without documents.
  */
  lemma {:induction false} RateBounds(rs: seq<BasicResult>)
    ensures var s := Summarize(rs);
      0.0 <= s.plagiarismRate <= 100.0 &&
      (s.total == 0 ==> s.plagiarismRate == 0.0) &&
      (s.total > 0 ==> s.plagiarismRate * (s.total as real) == (s.plagiarized as real) * 100.0)
  {
    var s := Summarize(rs);
    if |rs| > 0 {
      var p, n := CountFlagged(rs) as real, |rs| as real;
      assert s.plagiarismRate == p / n * 100.0;
      LegacyAdvanced.Percent(p, n);
    }
  }

  /** When flagged results are never errors, flagged and error results are disjoint counts. */
  lemma {:induction false} FlaggedAndErrors(rs: seq<BasicResult>)
    requires forall i :: 0 <= i < |rs| && Flagged(rs[i]) ==> rs[i].Status() == Success
    ensures CountFlagged(rs) + CountErrors(rs) <= |rs|
  {
    if rs != [] {
      FlaggedAndErrors(rs[..|rs| - 1]);
    }
  }

  /** `analyze_all_documents` and the statistics of `get_plagiarism_report`. */
  method GetPlagiarismReport(o: Oracles, fs: FileSystem, docs: seq<Document>) returns (results: seq<BasicResult>, report: Report)
    ensures |results| == |docs|
    ensures forall i :: 0 <= i < |docs| ==> results[i] == Detect(o, fs, docs, ById(docs)[i].id)
    ensures report == Summarize(results)
    ensures report.plagiarized + report.errors <= report.total
  {
    var ordered := ById(docs);
    results := [];
    var i := 0;
    while i < |ordered|
      invariant 0 <= i <= |ordered|
      invariant |results| == i
      invariant forall j :: 0 <= j < i ==> results[j] == Detect(o, fs, docs, ordered[j].id)
    {
      var r := DetectPlagiarism(o, fs, docs, ordered[i].id);
      results := results + [r];
      i := i + 1;
    }
    forall j | 0 <= j < |results| && Flagged(results[j])
      ensures results[j].Status() == Success
    {
      FlaggedSucceeded(o, fs, docs, ordered[j].id);
    }
    FlaggedAndErrors(results);
    report := Summarize(results);
  }
}
