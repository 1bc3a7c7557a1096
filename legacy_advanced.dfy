/**
  The stand-alone script `advanced_plagiarism_detector.py`: the same text
  similarity as the production detector, retrieval without cache or `on_defense`
  filter, and originality from ONE comparison against the union of all readable
  candidate texts; plus the statistics of `generate_detailed_report`.
*/
module LegacyAdvanced {
  import opened Wrappers
  import opened SimCos
  import opened Documents
  import opened Similarity
  import opened AdvancedDetector
  import opened LegacySearch

  // The script's `__init__` sets the same threshold (0.6), originality threshold (85)
  // and minimum text length (100) as the production detector; those constants are used.

  /** The result with nothing to compare: this script sets no `citations` or `source_matches`. */
  function NothingToCompare(init: Verdict, m: Message): Verdict {
    init.(originality := 100.0, similarity := 0.0, message := m, risk := VeryLow)
  }

  /** The verdict with at least one readable candidate text. */
  function Judge(h: Hasher, init: Verdict, text: string, cands: seq<Candidate>, rd: Reading): Verdict
    requires rd.texts != [] && |rd.texts| == |rd.entries| == |rd.sims| <= |cands|
  {
    var originality := Clamp(Originality(h, text, rd.texts, 3));
    var maxSim := MaxOf(rd.sims);
    var avgSim := Sum(rd.sims) / (|rd.sims| as real);
    var plagiarized := originality < OriginalityThreshold || maxSim > 0.8;
    init.(
      originality := originality,
      similarity := 100.0 - originality,
      similarDocuments := rd.entries,
      risk := RiskOf(maxSim),
      isPlagiarized := plagiarized,
      detailed := Some(Analysis(maxSim, avgSim, |cands|, |text|, MethodNames(rd.entries[0].detail))),
      message := if plagiarized then PlagiarismSuspected(originality, maxSim) else Original(originality, maxSim))
  }

  /** The comparison part, once the text is known to be long enough. */
  function Compare(o: Oracles, fs: FileSystem, docs: seq<Document>, doc: Document, init: Verdict, text: string): DetectResult {
    var cands := CosineSearch(o, docs, doc, SimilarityThreshold);
    if cands == [] then Full(NothingToCompare(init, NoSimilarDocuments))
    else match ReadAll(o.md5, fs, text, cands)
      case Err(e) => Bare(init.documentId, AnalysisFailed(e))
      case Ok(rd) =>
        if rd.texts == [] then Full(NothingToCompare(init, SimilarUnreadable))
        else Full(Judge(o.md5, init, text, cands, rd))
  }

  /** What the script's `detect_plagiarism(document_id)` returns. */
  function Detect(o: Oracles, fs: FileSystem, docs: seq<Document>, id: int): DetectResult {
    match Find(docs, id)
    case None => Bare(id, DocumentNotFound(id))
    case Some(i) =>
      var doc := docs[i];
      var init := Initial(id, doc.name);
      if doc.txtFile == "" then Full(init.(status := Error, message := NoTxtFile))
      else if doc.txtFile !in fs then Full(init.(status := Error, message := TxtFileMissing(doc.txtFile)))
      else match fs[doc.txtFile]
        case Unreadable(e) => Bare(id, AnalysisFailed(e))
        case Readable(text) =>
          if |text| < MinTextLength then Full(init.(status := Warning, message := TextTooShort(|text|)))
          else Compare(o, fs, docs, doc, init, text)
  }

  /** `detect_plagiarism`, filling the result step by step. */
  method DetectPlagiarism(o: Oracles, fs: FileSystem, docs: seq<Document>, id: int) returns (r: DetectResult)
    ensures r == Detect(o, fs, docs, id)
  {
    var found := Find(docs, id);
    if found.None? {
      return Bare(id, DocumentNotFound(id));
    }
    var doc := docs[found.value];
    var result := Initial(id, doc.name);
    if doc.txtFile == "" {
      return Full(result.(status := Error, message := NoTxtFile));
    }
    if doc.txtFile !in fs {
      return Full(result.(status := Error, message := TxtFileMissing(doc.txtFile)));
    }
    match fs[doc.txtFile]
    case Unreadable(e) =>
      return Bare(id, AnalysisFailed(e));
    case Readable(text) =>
      if |text| < MinTextLength {
        return Full(result.(status := Warning, message := TextTooShort(|text|)));
      }
      r := CompareText(o, fs, docs, doc, result, text);
  }

  /** The part of `detect_plagiarism` after the text has been read. */
  method CompareText(o: Oracles, fs: FileSystem, docs: seq<Document>, doc: Document, result: Verdict, text: string)
    returns (r: DetectResult)
    ensures r == Compare(o, fs, docs, doc, result, text)
  {
    var similar := SearchSimilarDocuments(o, docs, doc, SimilarityThreshold);
    if similar == [] {
      return Full(NothingToCompare(result, NoSimilarDocuments));
    }
    var reading := ReadSimilarTexts(o.md5, fs, text, similar);
    if reading.Err? {
      return Bare(result.documentId, AnalysisFailed(reading.error));
    }
    var rd := reading.value;
    if rd.texts == [] {
      return Full(NothingToCompare(result, SimilarUnreadable));
    }
    var v := JudgeText(o.md5, result, text, similar, rd);
    r := Full(v);
  }

  /** The comparison against the readable texts and the result fields it sets. */
  method JudgeText(h: Hasher, result: Verdict, text: string, similar: seq<Candidate>, rd: Reading) returns (v: Verdict)
    requires rd.texts != [] && |rd.texts| == |rd.entries| == |rd.sims| <= |similar|
    ensures v == Judge(h, result, text, similar, rd)
  {
    var originality := CalculateOriginalityLargeTexts(h, text, rd.texts, 3);
    var clamped := Clamp(originality);
    var maxSim := MaxOf(rd.sims);
    var avgSim := Sum(rd.sims) / (|rd.sims| as real);
    var plagiarized := clamped < OriginalityThreshold || maxSim > 0.8;
    v := result.(
      originality := clamped,
      similarity := 100.0 - clamped,
      similarDocuments := rd.entries,
      risk := RiskOf(maxSim),
      isPlagiarized := plagiarized,
      detailed := Some(Analysis(maxSim, avgSim, |similar|, |text|, MethodNames(rd.entries[0].detail))),
      message := if plagiarized then PlagiarismSuspected(clamped, maxSim) else Original(clamped, maxSim));
  }

  // ---------------------------------------------------------------- properties of the verdict

  /**
    The exits before any comparison: an unknown id, a missing `txt_file`, a file
    that does not exist, one that cannot be read, and a text under 100 characters.
  */
  lemma {:induction false} DetectExits(o: Oracles, fs: FileSystem, docs: seq<Document>, i: nat)
    requires i < |docs| && UniqueIds(docs)
    ensures var doc := docs[i];
      var r := Detect(o, fs, docs, doc.id);
      (doc.txtFile == "" ==> r.Full? && r.verdict.status == Error && r.verdict.message == NoTxtFile) &&
      (doc.txtFile != "" && doc.txtFile !in fs ==> r.Full? && r.verdict.status == Error && r.verdict.message == TxtFileMissing(doc.txtFile)) &&
      (doc.txtFile != "" && doc.txtFile in fs && fs[doc.txtFile].Unreadable? ==> r == Bare(doc.id, AnalysisFailed(fs[doc.txtFile].reason))) &&
      (doc.txtFile != "" && doc.txtFile in fs && fs[doc.txtFile].Readable? && |fs[doc.txtFile].text| < MinTextLength ==>
        r.Full? && r.verdict.status == Warning && r.verdict.originality == 0.0)
  {
    FindUnique(docs, i);
  }

  /** With no candidate, or none whose text can be read, the document counts as fully original. */
  lemma {:induction false} CompareNothing(o: Oracles, fs: FileSystem, docs: seq<Document>, doc: Document, init: Verdict, text: string)
    requires var cands := CosineSearch(o, docs, doc, SimilarityThreshold);
      cands == [] || (ReadAll(o.md5, fs, text, cands).Ok? && ReadAll(o.md5, fs, text, cands).value.texts == [])
    ensures var r := Compare(o, fs, docs, doc, init, text);
      r.Full? && r.verdict.originality == 100.0 && r.verdict.similarity == 0.0 && r.verdict.risk == VeryLow &&
      r.verdict.isPlagiarized == init.isPlagiarized && r.verdict.status == init.status
  {
  }

  /**
    Otherwise the originality is a single union-based comparison (shingles of 3
    words) against all readable candidate texts, clamped, so it lies in [0, 99.99];
    similarity is its complement to 100, and the risk and the flag follow the
    maximum overall similarity as in the production detector.
  */
  lemma {:induction false} CompareUnion(o: Oracles, fs: FileSystem, docs: seq<Document>, doc: Document, init: Verdict, text: string)
    requires var cands := CosineSearch(o, docs, doc, SimilarityThreshold);
      cands != [] && ReadAll(o.md5, fs, text, cands).Ok? && ReadAll(o.md5, fs, text, cands).value.texts != []
    ensures var cands := CosineSearch(o, docs, doc, SimilarityThreshold);
      var rd := ReadAll(o.md5, fs, text, cands).value;
      var r := Compare(o, fs, docs, doc, init, text);
      var u := Originality(o.md5, text, rd.texts, 3);
      var maxSim := MaxOf(rd.sims);
      r.Full? && r.verdict.originality == (if u < 0.0 then 0.0 else u) &&
      0.0 <= r.verdict.originality <= 99.99 &&
      r.verdict.similarity == 100.0 - r.verdict.originality &&
      r.verdict.risk == RiskOf(maxSim) &&
      (r.verdict.isPlagiarized <==> r.verdict.originality < 85.0 || maxSim > 0.8) &&
      r.verdict.similarDocuments == rd.entries
  {
    var cands := CosineSearch(o, docs, doc, SimilarityThreshold);
    var rd := ReadAll(o.md5, fs, text, cands).value;
    var u := Originality(o.md5, text, rd.texts, 3);
    assert -0.01 <= u <= 99.99 by {
      assert u == OriginalityOf(Shingles(o.md5, text, 3), CorpusShingles(o.md5, rd.texts, 3));
    }
  }

  // ---------------------------------------------------------------- the report

  /** `risk_analysis`: the successful analyses per risk band. */
  datatype RiskCounts = RiskCounts(veryHigh: nat, high: nat, medium: nat, low: nat, veryLow: nat)

  /** `summary`; `average_originality` is `None` where `np.mean` of an empty list gives NaN. */
  datatype Summary = Summary(
    total: nat,
    successful: nat,
    plagiarized: nat,
    errors: nat,
    warnings: nat,
    averageOriginality: Option<real>,
    plagiarismRate: real)

  /** The results with the given `status`. */
  function CountStatus(rs: seq<DetectResult>, s: AnalysisStatus): (n: nat)
    ensures n <= |rs|
  {
    if rs == [] then 0
    else CountStatus(rs[..|rs| - 1], s) + if rs[|rs| - 1].Status() == s then 1 else 0
  }

  /** The successful results with the given risk. */
  function CountRisk(rs: seq<DetectResult>, risk: Risk): nat {
    if rs == [] then 0
    else
      var r := rs[|rs| - 1];
      CountRisk(rs[..|rs| - 1], risk) + if r.Status() == Success && r.verdict.risk == risk then 1 else 0
  }

  /** The successful results flagged as plagiarism. */
  function CountPlagiarized(rs: seq<DetectResult>): (n: nat)
    ensures n <= CountStatus(rs, Success)
  {
    if rs == [] then 0
    else
      var r := rs[|rs| - 1];
      CountPlagiarized(rs[..|rs| - 1]) + if r.Status() == Success && r.verdict.isPlagiarized then 1 else 0
  }

  /** The `originality` of the successful results, in order. */
  function SuccessOriginalities(rs: seq<DetectResult>): (xs: seq<real>)
    ensures |xs| == CountStatus(rs, Success)
  {
    if rs == [] then []
    else
      var r := rs[|rs| - 1];
      SuccessOriginalities(rs[..|rs| - 1]) + if r.Status() == Success then [r.verdict.originality] else []
  }

  function Risks(rs: seq<DetectResult>): RiskCounts {
    RiskCounts(CountRisk(rs, VeryHigh), CountRisk(rs, High), CountRisk(rs, Medium), CountRisk(rs, Low), CountRisk(rs, VeryLow))
  }

  function Summarize(rs: seq<DetectResult>): Summary {
    var successful := CountStatus(rs, Success);
    var plagiarized := CountPlagiarized(rs);
    var originalities := SuccessOriginalities(rs);
    Summary(
      |rs|, successful, plagiarized, CountStatus(rs, Error), CountStatus(rs, Warning),
      if originalities == [] then None else Some(Sum(originalities) / (|originalities| as real)),
      if successful == 0 then 0.0 else (plagiarized as real) / (successful as real) * 100.0)
  }

  /** Every result is a success, an error or a warning. */
  lemma {:induction false} StatusPartition(rs: seq<DetectResult>)
    ensures CountStatus(rs, Success) + CountStatus(rs, Error) + CountStatus(rs, Warning) == |rs|
  {
    if rs != [] {
      StatusPartition(rs[..|rs| - 1]);
    }
  }

  /** The five risk counts add up to the number of successful analyses. */
  lemma {:induction false} RiskCountsTotal(rs: seq<DetectResult>)
    ensures var c := Risks(rs);
      c.veryHigh + c.high + c.medium + c.low + c.veryLow == CountStatus(rs, Success)
  {
    if rs != [] {
      RiskCountsTotal(rs[..|rs| - 1]);
    }
  }

  /** The plagiarism rate is a percentage of the successful analyses, and 0 without any. */
  lemma {:induction false} RateBounds(rs: seq<DetectResult>)
    ensures var s := Summarize(rs);
      0.0 <= s.plagiarismRate <= 100.0 &&
      (s.successful == 0 ==> s.plagiarismRate == 0.0) &&
      (s.successful > 0 ==> s.plagiarismRate * (s.successful as real) == (s.plagiarized as real) * 100.0)
  {
    var s := Summarize(rs);
    if s.successful > 0 {
      var p, n := s.plagiarized as real, s.successful as real;
      assert s.plagiarismRate == p / n * 100.0;
      Percent(p, n);
    }
  }

  /** A share of a positive whole, as a percentage, lies in [0, 100]. */
  lemma {:induction false} Percent(p: real, n: real)
    requires 0.0 <= p <= n && 0.0 < n
    ensures 0.0 <= p / n * 100.0 <= 100.0 && p / n * 100.0 * n == p * 100.0
  {
    var q := p / n;
    assert q * n == p;
    assert 0.0 <= q <= 1.0;
  }

  /** `generate_detailed_report`: every record analysed in order of id, then the statistics. */
  method GenerateDetailedReport(o: Oracles, fs: FileSystem, docs: seq<Document>)
    returns (results: seq<DetectResult>, summary: Summary, risks: RiskCounts)
    ensures |results| == |docs|
    ensures forall i :: 0 <= i < |docs| ==> results[i] == Detect(o, fs, docs, ById(docs)[i].id)
    ensures summary == Summarize(results) && risks == Risks(results)
  {
    var ordered := ById(docs);
    results := [];
    var i := 0;
    while i < |ordered|
      invariant 0 <= i <= |ordered|
      invariant |results| == i
      invariant forall j :: 0 <= j < i ==> results[j] == Detect(o, fs, docs, ordered[j].id)
    {
      var r := DetectPlagiarism(o, fs, docs, ordered[i].id);
      results := results + [r];
      i := i + 1;
    }
    summary := Summarize(results);
    risks := Risks(results);
  }
}
