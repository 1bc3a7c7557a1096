/**
  The document record (the `Document` model with the fields its migrations add),
  the analysis report a detector returns, the error text stored on a failed
  document, the files the detectors read, and the outside functions the model
  takes as given.
*/
module Documents {
  import opened Wrappers
  import SimCos
  import Sorting

  /** A reading of `timezone.now()`; only its presence matters here. */
  type Time = int

  /** `processing_status`: 'queue', 'processing', 'completed' or 'failed'. */
  datatype ProcessingStatus = Queue | Processing | Completed | Failed

  /** The primary key of the `Status` row the `status` foreign key points to. */
  type StatusId = nat

  const DefaultStatus: StatusId := 1
  const CheckedStatus: StatusId := 2

  // ---------------------------------------------------------------- analysis reports

  /** `plagiarism_risk`. */
  datatype Risk = VeryLow | Low | Medium | High | VeryHigh

  /** The `status` of an analysis result: 'success', 'warning' or 'error'. */
  datatype AnalysisStatus = Success | Warning | Error

  /** The per-metric scores of `calculate_text_similarity`; an absent key is `None`. */
  datatype TextSimilarity = TextSimilarity(
    shingle1: Option<real>,
    shingle3: Option<real>,
    shingle5: Option<real>,
    word: Option<real>,
    chars: real,
    sentence: Option<real>,
    overall: real)

  /** One entry of `similar_documents`. */
  datatype SimilarEntry = SimilarEntry(
    id: int,
    name: Option<string>,
    vectorSimilarity: real,
    textSimilarity: real,
    detail: TextSimilarity,
    originality: real)

  /** One entry of `source_matches`: a file-name duplicate or a text source. */
  datatype SourceMatch =
    | NameMatch(documentId: int, documentName: Option<string>, fileName: string)
    | TextMatch(documentId: int, documentName: Option<string>, matchPercent: real, citationPercent: real)

  /** `detailed_analysis` of a successful comparison. */
  datatype Analysis = Analysis(
    maxSimilarity: real,
    avgSimilarity: real,
    similarDocumentsCount: nat,
    textLength: nat,
    methods: seq<string>)

  /** The `message` of a result; the texts themselves are not modelled, only which one is chosen. */
  datatype Message =
    | NoMessage
    | SameFileName(fileName: string)
    | NoTxtFile
    | TxtFileMissing(path: string)
    | TextTooShort(length: nat)
    | NoSimilarDocuments
    | SimilarUnreadable
    | PlagiarismSuspected(originality: real, maxSimilarity: real)
    | Original(originality: real, maxSimilarity: real)
    | PlagiarismSuspectedAt(originality: real)        // the basic script's messages, without a similarity
    | OriginalAt(originality: real)
    | DocumentNotFound(id: int)
    | AnalysisFailed(cause: string)

  /** A full result dictionary. */
  datatype Verdict = Verdict(
    documentId: int,
    documentName: Option<string>,
    status: AnalysisStatus,
    originality: real,
    similarity: real,
    similarDocuments: seq<SimilarEntry>,
    isPlagiarized: bool,
    risk: Risk,
    detailed: Option<Analysis>,
    citations: Option<real>,
    sourceMatches: Option<seq<SourceMatch>>,
    message: Message)

  /**
    What `detect_plagiarism` returns: a full dictionary, or the short
    `{document_id, status: 'error', message}` one of its exception handlers.
  */
  datatype DetectResult = Full(verdict: Verdict) | Bare(documentId: int, message: Message)
  {
    function Status(): AnalysisStatus {
      match this
      case Full(v) => v.status
      case Bare(_, _) => Error
    }

    function Msg(): Message {
      match this
      case Full(v) => v.message
      case Bare(_, m) => m
    }
  }

  /** The initial result dictionary of a found document. */
  function Initial(id: int, name: Option<string>): (v: Verdict)
    ensures v.status == Success && v.originality == 0.0 && !v.isPlagiarized
  {
    Verdict(id, name, Success, 0.0, 0.0, [], false, Low, None, None, None, NoMessage)
  }

  // ---------------------------------------------------------------- processing errors

  /** What `str(exc)` gives for the exceptions the processing paths store in `processing_error`. */
  datatype ErrorText =
    | Raw(cause: string)                       // an extractor's own exception text
    | AnalysisMessage(message: Message)        // `Exception(analysis_result['message'])`
    | PdfExtraction(cause: string)             // 'Ошибка при извлечении текста из PDF: ' + cause
    | PlagiarismAnalysis(message: Message)     // 'Ошибка при анализе плагиата: ' + message
    | DoesNotExist                             // `Document.DoesNotExist`

  // ---------------------------------------------------------------- the record

  datatype Document = Document(
    id: int,
    name: Option<string>,
    result: Option<real>,
    status: StatusId,
    data: string,                 // the uploaded file's name, "" when there is none
    txtFile: string,              // the `txt_file` name, "" when null or empty
    vector: Option<seq<real>>,
    onDefense: bool,
    processingStatus: ProcessingStatus,
    startedAt: Option<Time>,
    completedAt: Option<Time>,
    processingError: Option<ErrorText>,
    detailedAnalysis: Option<Verdict>)

  function NegatedId(d: Document): real {
    -(d.id as real)
  }

  /**
    `order_by('id')`: the records in ascending order of id, the same records as the
    table holds.
  */
  function ById(docs: seq<Document>): (r: seq<Document>)
    ensures |r| == |docs| && multiset(r) == multiset(docs)
    ensures forall i, j :: 0 <= i < j < |r| ==> r[i].id <= r[j].id
  {
    var r := Sorting.SortDesc(docs, NegatedId);
    assert forall i, j :: 0 <= i < j < |r| ==> NegatedId(r[i]) >= NegatedId(r[j]);
    r
  }

  /** `if document.vector:` — present and not empty. */
  predicate HasVector(d: Document) {
    d.vector.Some? && |d.vector.value| > 0
  }

  /** `f"{doc.name}.txt"` keeps `None` as the text "None". */
  function NameText(name: Option<string>): string {
    match name
    case Some(n) => n
    case None => "None"
  }

  /** The `txt_file` value the processing paths assign. */
  function TxtFileName(name: Option<string>): string {
    "txt_files/" + NameText(name) + ".txt"
  }

  /** Primary keys are unique. */
  predicate UniqueIds(docs: seq<Document>) {
    forall i, j :: 0 <= i < j < |docs| ==> docs[i].id != docs[j].id
  }

  /** `Document.objects.get(id=…)`: the record with that id, or `DoesNotExist`. */
  function Find(docs: seq<Document>, id: int): (r: Option<nat>)
    ensures r.Some? ==> r.value < |docs| && docs[r.value].id == id
    ensures r.None? ==> forall i :: 0 <= i < |docs| ==> docs[i].id != id
  {
    if docs == [] then None
    else if docs[0].id == id then Some(0)
    else match Find(docs[1..], id)
      case Some(i) => Some(i + 1)
      case None => None
  }

  /** A query filter: the records that satisfy `p`, in the table's order (`time_created`). */
  function Where(docs: seq<Document>, p: Document -> bool): (r: seq<Document>)
    ensures |r| <= |docs|
    ensures forall d :: d in r <==> d in docs && p(d)
  {
    if docs == [] then []
    else
      var init := Where(docs[..|docs| - 1], p);
      var last := docs[|docs| - 1];
      assert docs == docs[..|docs| - 1] + [last];
      if p(last) then init + [last] else init
  }

  /** Filtering one more record extends the result by that record when it qualifies. */
  lemma {:induction false} WhereSnoc(docs: seq<Document>, d: Document, p: Document -> bool)
    ensures Where(docs + [d], p) == Where(docs, p) + if p(d) then [d] else []
  {
    assert (docs + [d])[..|docs|] == docs;
  }

  // ---------------------------------------------------------------- files and outside functions

  /** The content of a text file: what `f.read()` gives, or a read that raises with the given text. */
  datatype FileContent = Readable(text: string) | Unreadable(reason: string)

  /**
    The text files, by the `txt_file` value that names them; a name that is not a
    key does not exist on disk.
  */
  type FileSystem = map<string, FileContent>

  /**
    Functions the model does not open up: MD5, the cosine of two vectors, the
    pgvector `<->` distance, `calculate_similarity_by_source` and `detect_citations`
    (imported but not defined in the code the model covers), and Python's `round(x, 2)`.
  */
  datatype Oracles = Oracles(
    md5: SimCos.Hasher,
    cosine: (seq<real>, seq<real>) -> real,
    distance: (seq<real>, seq<real>) -> real,
    bySource: (string, string, nat) -> real,
    citations: (string, string, nat) -> real,
    round2: real -> real)
}
