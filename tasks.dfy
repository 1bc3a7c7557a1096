/**
  The Celery task `process_document_plagiarism` of `tasks.py`, one run of it with
  the number of retries already made, and `batch_process_documents`. The text
  extraction and the vectorisation are given as their outcomes; the analysis is the
  production detector over the current table, files and cache.
*/
module Tasks {
  import opened Wrappers
  import opened Documents
  import opened Cache
  import opened AdvancedDetector
  import opened Database
  import opened Vectors

  /** `max_retries` of the Celery task decorator. */
  const MaxRetries: nat := 3
  /** The `countdown` of `self.retry`, in seconds. */
  const RetryCountdown: nat := 60

  /** What `clean_text_from_pdf` and the writing of the text file come to. */
  datatype Extraction = Extracted(text: string) | ExtractionFailed(cause: string)

  /** What `process_text` and `set_vector_array` come to: the stored vector, or an exception. */
  datatype Vectorisation = Vectorised(vector: Option<seq<real>>) | VectorisationFailed(cause: string)

  /** The Celery task's return value, or the retry it raises. */
  datatype TaskOutcome =
    | Succeeded(documentId: int, originality: real, message: Message)
    | Retrying(countdown: nat, error: ErrorText)
    | GaveUp(documentId: int, error: ErrorText)

  const StartFields: set<Field> := {ProcessingStatusField, StartedAtField}
  const SuccessFields: set<Field> := {ResultField, DetailedAnalysisField, ProcessingStatusField, CompletedAtField, ProcessingErrorField}
  const FailureFields: set<Field> := {ProcessingStatusField, ProcessingErrorField, CompletedAtField}

  /** The stored vector after step 2: a failed vectorisation leaves none. */
  function VectorAfter(vec: Vectorisation): Option<seq<real>> {
    match vec
    case Vectorised(v) => v
    case VectorisationFailed(_) => None
  }

  /**
    The handler's save: the row is read again and marked failed with the error text
    and a completion time; nothing is saved if it does not exist.
  */
  function FailRow(s: DbState, id: int, err: ErrorText, now: Time): DbState {
    match Find(s.docs, id)
    case None => s
    case Some(j) =>
      SaveRow(s, j, s.docs[j].(processingStatus := Failed, processingError := Some(err), completedAt := Some(now)), FailureFields)
  }

  /**
    The outer handler: the failure is saved, then the Celery task retries while fewer than
    3 retries were made and otherwise returns the failed result.
  */
  function Fail(s: DbState, id: int, retries: nat, err: ErrorText, now: Time): (TaskOutcome, DbState) {
    (if retries < MaxRetries then Retrying(RetryCountdown, err) else GaveUp(id, err), FailRow(s, id, err, now))
  }

  /** Step 3: the analysis of the row at `i` after the refresh, and what is stored. */
  function Analyse(o: Oracles, s: DbState, st: CacheState, i: nat, retries: nat, now: Time): (TaskOutcome, DbState, CacheState)
    requires i < |s.docs| && Coherent(st)
  {
    var id := s.docs[i].id;
    var (r, st') := Detect(o, s.files, st, s.docs, id);
    if r.Status() == Success then
      var v := r.verdict;
      var local := s.docs[i].(result := Some(v.originality), detailedAnalysis := Some(v), processingStatus := Completed,
                              completedAt := Some(now), processingError := None);
      (Succeeded(id, v.originality, v.message), SaveRow(s, i, local, SuccessFields), st')
    else
      var (out, s') := Fail(s, id, retries, PlagiarismAnalysis(r.Msg()), now);
      (out, s', st')
  }

  /** Step 0: the row is marked 'processing' with its start time. */
  function Start(s: DbState, i: nat, started: Time): DbState
    requires i < |s.docs|
  {
    SaveRow(s, i, s.docs[i].(processingStatus := Processing, startedAt := Some(started)), StartFields)
  }

  /** Steps 1 and 2: the text file is written and named on the row, then the vector is stored. */
  function Store(s: DbState, i: nat, text: string, vec: Vectorisation): DbState
    requires i < |s.docs|
  {
    var name := TxtFileName(s.docs[i].name);
    var s2 := s.(files := s.files[name := Readable(text)]);
    var s3 := SaveRow(s2, i, s2.docs[i].(txtFile := name), {TxtFileField});
    SaveRow(s3, i, s3.docs[i].(vector := VectorAfter(vec)), {VectorField})
  }

  /** One run of `process_document_plagiarism(document_id)` after `retries` retries. */
  function Task(o: Oracles, s: DbState, st: CacheState, id: int, retries: nat, ex: Extraction, vec: Vectorisation,
                started: Time, finished: Time): (TaskOutcome, DbState, CacheState)
    requires Coherent(st)
  {
    match Find(s.docs, id)
    case None =>
      var (out, s') := Fail(s, id, retries, DoesNotExist, finished);
      (out, s', st)
    case Some(i) =>
      var s1 := Start(s, i, started);
      match ex
      case ExtractionFailed(e) =>
        var (out, s') := Fail(s1, id, retries, PdfExtraction(e), finished);
        (out, s', st)
      case Extracted(text) =>
        Analyse(o, Store(s1, i, text, vec), st, i, retries, finished)
  }

  /**
    Steps 0 to 2 touch only row `i`, and there only the columns they name: the
    start time, the text file and the vector; each save is logged.
  */
  lemma {:induction false} StartStore(s: DbState, i: nat, started: Time, text: string, vec: Vectorisation)
    requires i < |s.docs|
    ensures var s1 := Start(s, i, started);
      var s4 := Store(s1, i, text, vec);
      var id := s.docs[i].id;
      |s4.docs| == |s.docs| && (forall j :: 0 <= j < |s.docs| && j != i ==> s4.docs[j] == s.docs[j]) &&
      s4.docs[i] == s.docs[i].(processingStatus := Processing, startedAt := Some(started),
                               txtFile := TxtFileName(s.docs[i].name), vector := VectorAfter(vec)) &&
      s4.journal == s.journal + [Save(id, StartFields), Save(id, {TxtFileField}), Save(id, {VectorField})] &&
      s4.files == s.files[TxtFileName(s.docs[i].name) := Readable(text)] &&
      forall x :: Find(s4.docs, x) == Find(s.docs, x)
  {
    var s1 := Start(s, i, started);
    var name := TxtFileName(s.docs[i].name);
    var s2 := s1.(files := s1.files[name := Readable(text)]);
    var s3 := SaveRow(s2, i, s2.docs[i].(txtFile := name), {TxtFileField});
    forall x ensures Find(Store(s1, i, text, vec).docs, x) == Find(s.docs, x) {
      SaveRowFind(s, i, s.docs[i].(processingStatus := Processing, startedAt := Some(started)), StartFields, x);
      SaveRowFind(s2, i, s2.docs[i].(txtFile := name), {TxtFileField}, x);
      SaveRowFind(s3, i, s3.docs[i].(vector := VectorAfter(vec)), {VectorField}, x);
    }
  }

  // ---------------------------------------------------------------- the Celery task as code

  method ProcessDocumentPlagiarism(o: Oracles, db: Db, cache: RedisCache, id: int, retries: nat,
                                   ex: Extraction, vec: Vectorisation, started: Time, finished: Time)
    returns (outcome: TaskOutcome)
    requires cache.Valid()
    modifies db, cache
    ensures cache.Valid()
    ensures (outcome, db.State(), cache.State()) == Task(o, old(db.State()), old(cache.State()), id, retries, ex, vec, started, finished)
  {
    var found := db.Get(id);
    if found.None? {
      outcome := MarkFailed(db, id, retries, DoesNotExist, finished);
      return;
    }
    var i := found.value;
    var doc := db.docs[i];
    doc := doc.(processingStatus := Processing, startedAt := Some(started));
    db.SaveObject(i, doc, StartFields);
    match ex
    case ExtractionFailed(e) =>
      outcome := MarkFailed(db, id, retries, PdfExtraction(e), finished);
    case Extracted(text) =>
      var name := TxtFileName(doc.name);
      db.WriteFile(name, text);
      doc := db.docs[i].(txtFile := name);
      db.SaveObject(i, doc, {TxtFileField});
      match vec {
        case Vectorised(v) =>
          doc := db.docs[i].(vector := v);
        case VectorisationFailed(_) =>
          doc := db.docs[i].(vector := None);
      }
      db.SaveObject(i, doc, {VectorField});
      outcome := AnalyseStored(o, db, cache, i, retries, finished);
  }

  /** Step 3 and the saves after it. */
  method AnalyseStored(o: Oracles, db: Db, cache: RedisCache, i: nat, retries: nat, now: Time) returns (outcome: TaskOutcome)
    requires cache.Valid() && i < |db.docs|
    modifies db, cache
    ensures cache.Valid()
    ensures (outcome, db.State(), cache.State()) == Analyse(o, old(db.State()), old(cache.State()), i, retries, now)
  {
    var doc := db.docs[i];
    var r := DetectPlagiarism(o, db.files, cache, db.docs, doc.id);
    if r.Status() == Success {
      var v := r.verdict;
      doc := doc.(result := Some(v.originality), detailedAnalysis := Some(v), processingStatus := Completed,
                  completedAt := Some(now), processingError := None);
      db.SaveObject(i, doc, SuccessFields);
      outcome := Succeeded(doc.id, v.originality, v.message);
    } else {
      outcome := MarkFailed(db, doc.id, retries, PlagiarismAnalysis(r.Msg()), now);
    }
  }

  /** The `except` clause of the Celery task. */
  method MarkFailed(db: Db, id: int, retries: nat, err: ErrorText, now: Time) returns (outcome: TaskOutcome)
    modifies db
    ensures (outcome, db.State()) == Fail(old(db.State()), id, retries, err, now)
  {
    SaveFailure(db, id, err, now);
    if retries < MaxRetries {
      outcome := Retrying(RetryCountdown, err);
    } else {
      outcome := GaveUp(id, err);
    }
  }

  /** The handler's save, shared with the synchronous path. */
  method SaveFailure(db: Db, id: int, err: ErrorText, now: Time)
    modifies db
    ensures db.State() == FailRow(old(db.State()), id, err, now)
  {
    var found := db.Get(id);
    if found.Some? {
      var j := found.value;
      var doc := db.docs[j].(processingStatus := Failed, processingError := Some(err), completedAt := Some(now));
      db.SaveObject(j, doc, FailureFields);
    }
  }

  /** One entry of the list `batch_process_documents` returns. */
  datatype Queued = Queued(documentId: int, taskId: nat)

  /** `batch_process_documents`: one message per id, one entry per id, in input order. */
  method BatchProcessDocuments(broker: Broker, ids: seq<int>) returns (results: seq<Queued>)
    modifies broker
    ensures broker.sent == old(broker.sent) + ids
    ensures |results| == |ids|
    ensures forall k :: 0 <= k < |ids| ==> results[k] == Queued(ids[k], |old(broker.sent)| + k)
  {
    results := [];
    var k := 0;
    while k < |ids|
      invariant 0 <= k <= |ids|
      invariant broker.sent == old(broker.sent) + ids[..k]
      invariant |results| == k
      invariant forall j :: 0 <= j < k ==> results[j] == Queued(ids[j], |old(broker.sent)| + j)
    {
      var taskId := broker.Delay(ids[k]);
      assert ids[..k + 1] == ids[..k] + [ids[k]];
      results := results + [Queued(ids[k], taskId)];
      k := k + 1;
    }
    assert ids[..k] == ids;
  }

  // ---------------------------------------------------------------- properties

  /**
    For an existing document, the first save of the run is 'processing' with the
    start time, before anything is extracted, and the start time stays stored.
  */
  lemma {:induction false} StartPersistedFirst(o: Oracles, s: DbState, st: CacheState, i: nat, retries: nat,
                            ex: Extraction, vec: Vectorisation, started: Time, finished: Time)
    requires Coherent(st) && i < |s.docs| && UniqueIds(s.docs)
    ensures var (_, s', _) := Task(o, s, st, s.docs[i].id, retries, ex, vec, started, finished);
      |s'.journal| > |s.journal| && s'.journal[|s.journal|] == Save(s.docs[i].id, StartFields) &&
      |s'.docs| == |s.docs| && s'.docs[i].startedAt == Some(started)
  {
    FindUnique(s.docs, i);
    var s1 := Start(s, i, started);
    SaveRowFind(s, i, s.docs[i].(processingStatus := Processing, startedAt := Some(started)), StartFields, s.docs[i].id);
    match ex
    case ExtractionFailed(e) =>
    case Extracted(text) =>
      StartStore(s, i, started, text, vec);
      UniqueAfter(s, Store(s1, i, text, vec).docs);
      AnalysisOutcome(o, Store(s1, i, text, vec), st, i, retries, finished);
  }

  /**
    A failed extraction skips vectorisation and analysis: after the 'processing'
    save the row is marked failed with the wrapped error, and neither the files nor
    the cache change.
  */
  lemma {:induction false} ExtractionFailure(o: Oracles, s: DbState, st: CacheState, i: nat, retries: nat,
                          cause: string, vec: Vectorisation, started: Time, finished: Time)
    requires Coherent(st) && i < |s.docs| && UniqueIds(s.docs)
    ensures var id := s.docs[i].id;
      var (out, s', st') := Task(o, s, st, id, retries, ExtractionFailed(cause), vec, started, finished);
      st' == st && s'.files == s.files &&
      s'.journal == s.journal + [Save(id, StartFields), Save(id, FailureFields)] &&
      s'.docs == s.docs[i := s.docs[i].(processingStatus := Failed, processingError := Some(PdfExtraction(cause)),
                                        startedAt := Some(started), completedAt := Some(finished))] &&
      !out.Succeeded?
  {
    var id := s.docs[i].id;
    FindUnique(s.docs, i);
    var local := s.docs[i].(processingStatus := Processing, startedAt := Some(started));
    SaveRowFind(s, i, local, StartFields, id);
  }

  /** A failed vectorisation is not fatal: the run is the one with no vector, analysis included. */
  lemma {:induction false} VectorisationNonFatal(o: Oracles, s: DbState, st: CacheState, id: int, retries: nat,
                              text: string, cause: string, started: Time, finished: Time)
    requires Coherent(st)
    ensures Task(o, s, st, id, retries, Extracted(text), VectorisationFailed(cause), started, finished) ==
            Task(o, s, st, id, retries, Extracted(text), Vectorised(None), started, finished)
  {
  }

  /**
    After a successful extraction, the run succeeds exactly when the detector's
    status is 'success'. Then the originality becomes `result`, the row is
    'completed' with no error and a completion time, and the `status` foreign key
    is left as it was; otherwise the row is 'failed' with the detector's message.
    No other row changes.
  */
  lemma {:induction false} AnalysisOutcome(o: Oracles, s: DbState, st: CacheState, i: nat, retries: nat, now: Time)
    requires Coherent(st) && i < |s.docs| && UniqueIds(s.docs)
    ensures var (out, s', _) := Analyse(o, s, st, i, retries, now);
      var (r, _) := Detect(o, s.files, st, s.docs, s.docs[i].id);
      |s'.docs| == |s.docs| && s'.docs[i].status == s.docs[i].status &&
      s'.docs[i].startedAt == s.docs[i].startedAt &&
      (forall j :: 0 <= j < |s.docs| && j != i ==> s'.docs[j] == s.docs[j]) &&
      (out.Succeeded? <==> r.Status() == Success) &&
      (r.Status() == Success ==>
        out.originality == r.verdict.originality &&
        s'.docs[i].result == Some(r.verdict.originality) && s'.docs[i].processingStatus == Completed &&
        s'.docs[i].processingError == None && s'.docs[i].completedAt == Some(now) &&
        s'.docs[i].detailedAnalysis == Some(r.verdict)) &&
      (r.Status() != Success ==>
        s'.docs[i].processingStatus == Failed && s'.docs[i].processingError == Some(PlagiarismAnalysis(r.Msg())) &&
        s'.docs[i].result == s.docs[i].result)
  {
    FindUnique(s.docs, i);
  }

  /** The retry decision of the handler. */
  predicate RetryRule(out: TaskOutcome, id: int, retries: nat) {
    (out.Retrying? ==> retries < MaxRetries && out.countdown == RetryCountdown) &&
    (out.GaveUp? ==> retries >= MaxRetries && out.documentId == id) &&
    (!out.Succeeded? ==> (out.Retrying? <==> retries < MaxRetries))
  }

  /**
    Every failure ends in a retry with countdown 60 while fewer than 3 retries were
    made, and in the failed result after that.
  */
  lemma {:induction false} RetryPolicy(o: Oracles, s: DbState, st: CacheState, id: int, retries: nat,
                    ex: Extraction, vec: Vectorisation, started: Time, finished: Time)
    requires Coherent(st)
    ensures var (out, _, _) := Task(o, s, st, id, retries, ex, vec, started, finished);
      RetryRule(out, id, retries) && (out.Retrying? <==> !out.Succeeded? && retries < 3)
  {
    match Find(s.docs, id)
    case None =>
    case Some(i) =>
      match ex
      case ExtractionFailed(e) =>
      case Extracted(text) =>
        var s4 := Store(Start(s, i, started), i, text, vec);
        var (r, _) := Detect(o, s4.files, st, s4.docs, s4.docs[i].id);
        assert s4.docs[i].id == id;
  }

  /** No run touches another row or the `status` foreign key of its own. */
  lemma {:induction false} OtherRowsUnchanged(o: Oracles, s: DbState, st: CacheState, id: int, retries: nat,
                           ex: Extraction, vec: Vectorisation, started: Time, finished: Time)
    requires Coherent(st) && UniqueIds(s.docs)
    ensures var (_, s', _) := Task(o, s, st, id, retries, ex, vec, started, finished);
      |s'.docs| == |s.docs| &&
      forall j :: 0 <= j < |s.docs| ==> s'.docs[j].status == s.docs[j].status && (s.docs[j].id != id ==> s'.docs[j] == s.docs[j])
  {
    match Find(s.docs, id)
    case None =>
    case Some(i) =>
      match ex
      case ExtractionFailed(e) =>
        SaveRowFind(s, i, s.docs[i].(processingStatus := Processing, startedAt := Some(started)), StartFields, id);
      case Extracted(text) =>
        AnalysedRows(o, s, st, i, retries, text, vec, started, finished);
  }

  /** The rows after a run that reached the analysis. */
  lemma {:induction false} AnalysedRows(o: Oracles, s: DbState, st: CacheState, i: nat, retries: nat,
                     text: string, vec: Vectorisation, started: Time, finished: Time)
    requires Coherent(st) && UniqueIds(s.docs) && i < |s.docs|
    ensures var s' := Analyse(o, Store(Start(s, i, started), i, text, vec), st, i, retries, finished).1;
      |s'.docs| == |s.docs| && s'.docs[i].status == s.docs[i].status &&
      forall j :: 0 <= j < |s.docs| && j != i ==> s'.docs[j] == s.docs[j]
  {
    var s4 := Store(Start(s, i, started), i, text, vec);
    StartStore(s, i, started, text, vec);
    UniqueAfter(s, s4.docs);
    AnalysisOutcome(o, s4, st, i, retries, finished);
  }

  /** Rows with the same primary keys keep the keys unique. */
  lemma {:induction false} UniqueAfter(s: DbState, docs: seq<Document>)
    requires UniqueIds(s.docs) && |docs| == |s.docs|
    requires forall j :: 0 <= j < |s.docs| ==> docs[j].id == s.docs[j].id
    ensures UniqueIds(docs)
  {
  }

  /**
    With the vectoriser as it stands (`process_text` returns `None`), every run
    that gets past extraction stores no vector, so the detector never takes the
    vector search path for the document.
  */
  lemma {:induction false} ProcessTextStoresNoVector(s: DbState, i: nat, started: Time, text: string, path: string)
    requires i < |s.docs|
    ensures var s4 := Store(Start(s, i, started), i, text, Vectorised(ProcessText(path)));
      |s4.docs| == |s.docs| && s4.docs[i].vector == None && !HasVector(s4.docs[i])
  {
    StartStore(s, i, started, text, Vectorised(ProcessText(path)));
  }
}
