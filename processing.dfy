/**
  `process_document_sync` of `processing.py`: the same three steps as the Celery
  task, run in the request when no broker is available. It differs from the Celery task
  in three ways: errors are stored unwrapped, a success also moves the `status`
  foreign key to 'checked' (primary key 2), and a failure is re-raised instead of
  retried.
*/
module Processing {
  import opened Wrappers
  import opened Documents
  import opened Cache
  import opened AdvancedDetector
  import opened Database
  import opened Tasks

  /** The function's return value, or the exception it re-raises. */
  datatype SyncOutcome = Done(documentId: int, originality: real) | Raised(error: ErrorText)

  const SyncSuccessFields: set<Field> := SuccessFields + {StatusField}

  /** Step 3 of the synchronous path. */
  function SyncAnalyse(o: Oracles, s: DbState, st: CacheState, i: nat, now: Time): (SyncOutcome, DbState, CacheState)
    requires i < |s.docs| && Coherent(st)
  {
    var id := s.docs[i].id;
    var (r, st') := Detect(o, s.files, st, s.docs, id);
    if r.Status() == Success then
      var v := r.verdict;
      var local := s.docs[i].(result := Some(v.originality), detailedAnalysis := Some(v), processingStatus := Completed,
                              status := CheckedStatus, completedAt := Some(now), processingError := None);
      (Done(id, v.originality), SaveRow(s, i, local, SyncSuccessFields), st')
    else
      var err := AnalysisMessage(r.Msg());
      (Raised(err), FailRow(s, id, err, now), st')
  }

  /** One call of `process_document_sync(document_id)`. */
  function SyncRun(o: Oracles, s: DbState, st: CacheState, id: int, ex: Extraction, vec: Vectorisation,
                   started: Time, finished: Time): (SyncOutcome, DbState, CacheState)
    requires Coherent(st)
  {
    match Find(s.docs, id)
    case None => (Raised(DoesNotExist), FailRow(s, id, DoesNotExist, finished), st)
    case Some(i) =>
      var s1 := Start(s, i, started);
      match ex
      case ExtractionFailed(e) => (Raised(Raw(e)), FailRow(s1, id, Raw(e), finished), st)
      case Extracted(text) => SyncAnalyse(o, Store(s1, i, text, vec), st, i, finished)
  }

  method ProcessDocumentSync(o: Oracles, db: Db, cache: RedisCache, id: int,
                             ex: Extraction, vec: Vectorisation, started: Time, finished: Time)
    returns (outcome: SyncOutcome)
    requires cache.Valid()
    modifies db, cache
    ensures cache.Valid()
    ensures (outcome, db.State(), cache.State()) == SyncRun(o, old(db.State()), old(cache.State()), id, ex, vec, started, finished)
  {
    var found := db.Get(id);
    if found.None? {
      SaveFailure(db, id, DoesNotExist, finished);
      return Raised(DoesNotExist);
    }
    var i := found.value;
    var doc := db.docs[i].(processingStatus := Processing, startedAt := Some(started));
    db.SaveObject(i, doc, StartFields);
    match ex
    case ExtractionFailed(e) =>
      SaveFailure(db, id, Raw(e), finished);
      outcome := Raised(Raw(e));
    case Extracted(text) =>
      var name := TxtFileName(doc.name);
      db.WriteFile(name, text);
      doc := db.docs[i].(txtFile := name);
      db.SaveObject(i, doc, {TxtFileField});
      doc := db.docs[i].(vector := VectorAfter(vec));
      db.SaveObject(i, doc, {VectorField});
      outcome := SyncAnalyseStored(o, db, cache, i, finished);
  }

  method SyncAnalyseStored(o: Oracles, db: Db, cache: RedisCache, i: nat, now: Time) returns (outcome: SyncOutcome)
    requires cache.Valid() && i < |db.docs|
    modifies db, cache
    ensures cache.Valid()
    ensures (outcome, db.State(), cache.State()) == SyncAnalyse(o, old(db.State()), old(cache.State()), i, now)
  {
    var doc := db.docs[i];
    var r := DetectPlagiarism(o, db.files, cache, db.docs, doc.id);
    if r.Status() == Success {
      var v := r.verdict;
      doc := doc.(result := Some(v.originality), detailedAnalysis := Some(v), processingStatus := Completed,
                  status := CheckedStatus, completedAt := Some(now), processingError := None);
      db.SaveObject(i, doc, SyncSuccessFields);
      outcome := Done(doc.id, v.originality);
    } else {
      SaveFailure(db, doc.id, AnalysisMessage(r.Msg()), now);
      outcome := Raised(AnalysisMessage(r.Msg()));
    }
  }

  // ---------------------------------------------------------------- the two paths compared

  /**
    The synchronous path and the Celery task agree on everything but the `status` column
    and the error text: they succeed together, with the same originality, the same
    files, the same cache and the same saves, and a successful synchronous run also
    marks the row checked. Failures differ only in the wording of the error.
  */
  lemma {:induction false} SyncMatchesTask(o: Oracles, s: DbState, st: CacheState, i: nat, retries: nat, now: Time)
    requires Coherent(st) && i < |s.docs| && UniqueIds(s.docs)
    ensures var (a, sa, sta) := SyncAnalyse(o, s, st, i, now);
      var (b, sb, stb) := Tasks.Analyse(o, s, st, i, retries, now);
      sta == stb && sa.files == sb.files && |sa.docs| == |sb.docs| && |sa.journal| == |sb.journal| &&
      (a.Done? <==> b.Succeeded?) &&
      (a.Done? ==> a.originality == b.originality && sa.docs == sb.docs[i := sb.docs[i].(status := CheckedStatus)]) &&
      (a.Raised? ==> a.error.AnalysisMessage? && b.error == PlagiarismAnalysis(a.error.message) &&
                     sa.docs == sb.docs[i := sb.docs[i].(processingError := Some(a.error))])
  {
    var (r, _) := Detect(o, s.files, st, s.docs, s.docs[i].id);
    if r.Status() == Success {
      SyncMatchesTaskSuccess(o, s, st, i, retries, now);
    } else {
      SyncMatchesTaskFailure(o, s, st, i, retries, now);
    }
  }

  lemma {:induction false} SyncMatchesTaskSuccess(o: Oracles, s: DbState, st: CacheState, i: nat, retries: nat, now: Time)
    requires Coherent(st) && i < |s.docs| && UniqueIds(s.docs)
    requires Detect(o, s.files, st, s.docs, s.docs[i].id).0.Status() == Success
    ensures var (a, sa, sta) := SyncAnalyse(o, s, st, i, now);
      var (b, sb, stb) := Tasks.Analyse(o, s, st, i, retries, now);
      sta == stb && sa.files == sb.files && |sa.docs| == |sb.docs| && |sa.journal| == |sb.journal| &&
      a.Done? && b.Succeeded? && a.originality == b.originality && sa.docs == sb.docs[i := sb.docs[i].(status := CheckedStatus)]
  {
  }

  lemma {:induction false} SyncMatchesTaskFailure(o: Oracles, s: DbState, st: CacheState, i: nat, retries: nat, now: Time)
    requires Coherent(st) && i < |s.docs| && UniqueIds(s.docs)
    requires Detect(o, s.files, st, s.docs, s.docs[i].id).0.Status() != Success
    ensures var (a, sa, sta) := SyncAnalyse(o, s, st, i, now);
      var (b, sb, stb) := Tasks.Analyse(o, s, st, i, retries, now);
      sta == stb && sa.files == sb.files && |sa.docs| == |sb.docs| && |sa.journal| == |sb.journal| &&
      a.Raised? && !b.Succeeded? && a.error.AnalysisMessage? && b.error == PlagiarismAnalysis(a.error.message) &&
      sa.docs == sb.docs[i := sb.docs[i].(processingError := Some(a.error))]
  {
    FindUnique(s.docs, i);
  }

  /** An extraction failure is stored and raised with the extractor's own text. */
  lemma {:induction false} SyncExtractionFailure(o: Oracles, s: DbState, st: CacheState, i: nat, cause: string, vec: Vectorisation,
                              started: Time, finished: Time)
    requires Coherent(st) && i < |s.docs| && UniqueIds(s.docs)
    ensures var (out, s', st') := SyncRun(o, s, st, s.docs[i].id, ExtractionFailed(cause), vec, started, finished);
      out == Raised(Raw(cause)) && st' == st && s'.files == s.files &&
      s'.docs[i].processingError == Some(Raw(cause)) && s'.docs[i].processingStatus == Failed &&
      s'.docs[i].status == s.docs[i].status
  {
    FindUnique(s.docs, i);
    SaveRowFind(s, i, s.docs[i].(processingStatus := Processing, startedAt := Some(started)), StartFields, s.docs[i].id);
  }

  /** A missing document is raised and nothing is saved. */
  lemma {:induction false} SyncMissing(o: Oracles, s: DbState, st: CacheState, id: int, ex: Extraction, vec: Vectorisation,
                    started: Time, finished: Time)
    requires Coherent(st) && forall j :: 0 <= j < |s.docs| ==> s.docs[j].id != id
    ensures SyncRun(o, s, st, id, ex, vec, started, finished) == (Raised(DoesNotExist), s, st)
  {
    assert Find(s.docs, id).None?;
  }
}
