/**
  The persistent state the processing paths work on: the `Document` table, the
  text files under `media/`, and the log of `save(update_fields=…)` calls; and the
  Celery broker that `.delay(…)` sends task messages to.
*/
module Database {
  import opened Wrappers
  import opened Documents

  /** The columns a `save(update_fields=[…])` can name. */
  datatype Field =
    | ResultField
    | StatusField
    | TxtFileField
    | VectorField
    | ProcessingStatusField
    | StartedAtField
    | CompletedAtField
    | ProcessingErrorField
    | DetailedAnalysisField

  /** One `save(update_fields=fields)` of the record with primary key `id`. */
  datatype Save = Save(id: int, fields: set<Field>)

  /** The table in `time_created` order, the text files, and the saves so far. */
  datatype DbState = DbState(docs: seq<Document>, files: FileSystem, journal: seq<Save>)

  /**
    What a save of the in-memory `local` object writes over the `stored` row: the
    named columns from the object, every other column as it was.
  */
  function Write(stored: Document, local: Document, fields: set<Field>): Document {
    stored.(
      result := if ResultField in fields then local.result else stored.result,
      status := if StatusField in fields then local.status else stored.status,
      txtFile := if TxtFileField in fields then local.txtFile else stored.txtFile,
      vector := if VectorField in fields then local.vector else stored.vector,
      processingStatus := if ProcessingStatusField in fields then local.processingStatus else stored.processingStatus,
      startedAt := if StartedAtField in fields then local.startedAt else stored.startedAt,
      completedAt := if CompletedAtField in fields then local.completedAt else stored.completedAt,
      processingError := if ProcessingErrorField in fields then local.processingError else stored.processingError,
      detailedAnalysis := if DetailedAnalysisField in fields then local.detailedAnalysis else stored.detailedAnalysis)
  }

  /** Writing an object that differs from the row only in named columns stores the object. */
  lemma {:induction false} WriteChanged(stored: Document, local: Document, fields: set<Field>)
    requires local.id == stored.id && local.name == stored.name && local.data == stored.data && local.onDefense == stored.onDefense
    requires ResultField !in fields ==> local.result == stored.result
    requires StatusField !in fields ==> local.status == stored.status
    requires TxtFileField !in fields ==> local.txtFile == stored.txtFile
    requires VectorField !in fields ==> local.vector == stored.vector
    requires ProcessingStatusField !in fields ==> local.processingStatus == stored.processingStatus
    requires StartedAtField !in fields ==> local.startedAt == stored.startedAt
    requires CompletedAtField !in fields ==> local.completedAt == stored.completedAt
    requires ProcessingErrorField !in fields ==> local.processingError == stored.processingError
    requires DetailedAnalysisField !in fields ==> local.detailedAnalysis == stored.detailedAnalysis
    ensures Write(stored, local, fields) == local
  {
  }

  /** The save of the `i`-th row: the row is rewritten and the save is logged. */
  function SaveRow(s: DbState, i: nat, local: Document, fields: set<Field>): (r: DbState)
    requires i < |s.docs|
    ensures |r.docs| == |s.docs| && r.files == s.files && r.journal == s.journal + [Save(s.docs[i].id, fields)]
    ensures forall j :: 0 <= j < |s.docs| ==> r.docs[j].id == s.docs[j].id
  {
    s.(docs := s.docs[i := Write(s.docs[i], local, fields)], journal := s.journal + [Save(s.docs[i].id, fields)])
  }

  /** A save changes no primary key, so every lookup by id finds the same row. */
  lemma {:induction false} SaveRowFind(s: DbState, i: nat, local: Document, fields: set<Field>, id: int)
    requires i < |s.docs|
    ensures Find(SaveRow(s, i, local, fields).docs, id) == Find(s.docs, id)
  {
    var docs' := SaveRow(s, i, local, fields).docs;
    FindByIds(s.docs, docs', id);
  }

  /** `Find` only looks at primary keys. */
  lemma {:induction false} FindByIds(a: seq<Document>, b: seq<Document>, id: int)
    requires |a| == |b| && forall j :: 0 <= j < |a| ==> a[j].id == b[j].id
    ensures Find(a, id) == Find(b, id)
  {
    if a != [] {
      FindByIds(a[1..], b[1..], id);
    }
  }

  /** The database as the processing code sees it. */
  class Db {
    var docs: seq<Document>
    var files: FileSystem
    var journal: seq<Save>

    function State(): DbState
      reads this
    {
      DbState(docs, files, journal)
    }

    constructor (docs: seq<Document>, files: FileSystem)
      ensures State() == DbState(docs, files, [])
    {
      this.docs := docs;
      this.files := files;
      this.journal := [];
    }

    /** `Document.objects.get(id=id)`: the row's position, or `DoesNotExist`. */
    method Get(id: int) returns (r: Option<nat>)
      ensures r == Find(docs, id)
      ensures r.Some? ==> r.value < |docs| && docs[r.value].id == id
    {
      r := Find(docs, id);
    }

    /** `local.save(update_fields=fields)` for the object loaded from row `i`. */
    method SaveObject(i: nat, local: Document, fields: set<Field>)
      requires i < |docs|
      modifies this
      ensures State() == SaveRow(old(State()), i, local, fields)
    {
      journal := journal + [Save(docs[i].id, fields)];
      docs := docs[i := Write(docs[i], local, fields)];
    }

    /** Writing a text file under `media/`. */
    method WriteFile(name: string, text: string)
      modifies this
      ensures State() == old(State()).(files := old(files)[name := Readable(text)])
    {
      files := files[name := Readable(text)];
    }
  }

  /**
    The broker: the document ids of the `process_document_plagiarism` messages sent
    so far. A task id is the message's position, which makes ids distinct as Celery's
    UUIDs are.
  */
  class Broker {
    var sent: seq<int>

    constructor ()
      ensures sent == []
    {
      sent := [];
    }

    /** `process_document_plagiarism.delay(id)`. */
    method Delay(id: int) returns (taskId: nat)
      modifies this
      ensures sent == old(sent) + [id] && taskId == |old(sent)|
    {
      taskId := |sent|;
      sent := sent + [id];
    }
  }
}
