/**
  `Document.calculate_originality` of `models.py` and the condition of the
  `calculate_originality_on_save` receiver. The five nearest other documents come
  from a raw pgvector query ordered by distance; their text files and the
  document's own are compared with shingles of one word.
*/
module OriginalityModel {
  import opened Wrappers
  import opened Sorting
  import opened Documents
  import opened SimCos
  import opened Database

  /** `LIMIT 5` of the neighbour query. */
  const NeighbourLimit: nat := 5
  /** `shingle_size=1`. */
  const WordShingles: nat := 1
  /** The originality stored when there are no neighbours. */
  const NoNeighboursResult: real := 100.0

  const ResultFields: set<Field> := {ResultField, StatusField}

  /** What one call of `calculate_originality` does. */
  datatype CalcOutcome =
    | Skipped                    // a result is already set, or there is no vector
    | Stored(result: real)       // `result` and the 'checked' status were saved
    | FileError(name: string)    // opening a text file raised; nothing was saved

  /** `WHERE id != self.pk`. */
  predicate IsOther(self: Document, d: Document) {
    d.id != self.id
  }

  /**
    The sort key of `ORDER BY vector <-> self.vector`: a smaller distance sorts first,
    so the key is the negated distance. Rows without a vector are placed after the
    others and are never keyed.
  */
  function Closeness(o: Oracles, v: seq<real>, d: Document): real {
    if d.vector.Some? then -o.distance(v, d.vector.value) else 0.0
  }

  predicate Vectored(d: Document) {
    d.vector.Some?
  }

  predicate Unvectored(d: Document) {
    d.vector.None?
  }

  /** `WHERE id != self.pk`, in table order. */
  function Others(docs: seq<Document>, self: Document): (r: seq<Document>)
    ensures forall d :: d in r <==> d in docs && IsOther(self, d)
  {
    Where(docs, d => IsOther(self, d))
  }

  /** The rows with a vector, by increasing distance to `v`; ties keep table order. */
  function Nearest(o: Oracles, others: seq<Document>, v: seq<real>): (r: seq<Document>)
    ensures forall d :: d in r <==> d in others && d.vector.Some?
    ensures forall k :: 0 <= k < |r| ==> r[k].vector.Some?
    ensures forall a, b :: 0 <= a < b < |r| ==> o.distance(v, r[a].vector.value) <= o.distance(v, r[b].vector.value)
  {
    var key := d => Closeness(o, v, d);
    var pool := Where(others, Vectored);
    var r := SortDesc(pool, key);
    forall d ensures d in r <==> d in others && d.vector.Some? {
      SortDescMembers(pool, key, d);
    }
    assert forall k :: 0 <= k < |r| ==> r[k] in r;
    assert forall a, b :: 0 <= a < b < |r| ==> key(r[a]) >= key(r[b]);
    r
  }

  /**
    The rows of the raw query: the other documents by increasing distance, the
    ones without a vector last (NULLS LAST), at most five.
  */
  function Neighbours(o: Oracles, docs: seq<Document>, self: Document): (r: seq<Document>)
    requires self.vector.Some?
    ensures |r| <= NeighbourLimit
    ensures forall d :: d in r ==> d in docs && IsOther(self, d)
  {
    var others := Others(docs, self);
    var all := Nearest(o, others, self.vector.value) + Where(others, Unvectored);
    var r := Take(all, NeighbourLimit);
    assert forall d :: d in r ==> d in all;
    r
  }

  /** `open(doc.txt_file.path).read()`: an empty file field or a missing or unreadable file raises. */
  function FileText(fs: FileSystem, name: string): Option<string> {
    if name != "" && name in fs && fs[name].Readable? then Some(fs[name].text) else None
  }

  /** The neighbours' texts in query order, or the first file that could not be read. */
  function NeighbourTexts(fs: FileSystem, near: seq<Document>): (r: Result<seq<string>, string>)
    ensures r.Ok? <==> forall k :: 0 <= k < |near| ==> FileText(fs, near[k].txtFile).Some?
    ensures r.Ok? ==> |r.value| == |near|
    ensures r.Ok? ==> forall k :: 0 <= k < |near| ==> r.value[k] == FileText(fs, near[k].txtFile).value
  {
    if near == [] then Ok([])
    else match NeighbourTexts(fs, near[..|near| - 1])
      case Err(name) => Err(name)
      case Ok(texts) =>
        var name := near[|near| - 1].txtFile;
        match FileText(fs, name)
        case None => Err(name)
        case Some(t) => Ok(texts + [t])
  }

  /** The saved row: the new result and the 'checked' status. */
  function Checked(s: DbState, i: nat, result: real): DbState
    requires i < |s.docs|
  {
    SaveRow(s, i, s.docs[i].(result := Some(result), status := CheckedStatus), ResultFields)
  }

  /** `self.calculate_originality()` for the document at position `i` of the table. */
  function CalculateOriginality(o: Oracles, s: DbState, i: nat): (CalcOutcome, DbState)
    requires i < |s.docs|
  {
    var self := s.docs[i];
    if self.result.Some? || !HasVector(self) then (Skipped, s)
    else
      var near := Neighbours(o, s.docs, self);
      if near == [] then (Stored(NoNeighboursResult), Checked(s, i, NoNeighboursResult))
      else match NeighbourTexts(s.files, near)
        case Err(name) => (FileError(name), s)
        case Ok(texts) =>
          match FileText(s.files, self.txtFile)
          case None => (FileError(self.txtFile), s)
          case Some(own) =>
            var originality := Originality(o.md5, own, texts, WordShingles);
            (Stored(originality), Checked(s, i, originality))
  }

  /** The receiver runs the computation only for a newly created document with a vector. */
  predicate TriggerFires(created: bool, instance: Document) {
    created && HasVector(instance)
  }

  /** `calculate_originality_on_save` for a save of the row at `i`. */
  function OnSave(o: Oracles, s: DbState, i: nat, created: bool): (CalcOutcome, DbState)
    requires i < |s.docs|
  {
    if TriggerFires(created, s.docs[i]) then CalculateOriginality(o, s, i) else (Skipped, s)
  }

  // ---------------------------------------------------------------- the method as code

  method CalculateOriginalityOf(o: Oracles, db: Db, i: nat) returns (outcome: CalcOutcome)
    requires i < |db.docs|
    modifies db
    ensures (outcome, db.State()) == CalculateOriginality(o, old(db.State()), i)
  {
    var self := db.docs[i];
    if self.result.Some? || !HasVector(self) {
      return Skipped;
    }
    var near := Neighbours(o, db.docs, self);
    if near == [] {
      db.SaveObject(i, self.(result := Some(NoNeighboursResult), status := CheckedStatus), ResultFields);
      return Stored(NoNeighboursResult);
    }
    var texts := ReadNeighbourTexts(db.files, near);
    if texts.Err? {
      return FileError(texts.error);
    }
    var own := FileText(db.files, self.txtFile);
    if own.None? {
      return FileError(self.txtFile);
    }
    var originality := CalculateOriginalityLargeTexts(o.md5, own.value, texts.value, WordShingles);
    db.SaveObject(i, self.(result := Some(originality), status := CheckedStatus), ResultFields);
    outcome := Stored(originality);
  }

  /** The loop over the neighbours that opens each one's text file. */
  method ReadNeighbourTexts(fs: FileSystem, near: seq<Document>) returns (r: Result<seq<string>, string>)
    ensures r == NeighbourTexts(fs, near)
  {
    var texts: seq<string> := [];
    var k := 0;
    while k < |near|
      invariant 0 <= k <= |near|
      invariant NeighbourTexts(fs, near[..k]) == Ok(texts)
    {
      assert near[..k + 1][..k] == near[..k];
      var text := FileText(fs, near[k].txtFile);
      if text.None? {
        NeighbourTextsStops(fs, near, k + 1);
        return Err(near[k].txtFile);
      }
      texts := texts + [text.value];
      k := k + 1;
    }
    assert near[..k] == near;
    r := Ok(texts);
  }

  /** A read error at position `n - 1` is the error of every longer prefix. */
  lemma {:induction false} NeighbourTextsStops(fs: FileSystem, near: seq<Document>, n: nat)
    requires 0 < n <= |near|
    requires NeighbourTexts(fs, near[..n - 1]).Ok? && FileText(fs, near[n - 1].txtFile).None?
    ensures NeighbourTexts(fs, near) == Err(near[n - 1].txtFile)
  {
    assert near[..n][..n - 1] == near[..n - 1];
    if n < |near| {
      NeighbourTextsPrefix(fs, near, n);
    } else {
      assert near[..n] == near;
    }
  }

  /** Once a prefix fails, every longer list fails with the same file. */
  lemma {:induction false} NeighbourTextsPrefix(fs: FileSystem, near: seq<Document>, n: nat)
    requires 0 < n <= |near| && NeighbourTexts(fs, near[..n]).Err?
    ensures NeighbourTexts(fs, near) == NeighbourTexts(fs, near[..n])
  {
    if n < |near| {
      var init := near[..|near| - 1];
      assert init[..n] == near[..n];
      NeighbourTextsPrefix(fs, init, n);
    } else {
      assert near[..n] == near;
    }
  }

  // ---------------------------------------------------------------- properties

  /** The guard: a document whose result is set, or which has no vector, is left as it is. */
  lemma {:induction false} Idempotent(o: Oracles, s: DbState, i: nat)
    requires i < |s.docs|
    ensures s.docs[i].result.Some? || !HasVector(s.docs[i]) ==> CalculateOriginality(o, s, i) == (Skipped, s)
    ensures var (out, s') := CalculateOriginality(o, s, i);
      out.Stored? ==> s'.docs[i].result == Some(out.result) && CalculateOriginality(o, s', i) == (Skipped, s')
  {
  }

  /**
    A stored originality is 100 without neighbours, and otherwise the shingle
    originality of the document's text against at most five other documents'
    texts, within [-0.01, 99.99].
  */
  lemma {:induction false} StoredResult(o: Oracles, s: DbState, i: nat)
    requires i < |s.docs|
    ensures var (out, _) := CalculateOriginality(o, s, i);
      out.Stored? ==>
        var near := Neighbours(o, s.docs, s.docs[i]);
        (near == [] ==> out.result == 100.0) &&
        (near != [] ==>
          -0.01 <= out.result <= 99.99 && |near| <= 5 &&
          FileText(s.files, s.docs[i].txtFile).Some? && NeighbourTexts(s.files, near).Ok? &&
          out.result == Originality(o.md5, FileText(s.files, s.docs[i].txtFile).value, NeighbourTexts(s.files, near).value, 1))
  {
    var (out, _) := CalculateOriginality(o, s, i);
    var self := s.docs[i];
    if out.Stored? {
      var near := Neighbours(o, s.docs, self);
      if near != [] {
        var texts := NeighbourTexts(s.files, near).value;
        var own := FileText(s.files, self.txtFile).value;
        OriginalityBounds(o.md5, own, texts, WordShingles);
        assert out.result == Originality(o.md5, own, texts, 1);
      }
    }
  }

  /** A stored result moves the status to 'checked' and saves only `result` and `status` of that row. */
  lemma {:induction false} StoredSaves(o: Oracles, s: DbState, i: nat)
    requires i < |s.docs|
    ensures var (out, s') := CalculateOriginality(o, s, i);
      out.Stored? ==>
        s'.docs == s.docs[i := s.docs[i].(result := Some(out.result), status := CheckedStatus)] &&
        s'.journal == s.journal + [Save(s.docs[i].id, ResultFields)] && s'.files == s.files
  {
    var (out, s') := CalculateOriginality(o, s, i);
    if out.Stored? {
      assert s' == Checked(s, i, out.result);
    }
  }

  lemma {:induction false} OriginalityBounds(h: Hasher, user: string, docs: seq<string>, k: nat)
    ensures -0.01 <= Originality(h, user, docs, k) <= 99.99
  {
    var r := OriginalityOf(Shingles(h, user, k), CorpusShingles(h, docs, k));
  }

  /** A file that cannot be read stops the computation before anything is saved. */
  lemma {:induction false} FileErrorSavesNothing(o: Oracles, s: DbState, i: nat)
    requires i < |s.docs|
    ensures var (out, s') := CalculateOriginality(o, s, i);
      (out.FileError? || out.Skipped?) <==> s' == s
  {
  }

  /**
    The neighbour list holds other documents only, never more than five, and lists
    every document with a vector by increasing distance before any document
    without one.
  */
  lemma {:induction false} NeighbourOrder(o: Oracles, docs: seq<Document>, self: Document)
    requires self.vector.Some?
    ensures var r := Neighbours(o, docs, self);
      var v := self.vector.value;
      forall a, b :: 0 <= a < b < |r| && r[b].vector.Some? ==>
        r[a].vector.Some? && o.distance(v, r[a].vector.value) <= o.distance(v, r[b].vector.value)
  {
    var v := self.vector.value;
    var others := Others(docs, self);
    var near := Nearest(o, others, v);
    var rest := Where(others, Unvectored);
    var all := near + rest;
    var r := Take(all, NeighbourLimit);
    forall a, b | 0 <= a < b < |r| && r[b].vector.Some?
      ensures r[a].vector.Some? && o.distance(v, r[a].vector.value) <= o.distance(v, r[b].vector.value)
    {
      assert r[b] == all[b];
      if b >= |near| {
        assert false;
      }
    }
  }

  /** The receiver runs the computation exactly for created documents with a non-empty vector. */
  lemma {:induction false} TriggerCondition(o: Oracles, s: DbState, i: nat, created: bool)
    requires i < |s.docs|
    ensures OnSave(o, s, i, created) == (if created && s.docs[i].vector.Some? && |s.docs[i].vector.value| > 0
                                         then CalculateOriginality(o, s, i) else (Skipped, s))
  {
  }
}
