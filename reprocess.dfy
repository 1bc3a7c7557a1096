/**
  The `reprocess_documents` management command: choose documents by `--failed`,
  `--ids` or `--all`, reset each one's processing fields and send it to the
  `process_document_plagiarism` task.
*/
module Reprocess {
  import opened Wrappers
  import opened Text
  import opened Documents
  import opened Database

  /** The parsed command line: the two flags and the `--ids` string, if given. */
  datatype Options = Options(all: bool, failed: bool, ids: Option<string>)

  /** Which rows the queryset keeps. */
  datatype Selection = FailedOnly | ByIds(ids: seq<int>) | Everything

  /** What the command does. */
  datatype CommandResult =
    | Usage                 // none of the options: the error line is written, nothing else happens
    | BadIds(piece: string) // `int()` raised on a piece of `--ids`: the command aborts before any reset
    | Enqueued(count: nat)  // the reported count

  const ResetFields: set<Field> := {ProcessingStatusField, ProcessingErrorField, ResultField}

  // ---------------------------------------------------------------- `int()` on a piece of `--ids`

  predicate IsUnderscore(c: char) {
    c == '_'
  }

  /**
    What `int` accepts after the sign: digits, with single underscores allowed
    between two digits.
  */
  predicate ValidNumeral(b: string) {
    |b| > 0 && IsDigit(b[0]) && IsDigit(b[|b| - 1]) &&
    (forall k :: 0 <= k < |b| ==> IsDigit(b[k]) || IsUnderscore(b[k])) &&
    (forall k :: 0 <= k < |b| - 1 ==> !(IsUnderscore(b[k]) && IsUnderscore(b[k + 1])))
  }

  /** The digits of a numeral, underscores removed. */
  function DigitsOf(b: string): (r: string)
    requires forall k :: 0 <= k < |b| ==> IsDigit(b[k]) || IsUnderscore(b[k])
    ensures AllDigits(r) && |r| <= |b|
    ensures AllDigits(b) ==> r == b
  {
    if b == [] then []
    else if IsUnderscore(b[|b| - 1]) then DigitsOf(b[..|b| - 1])
    else DigitsOf(b[..|b| - 1]) + [b[|b| - 1]]
  }

  function Numeral(b: string): Option<nat> {
    if ValidNumeral(b) then Some(DigitsValue(DigitsOf(b))) else None
  }

  /** `int(x.strip())` for a decimal string; `None` where it raises `ValueError`. */
  function ParseInt(x: string): Option<int> {
    Signed(Strip(x))
  }

  /** An optional sign, then a numeral. */
  function Signed(t: string): Option<int> {
    if |t| > 0 && (t[0] == '+' || t[0] == '-') then
      match Numeral(t[1..])
      case None => None
      case Some(n) =>
        var v: int := n;
        Some(if t[0] == '-' then -v else v)
    else
      match Numeral(t)
      case None => None
      case Some(n) => Some(n)
  }

  /** `[int(x.strip()) for x in text.split(',')]` over the pieces; the first bad piece raises. */
  function ParsePieces(pieces: seq<string>): (r: Result<seq<int>, string>)
    ensures r.Ok? ==> |r.value| == |pieces|
  {
    if pieces == [] then Ok([])
    else match ParsePieces(pieces[..|pieces| - 1])
      case Err(p) => Err(p)
      case Ok(ids) =>
        match ParseInt(pieces[|pieces| - 1])
        case None => Err(pieces[|pieces| - 1])
        case Some(n) => Ok(ids + [n])
  }

  function ParseIds(text: string): Result<seq<int>, string> {
    ParsePieces(SplitOn(text, ","))
  }

  /** The decimal numeral of every number, for the round trip below. */
  function Numerals(ns: seq<nat>): (r: seq<string>)
    ensures |r| == |ns| && forall k :: 0 <= k < |ns| ==> r[k] == Decimal(ns[k])
  {
    if ns == [] then [] else Numerals(ns[..|ns| - 1]) + [Decimal(ns[|ns| - 1])]
  }

  /** `int` reads back what `str` writes for a non-negative number. */
  lemma {:induction false} ParseIntDecimal(n: nat)
    ensures ParseInt(Decimal(n)) == Some(n)
  {
    var d := Decimal(n);
    assert IsDigit(d[0]);
    NoSpaceStrip(d);
    NumeralDecimal(n);
    assert Signed(d) == Some(n);
  }

  /** ... and, after a minus sign, its negation. */
  lemma {:induction false} ParseIntNegative(n: nat)
    ensures ParseInt("-" + Decimal(n)) == Some(-(n as int))
  {
    var t := "-" + Decimal(n);
    NegativeStrip(n);
    assert t[1..] == Decimal(n);
    NumeralDecimal(n);
    assert Signed(t) == Some(-(n as int));
  }

  lemma {:induction false} NegativeStrip(n: nat)
    ensures Strip("-" + Decimal(n)) == "-" + Decimal(n)
  {
    NoSpaceStrip("-" + Decimal(n));
  }

  lemma {:induction false} NumeralDecimal(n: nat)
    ensures Numeral(Decimal(n)) == Some(n)
  {
  }

  /** A string with no whitespace at either end is its own `strip()`. */
  lemma {:induction false} NoSpaceStrip(s: string)
    requires forall k :: 0 <= k < |s| ==> s[k] == '-' || IsDigit(s[k])
    ensures Strip(s) == s
  {
    if s != [] {
      assert !IsSpace(s[0]) && !IsSpace(s[|s| - 1]);
    }
  }

  /** `--ids` written as comma-separated numerals parses back to the same ids. */
  lemma {:induction false} IdsRoundTrip(ns: seq<nat>)
    requires |ns| >= 1
    ensures ParseIds(Join(Numerals(ns), ",")) == Ok(ns)
  {
    var ps := Numerals(ns);
    forall k | 0 <= k < |ps| ensures ',' !in ps[k] {
      assert AllDigits(ps[k]) && !IsDigit(',');
    }
    SplitOnJoin(ps, ',');
    PiecesRoundTrip(ns);
  }

  lemma {:induction false} PiecesRoundTrip(ns: seq<nat>)
    ensures ParsePieces(Numerals(ns)) == Ok(ns)
  {
    if ns != [] {
      var init := ns[..|ns| - 1];
      assert Numerals(ns)[..|ns| - 1] == Numerals(init);
      PiecesRoundTrip(init);
      ParseIntDecimal(ns[|ns| - 1]);
      assert ns == init + [ns[|ns| - 1]];
    }
  }

  /** An empty piece (as in `"1,,2"` or a trailing comma) makes the whole option fail. */
  lemma {:induction false} EmptyPieceFails(pieces: seq<string>, k: nat)
    requires k < |pieces| && Strip(pieces[k]) == []
    ensures ParsePieces(pieces).Err?
  {
    if ParsePieces(pieces).Ok? {
      PiecesParsed(pieces, k);
    }
  }

  lemma {:induction false} PiecesParsed(pieces: seq<string>, k: nat)
    requires k < |pieces| && ParsePieces(pieces).Ok?
    ensures ParseInt(pieces[k]).Some? && ParsePieces(pieces).value[k] == ParseInt(pieces[k]).value
  {
    var init := pieces[..|pieces| - 1];
    if k < |pieces| - 1 {
      PiecesParsed(init, k);
    }
  }

  // ---------------------------------------------------------------- choosing the queryset

  /** The `if`/`elif` chain: `--failed`, then a non-empty `--ids`, then `--all`. */
  function Choose(opts: Options): Result<Selection, CommandResult> {
    if opts.failed then Ok(FailedOnly)
    else if opts.ids.Some? && opts.ids.value != "" then
      match ParseIds(opts.ids.value)
      case Err(piece) => Err(BadIds(piece))
      case Ok(ids) => Ok(ByIds(ids))
    else if opts.all then Ok(Everything)
    else Err(Usage)
  }

  predicate Matches(sel: Selection, d: Document) {
    match sel
    case FailedOnly => d.processingStatus == Failed
    case ByIds(ids) => d.id in ids
    case Everything => true
  }

  /** The positions of the queryset's rows among the first `n` rows of the table. */
  function PositionsUpTo(docs: seq<Document>, sel: Selection, n: nat): (r: seq<nat>)
    requires n <= |docs|
    ensures forall k :: 0 <= k < |r| ==> r[k] < n
    ensures forall a, b :: 0 <= a < b < |r| ==> r[a] < r[b]
    ensures forall j: nat :: j in r <==> j < n && Matches(sel, docs[j])
  {
    if n == 0 then []
    else PositionsUpTo(docs, sel, n - 1) + if Matches(sel, docs[n - 1]) then [n - 1] else []
  }

  /** The queryset, as positions in table order. */
  function Positions(docs: seq<Document>, sel: Selection): (r: seq<nat>)
    ensures forall k :: 0 <= k < |r| ==> r[k] < |docs|
    ensures forall a, b :: 0 <= a < b < |r| ==> r[a] < r[b]
  {
    PositionsUpTo(docs, sel, |docs|)
  }

  /** The rows the command selects are exactly the matching rows. */
  lemma {:induction false} PositionsExact(docs: seq<Document>, sel: Selection, j: nat)
    ensures j in Positions(docs, sel) <==> j < |docs| && Matches(sel, docs[j])
  {
  }

  // ---------------------------------------------------------------- the loop

  /** One iteration's save: 'queue', no error, no result. */
  function ResetRow(s: DbState, j: nat): DbState
    requires j < |s.docs|
  {
    SaveRow(s, j, s.docs[j].(processingStatus := Queue, processingError := None, result := None), ResetFields)
  }

  /** The saves of the loop over the rows at `ps`. */
  function ResetRows(s: DbState, ps: seq<nat>): (r: DbState)
    requires forall k :: 0 <= k < |ps| ==> ps[k] < |s.docs|
    ensures |r.docs| == |s.docs| && r.files == s.files
    ensures forall j :: 0 <= j < |s.docs| ==> r.docs[j].id == s.docs[j].id
  {
    if ps == [] then s
    else ResetRow(ResetRows(s, ps[..|ps| - 1]), ps[|ps| - 1])
  }

  /** The ids sent to the broker: one per selected row, in the queryset's order. */
  function IdsAt(docs: seq<Document>, ps: seq<nat>): (r: seq<int>)
    requires forall k :: 0 <= k < |ps| ==> ps[k] < |docs|
    ensures |r| == |ps| && forall k :: 0 <= k < |ps| ==> r[k] == docs[ps[k]].id
  {
    if ps == [] then [] else IdsAt(docs, ps[..|ps| - 1]) + [docs[ps[|ps| - 1]].id]
  }

  /** `Command.handle`: the outcome, the table afterwards, and the messages sent. */
  function Command(s: DbState, sent: seq<int>, opts: Options): (CommandResult, DbState, seq<int>) {
    match Choose(opts)
    case Err(refusal) => (refusal, s, sent)
    case Ok(sel) =>
      var ps := Positions(s.docs, sel);
      (Enqueued(|ps|), ResetRows(s, ps), sent + IdsAt(s.docs, ps))
  }

  method Handle(opts: Options, db: Db, broker: Broker) returns (outcome: CommandResult)
    modifies db, broker
    ensures (outcome, db.State(), broker.sent) == Command(old(db.State()), old(broker.sent), opts)
  {
    var choice := Choose(opts);
    if choice.Err? {
      return choice.error;
    }
    var ps := Positions(db.docs, choice.value);
    var count := ResetAndSend(db, broker, ps);
    outcome := Enqueued(count);
  }

  /** The `for doc in queryset` loop. */
  method ResetAndSend(db: Db, broker: Broker, ps: seq<nat>) returns (count: nat)
    requires forall k :: 0 <= k < |ps| ==> ps[k] < |db.docs|
    modifies db, broker
    ensures count == |ps|
    ensures db.State() == ResetRows(old(db.State()), ps)
    ensures broker.sent == old(broker.sent) + IdsAt(old(db.docs), ps)
  {
    ghost var s0 := db.State();
    count := 0;
    while count < |ps|
      invariant 0 <= count <= |ps|
      invariant db.State() == ResetRows(s0, ps[..count])
      invariant broker.sent == old(broker.sent) + IdsAt(s0.docs, ps[..count])
    {
      assert ps[..count + 1][..count] == ps[..count];
      var j := ps[count];
      var doc := db.docs[j].(processingStatus := Queue, processingError := None, result := None);
      assert doc.id == s0.docs[j].id;
      db.SaveObject(j, doc, ResetFields);
      var taskId := broker.Delay(doc.id);
      count := count + 1;
    }
    assert ps[..count] == ps;
  }

  // ---------------------------------------------------------------- properties

  /**
    Each row at a position in `ps` (listed once each) is reset to 'queue' with no
    error and no result, every other row is untouched, and one save per row is
    logged with the reset columns.
  */
  lemma {:induction false} ResetRowsEffect(s: DbState, ps: seq<nat>, j: nat)
    requires forall k :: 0 <= k < |ps| ==> ps[k] < |s.docs|
    requires forall a, b :: 0 <= a < b < |ps| ==> ps[a] != ps[b]
    requires j < |s.docs|
    ensures var r := ResetRows(s, ps);
      (j in ps ==> r.docs[j] == s.docs[j].(processingStatus := Queue, processingError := None, result := None)) &&
      (j !in ps ==> r.docs[j] == s.docs[j])
  {
    if ps != [] {
      var init := ps[..|ps| - 1];
      ResetRowsEffect(s, init, j);
      assert ps == init + [ps[|ps| - 1]];
      if j == ps[|ps| - 1] {
        assert j !in init;
      }
    }
  }

  /** The loop logs exactly one reset save per selected row, in order. */
  lemma {:induction false} ResetRowsJournal(s: DbState, ps: seq<nat>)
    requires forall k :: 0 <= k < |ps| ==> ps[k] < |s.docs|
    ensures var r := ResetRows(s, ps);
      |r.journal| == |s.journal| + |ps| && r.journal[..|s.journal|] == s.journal &&
      forall k :: 0 <= k < |ps| ==> r.journal[|s.journal| + k] == Save(s.docs[ps[k]].id, ResetFields)
  {
    if ps != [] {
      var init := ps[..|ps| - 1];
      ResetRowsJournal(s, init);
    }
  }

  /**
    When the command runs, the reported count is the number of messages sent, one
    per selected row, and every selected row is reset; a refusal changes nothing.
  */
  lemma {:induction false} CommandOutcome(s: DbState, sent: seq<int>, opts: Options, j: nat)
    requires j < |s.docs|
    ensures var (out, s', sent') := Command(s, sent, opts);
      (out.Enqueued? ==>
        |sent'| == |sent| + out.count && sent'[..|sent|] == sent &&
        var sel := Choose(opts).value;
        (Matches(sel, s.docs[j]) ==> s'.docs[j] == s.docs[j].(processingStatus := Queue, processingError := None, result := None)) &&
        (!Matches(sel, s.docs[j]) ==> s'.docs[j] == s.docs[j])) &&
      (!out.Enqueued? ==> s' == s && sent' == sent)
  {
    match Choose(opts)
    case Err(_) =>
    case Ok(sel) =>
      var ps := Positions(s.docs, sel);
      PositionsExact(s.docs, sel, j);
      ResetRowsEffect(s, ps, j);
  }

  /** The precedence of the options, and the rows each one selects. */
  lemma {:induction false} Precedence(opts: Options, d: Document)
    ensures opts.failed ==> Choose(opts) == Ok(FailedOnly) && (Matches(FailedOnly, d) <==> d.processingStatus == Failed)
    ensures !opts.failed && opts.ids.Some? && opts.ids.value != "" ==>
      match ParseIds(opts.ids.value)
      case Ok(ids) => Choose(opts) == Ok(ByIds(ids)) && (Matches(ByIds(ids), d) <==> d.id in ids)
      case Err(p) => Choose(opts) == Err(BadIds(p))
    ensures !opts.failed && (opts.ids.None? || opts.ids.value == "") ==>
      Choose(opts) == (if opts.all then Ok(Everything) else Err(Usage))
  {
  }
}
