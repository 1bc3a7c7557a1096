/**
  The text assembly of `extract_text_from_docx` in `docx_extractor.py`. The opened
  document is given as its paragraphs' texts and its tables' cell texts; opening it
  is an input that may have failed.
*/
module Docx {
  import opened Wrappers
  import opened Text

  /** A table: its rows, each a list of cell texts. */
  type Table = seq<seq<string>>

  /** What `python-docx` exposes of a document: paragraph texts and tables. */
  datatype DocxFile = DocxFile(paragraphs: seq<string>, tables: seq<Table>)

  /** The heading put before the table rows. */
  const TablesHeading: string := "\n\n[ТАБЛИЦЫ]\n"
  const CellSeparator: string := " | "
  const LineBreak: string := "\n"
  /** The prefix of the re-raised error. */
  const ErrorPrefix: string := "Ошибка при извлечении текста из DOCX: "

  /** The texts, stripped, with the empty ones dropped, in order. */
  function Kept(xs: seq<string>): (r: seq<string>)
    ensures |r| <= |xs|
  {
    if xs == [] then []
    else
      var t := Strip(xs[|xs| - 1]);
      Kept(xs[..|xs| - 1]) + if t != "" then [t] else []
  }

  /** One row: its non-empty cells joined by ' | '. */
  function RowText(cells: seq<string>): string {
    Join(Kept(cells), CellSeparator)
  }

  /** The lines the rows of one table contribute: the rows with at least one non-empty cell. */
  function TableLines(rows: Table): (r: seq<string>)
    ensures |r| <= |rows|
  {
    if rows == [] then []
    else
      var cells := rows[|rows| - 1];
      TableLines(rows[..|rows| - 1]) + if Kept(cells) != [] then [RowText(cells)] else []
  }

  /** The lines of all tables, table by table. */
  function AllLines(tables: seq<Table>): seq<string> {
    if tables == [] then [] else AllLines(tables[..|tables| - 1]) + TableLines(tables[|tables| - 1])
  }

  /** The text of a document that opened. */
  function Assemble(d: DocxFile): string {
    var text := Join(Kept(d.paragraphs), LineBreak);
    var lines := AllLines(d.tables);
    if lines != [] then text + TablesHeading + Join(lines, LineBreak) else text
  }

  /** `extract_text_from_docx`: the text, or the error re-raised with the prefix. */
  function ExtractText(doc: Result<DocxFile, string>): Result<string, string> {
    match doc
    case Err(cause) => Err(ErrorPrefix + cause)
    case Ok(d) => Ok(Assemble(d))
  }

  // ---------------------------------------------------------------- the loops

  method ExtractTextFromDocx(doc: Result<DocxFile, string>) returns (r: Result<string, string>)
    ensures r == ExtractText(doc)
  {
    if doc.Err? {
      return Err(ErrorPrefix + doc.error);
    }
    var d := doc.value;
    var paragraphsText := KeepNonEmpty(d.paragraphs);
    var tablesText: seq<string> := [];
    var t := 0;
    while t < |d.tables|
      invariant 0 <= t <= |d.tables|
      invariant tablesText == AllLines(d.tables[..t])
    {
      assert d.tables[..t + 1][..t] == d.tables[..t];
      var lines := RowLines(d.tables[t]);
      tablesText := tablesText + lines;
      t := t + 1;
    }
    assert d.tables[..t] == d.tables;
    var fullText := Join(paragraphsText, LineBreak);
    if tablesText != [] {
      fullText := fullText + TablesHeading + Join(tablesText, LineBreak);
    }
    r := Ok(fullText);
  }

  /** The loop over one table's rows. */
  method RowLines(table: Table) returns (lines: seq<string>)
    ensures lines == TableLines(table)
  {
    lines := [];
    var k := 0;
    while k < |table|
      invariant 0 <= k <= |table|
      invariant lines == TableLines(table[..k])
    {
      assert table[..k + 1][..k] == table[..k];
      var rowText := KeepNonEmpty(table[k]);
      if rowText != [] {
        lines := lines + [Join(rowText, CellSeparator)];
      }
      k := k + 1;
    }
    assert table[..k] == table;
  }

  /** The loop over paragraphs, and the loop over a row's cells. */
  method KeepNonEmpty(xs: seq<string>) returns (kept: seq<string>)
    ensures kept == Kept(xs)
  {
    kept := [];
    var i := 0;
    while i < |xs|
      invariant 0 <= i <= |xs|
      invariant kept == Kept(xs[..i])
    {
      assert xs[..i + 1][..i] == xs[..i];
      var text := Strip(xs[i]);
      if text != "" {
        kept := kept + [text];
      }
      i := i + 1;
    }
    assert xs[..i] == xs;
  }

  // ---------------------------------------------------------------- properties

  /** The positions of the texts that are kept. */
  function KeptAt(xs: seq<string>): (r: seq<nat>)
    ensures |r| == |Kept(xs)|
    ensures forall k :: 0 <= k < |r| ==> r[k] < |xs| && Kept(xs)[k] == Strip(xs[r[k]])
  {
    if xs == [] then []
    else
      var t := Strip(xs[|xs| - 1]);
      KeptAt(xs[..|xs| - 1]) + if t != "" then [|xs| - 1] else []
  }

  /** The kept texts keep their original order: their positions increase. */
  lemma {:induction false} KeptInOrder(xs: seq<string>)
    ensures forall a, b :: 0 <= a < b < |KeptAt(xs)| ==> KeptAt(xs)[a] < KeptAt(xs)[b]
  {
    if xs != [] {
      KeptInOrder(xs[..|xs| - 1]);
    }
  }

  /** Every kept text is non-empty, and every input that does not strip to nothing is kept. */
  lemma {:induction false} KeptMembers(xs: seq<string>)
    ensures forall x :: x in Kept(xs) ==> x != ""
    ensures forall j :: 0 <= j < |xs| && Strip(xs[j]) != "" ==> Strip(xs[j]) in Kept(xs)
  {
    if xs != [] {
      var init := xs[..|xs| - 1];
      KeptMembers(init);
      forall j | 0 <= j < |xs| - 1 && Strip(xs[j]) != "" ensures Strip(xs[j]) in Kept(xs) {
        assert init[j] == xs[j];
      }
    }
  }

  /** Texts that are already stripped and non-empty are all kept, unchanged. */
  lemma {:induction false} KeptClean(xs: seq<string>)
    requires forall j :: 0 <= j < |xs| ==> xs[j] != "" && Strip(xs[j]) == xs[j]
    ensures Kept(xs) == xs
  {
    if xs != [] {
      KeptClean(xs[..|xs| - 1]);
      assert xs == xs[..|xs| - 1] + [xs[|xs| - 1]];
    }
  }

  /** A row contributes a line exactly when one of its cells is not blank; the line is never empty. */
  lemma {:induction false} RowContributes(cells: seq<string>)
    ensures Kept(cells) != [] <==> exists j :: 0 <= j < |cells| && Strip(cells[j]) != ""
    ensures Kept(cells) != [] ==> RowText(cells) != ""
  {
    KeptMembers(cells);
    if Kept(cells) != [] {
      var j := KeptAt(cells)[0];
      assert Kept(cells)[0] in Kept(cells);
      assert Strip(cells[j]) != "";
      JoinFirst(Kept(cells), CellSeparator);
    }
  }

  /** A join starts with its first part. */
  lemma {:induction false} JoinFirst(parts: seq<string>, sep: string)
    requires parts != [] && parts[0] != ""
    ensures Join(parts, sep) != ""
  {
    if |parts| > 1 {
      assert Join(parts, sep) == parts[0] + sep + Join(parts[1..], sep);
    }
  }

  /** Every cell of the table is blank. */
  predicate BlankTable(rows: Table) {
    forall r, c :: 0 <= r < |rows| && 0 <= c < |rows[r]| ==> Strip(rows[r][c]) == ""
  }

  /**
    With no table cell that is not blank, the text is exactly the paragraphs' text;
    otherwise the table section follows it.
  */
  lemma {:induction false} TablesSection(tables: seq<Table>)
    ensures AllLines(tables) == [] <==> forall t :: 0 <= t < |tables| ==> BlankTable(tables[t])
  {
    if tables != [] {
      var init := tables[..|tables| - 1];
      TablesSection(init);
      TableSection(tables[|tables| - 1]);
      assert forall t :: 0 <= t < |init| ==> init[t] == tables[t];
    }
  }

  lemma {:induction false} TableSection(rows: Table)
    ensures TableLines(rows) == [] <==> BlankTable(rows)
  {
    if rows != [] {
      var init := rows[..|rows| - 1];
      TableSection(init);
      RowContributes(rows[|rows| - 1]);
      assert forall r :: 0 <= r < |init| ==> init[r] == rows[r];
    }
  }

  /** Without a table cell that is not blank the text is the paragraphs' text alone. */
  lemma {:induction false} NoTablesText(d: DocxFile)
    requires forall t :: 0 <= t < |d.tables| ==> BlankTable(d.tables[t])
    ensures Assemble(d) == Join(Kept(d.paragraphs), LineBreak)
  {
    TablesSection(d.tables);
  }

  /** With a table cell that is not blank, the heading and the rows follow the paragraphs' text. */
  lemma {:induction false} TablesText(d: DocxFile, t: nat)
    requires t < |d.tables| && !BlankTable(d.tables[t])
    ensures var text := Join(Kept(d.paragraphs), LineBreak);
      var a := Assemble(d);
      |a| > |text| + |TablesHeading| && a[..|text|] == text && a[|text|..|text| + |TablesHeading|] == TablesHeading
  {
    TablesSection(d.tables);
    var lines := AllLines(d.tables);
    AllLinesNonEmpty(d.tables);
    var text := Join(Kept(d.paragraphs), LineBreak);
    var rest := Join(lines, LineBreak);
    JoinFirst(lines, LineBreak);
    assert Assemble(d) == text + TablesHeading + rest;
  }

  /** Every line of the table section is non-empty. */
  lemma {:induction false} AllLinesNonEmpty(tables: seq<Table>)
    ensures forall k :: 0 <= k < |AllLines(tables)| ==> AllLines(tables)[k] != ""
  {
    if tables != [] {
      AllLinesNonEmpty(tables[..|tables| - 1]);
      TableLinesNonEmpty(tables[|tables| - 1]);
    }
  }

  lemma {:induction false} TableLinesNonEmpty(rows: Table)
    ensures forall k :: 0 <= k < |TableLines(rows)| ==> TableLines(rows)[k] != ""
  {
    if rows != [] {
      TableLinesNonEmpty(rows[..|rows| - 1]);
      RowContributes(rows[|rows| - 1]);
    }
  }

  /** The paragraphs' part of the text splits back on '\n' into the kept paragraphs. */
  lemma {:induction false} ParagraphLines(d: DocxFile)
    requires Kept(d.paragraphs) != []
    requires forall j :: 0 <= j < |d.paragraphs| ==> '\n' !in d.paragraphs[j]
    ensures SplitOn(Join(Kept(d.paragraphs), LineBreak), LineBreak) == Kept(d.paragraphs)
  {
    var kept := Kept(d.paragraphs);
    forall k | 0 <= k < |kept| ensures '\n' !in kept[k] {
      StripKeepsOut(d.paragraphs[KeptAt(d.paragraphs)[k]], '\n');
    }
    SplitOnJoin(kept, '\n');
  }

  /** Stripping adds no character. */
  lemma {:induction false} StripKeepsOut(p: string, c: char)
    requires c !in p
    ensures c !in Strip(p)
  {
    StripIsSlice(p);
    var a, b :| 0 <= a <= b <= |p| && Strip(p) == p[a..b];
    assert forall i :: 0 <= i < b - a ==> Strip(p)[i] == p[a + i];
  }

  /** A failure to open is re-raised with the prefix and the original message. */
  lemma {:induction false} FailurePrefixed(cause: string)
    ensures var r := ExtractText(Err(cause));
      r.Err? && |r.error| == |ErrorPrefix| + |cause| && r.error[..|ErrorPrefix|] == ErrorPrefix && r.error[|ErrorPrefix|..] == cause
  {
  }
}
