/**
  The text helpers of `vector.py`: chapters paired on blank lines, sentences split
  after full stops, and the disabled vectoriser.
*/
module Vectors {
  import opened Wrappers
  import opened Text

  /** The key used when no chapter is found. */
  const FallbackTitle: string := "Бгуир"
  /** The chapter separator: one empty line. */
  const BlankLine: string := "\n\n"

  // ---------------------------------------------------------------- chapters

  /** `1 if len(chapters) % 2 != 0 else 0`. */
  function StartIndex(parts: seq<string>): nat {
    if |parts| % 2 != 0 then 1 else 0
  }

  /** The index of the `c`-th iteration of `range(i, len(parts), 2)`. */
  function Pos(i: nat, c: nat): nat {
    i + 2 * c
  }

  /** Whether the iteration at index `j` stores a chapter: a following part exists and the title is not blank. */
  predicate Stores(parts: seq<string>, j: nat) {
    j + 1 < |parts| && Strip(parts[j]) != ""
  }

  /** One iteration: `chapters_dict[title] = content` when the title is not blank. */
  function StoreAt(m: map<string, string>, parts: seq<string>, j: nat): map<string, string> {
    if Stores(parts, j) then m[Strip(parts[j]) := Strip(parts[j + 1])] else m
  }

  /** The dictionary `m` after the iterations from index `i` on. */
  function PairsFrom(m: map<string, string>, parts: seq<string>, i: nat): map<string, string>
    decreases |parts| - i
  {
    if i >= |parts| then m else PairsFrom(StoreAt(m, parts, i), parts, i + 2)
  }

  /** The pairs found in the parts of the text, before the fallback. */
  function Paired(parts: seq<string>): map<string, string> {
    PairsFrom(map[], parts, StartIndex(parts))
  }

  /** `extract_chapters_from_txt` for the text the file holds. */
  function ExtractChapters(text: string): map<string, string> {
    var m := Paired(SplitOn(text, BlankLine));
    if |m| == 0 then map[FallbackTitle := text] else m
  }

  method ExtractChaptersFromText(text: string) returns (chapters: map<string, string>)
    ensures chapters == ExtractChapters(text)
  {
    var parts := SplitOn(text, BlankLine);
    chapters := map[];
    var i := if |parts| % 2 != 0 then 1 else 0;
    while i < |parts|
      invariant PairsFrom(chapters, parts, i) == Paired(parts)
      decreases |parts| - i
    {
      if i + 1 < |parts| {
        var title := Strip(parts[i]);
        var content := Strip(parts[i + 1]);
        if title != "" {
          chapters := chapters[title := content];
        }
      }
      i := i + 2;
    }
    if |chapters| == 0 {
      chapters := map[FallbackTitle := text];
    }
  }

  /**
    From index `i` on, a title ends up stored exactly when it was stored before or
    some later iteration stores it.
  */
  lemma {:induction false} PairsFromKeys(m: map<string, string>, parts: seq<string>, i: nat, title: string)
    ensures title in PairsFrom(m, parts, i) <==>
      title in m || exists c: nat :: Stores(parts, Pos(i, c)) && Strip(parts[Pos(i, c)]) == title
  {
    if title in PairsFrom(m, parts, i) {
      KeptKeys(m, parts, i, title);
    }
    if title in m {
      OldKeys(m, parts, i, title);
    }
    if exists c: nat :: Stores(parts, Pos(i, c)) && Strip(parts[Pos(i, c)]) == title {
      var c: nat :| Stores(parts, Pos(i, c)) && Strip(parts[Pos(i, c)]) == title;
      NewKeys(m, parts, i, c);
    }
  }

  /** A stored title was there before or comes from a later iteration. */
  lemma {:induction false} KeptKeys(m: map<string, string>, parts: seq<string>, i: nat, title: string)
    requires title in PairsFrom(m, parts, i)
    ensures title in m || exists c: nat :: Stores(parts, Pos(i, c)) && Strip(parts[Pos(i, c)]) == title
    decreases |parts| - i
  {
    if i < |parts| {
      var m' := StoreAt(m, parts, i);
      var next := i + 2;
      KeptKeys(m', parts, next, title);
      if title in m' && title !in m {
        assert Pos(i, 0) == i;
        assert Stores(parts, Pos(i, 0)) && Strip(parts[Pos(i, 0)]) == title;
      } else if title !in m' {
        var c: nat :| Stores(parts, Pos(next, c)) && Strip(parts[Pos(next, c)]) == title;
        assert Pos(next, c) == Pos(i, c + 1);
        assert Stores(parts, Pos(i, c + 1)) && Strip(parts[Pos(i, c + 1)]) == title;
      }
    }
  }

  /** No iteration removes a title. */
  lemma {:induction false} OldKeys(m: map<string, string>, parts: seq<string>, i: nat, title: string)
    requires title in m
    ensures title in PairsFrom(m, parts, i)
    decreases |parts| - i
  {
    if i < |parts| {
      OldKeys(StoreAt(m, parts, i), parts, i + 2, title);
    }
  }

  /** The title of every storing iteration ends up stored. */
  lemma {:induction false} NewKeys(m: map<string, string>, parts: seq<string>, i: nat, c: nat)
    requires Stores(parts, Pos(i, c))
    ensures Strip(parts[Pos(i, c)]) in PairsFrom(m, parts, i)
    decreases |parts| - i
  {
    var m' := StoreAt(m, parts, i);
    var next := i + 2;
    assert i < |parts| && PairsFrom(m, parts, i) == PairsFrom(m', parts, next);
    if c == 0 {
      assert Strip(parts[i]) in m';
      OldKeys(m', parts, next, Strip(parts[i]));
    } else {
      assert Pos(next, c - 1) == Pos(i, c);
      NewKeys(m', parts, next, c - 1);
    }
  }

  /**
    A later duplicate title overwrites the earlier one: the content stored for a
    title is the one of the last iteration with that title.
  */
  lemma {:induction false} PairsFromLast(m: map<string, string>, parts: seq<string>, i: nat, c: nat)
    requires Stores(parts, Pos(i, c))
    requires forall c': nat :: c < c' && Stores(parts, Pos(i, c')) ==> Strip(parts[Pos(i, c')]) != Strip(parts[Pos(i, c)])
    ensures var title := Strip(parts[Pos(i, c)]);
      title in PairsFrom(m, parts, i) && PairsFrom(m, parts, i)[title] == Strip(parts[Pos(i, c) + 1])
    decreases |parts| - i
  {
    var title := Strip(parts[Pos(i, c)]);
    var m' := StoreAt(m, parts, i);
    var next := i + 2;
    if c == 0 {
      forall c': nat | Stores(parts, Pos(next, c')) ensures Strip(parts[Pos(next, c')]) != title {
        assert Pos(next, c') == Pos(i, c' + 1);
      }
      PairsFromUnchanged(m', parts, next, title);
    } else {
      forall c': nat | c - 1 < c' && Stores(parts, Pos(next, c'))
        ensures Strip(parts[Pos(next, c')]) != title
      {
        assert Pos(next, c') == Pos(i, c' + 1);
      }
      assert Pos(next, c - 1) == Pos(i, c);
      PairsFromLast(m', parts, next, c - 1);
    }
  }

  /** A title no iteration from `i` on stores keeps its entry. */
  lemma {:induction false} PairsFromUnchanged(m: map<string, string>, parts: seq<string>, i: nat, title: string)
    requires title in m
    requires forall c: nat :: Stores(parts, Pos(i, c)) ==> Strip(parts[Pos(i, c)]) != title
    ensures title in PairsFrom(m, parts, i) && PairsFrom(m, parts, i)[title] == m[title]
    decreases |parts| - i
  {
    if i < |parts| {
      var next := i + 2;
      assert Pos(i, 0) == i;
      forall c: nat | Stores(parts, Pos(next, c)) ensures Strip(parts[Pos(next, c)]) != title {
        assert Pos(next, c) == Pos(i, c + 1);
      }
      PairsFromUnchanged(StoreAt(m, parts, i), parts, next, title);
    }
  }

  /** The result is never empty. */
  lemma {:induction false} ChaptersNonEmpty(text: string)
    ensures |ExtractChapters(text)| > 0
  {
    if |Paired(SplitOn(text, BlankLine))| == 0 {
      assert FallbackTitle in ExtractChapters(text);
    }
  }

  /**
    When some pair stores a chapter, the titles are exactly the non-blank stripped
    titles of the pairs (parts[i], parts[i + 1]), i = start, start + 2, …, each
    with the stripped content of its last pair; otherwise the single entry is the
    fallback title with the whole text.
  */
  lemma {:induction false} ChaptersExact(text: string, title: string)
    ensures var parts := SplitOn(text, BlankLine);
      var start := StartIndex(parts);
      var r := ExtractChapters(text);
      ((exists c: nat :: Stores(parts, Pos(start, c))) ==>
        (title in r <==> exists c: nat :: Stores(parts, Pos(start, c)) && Strip(parts[Pos(start, c)]) == title)) &&
      ((forall c: nat :: !Stores(parts, Pos(start, c))) ==> r == map[FallbackTitle := text])
  {
    var parts := SplitOn(text, BlankLine);
    var start := StartIndex(parts);
    var m := Paired(parts);
    PairsFromKeys(map[], parts, start, title);
    if exists c: nat :: Stores(parts, Pos(start, c)) {
      var c: nat :| Stores(parts, Pos(start, c));
      PairsFromKeys(map[], parts, start, Strip(parts[Pos(start, c)]));
      assert Strip(parts[Pos(start, c)]) in m;
    } else if |m| != 0 {
      var t :| t in m;
      PairsFromKeys(map[], parts, start, t);
      assert false;
    }
  }

  /** The content stored for a title is the stripped content of its last pair. */
  lemma {:induction false} ChapterContent(text: string, c: nat)
    requires var parts := SplitOn(text, BlankLine);
      var start := StartIndex(parts);
      Stores(parts, Pos(start, c)) &&
      forall c': nat :: c < c' && Stores(parts, Pos(start, c')) ==> Strip(parts[Pos(start, c')]) != Strip(parts[Pos(start, c)])
    ensures var parts := SplitOn(text, BlankLine);
      var j := Pos(StartIndex(parts), c);
      Strip(parts[j]) in ExtractChapters(text) && ExtractChapters(text)[Strip(parts[j])] == Strip(parts[j + 1])
  {
    var parts := SplitOn(text, BlankLine);
    var j := Pos(StartIndex(parts), c);
    var m := Paired(parts);
    PairsFromLast(map[], parts, StartIndex(parts), c);
    assert Strip(parts[j]) in m;
    NonEmptyMap(m, Strip(parts[j]));
    assert ExtractChapters(text) == m;
  }

  lemma {:induction false} NonEmptyMap(m: map<string, string>, k: string)
    requires k in m
    ensures |m| != 0
  {
    assert k in m.Keys;
  }

  /** Every stored title is non-blank and has no whitespace at either end. */
  lemma {:induction false} TitlesStripped(m: map<string, string>, parts: seq<string>, i: nat)
    requires forall t :: t in m ==> t != "" && !IsSpace(t[0]) && !IsSpace(t[|t| - 1])
    ensures forall t :: t in PairsFrom(m, parts, i) ==> t != "" && !IsSpace(t[0]) && !IsSpace(t[|t| - 1])
    decreases |parts| - i
  {
    if i < |parts| {
      TitlesStripped(StoreAt(m, parts, i), parts, i + 2);
    }
  }

  // ---------------------------------------------------------------- sentences

  /** A split point: a whitespace character right after a '.'. */
  predicate SplitsAt(s: string, p: nat) {
    0 < p < |s| && s[p - 1] == '.' && IsSpace(s[p])
  }

  /** The first split point, if any. */
  function FirstSplit(s: string, from: nat): (r: Option<nat>)
    requires from <= |s|
    ensures r.Some? ==> from <= r.value < |s| && SplitsAt(s, r.value)
    ensures r.Some? ==> forall p :: from <= p < r.value ==> !SplitsAt(s, p)
    ensures r.None? ==> forall p :: from <= p < |s| ==> !SplitsAt(s, p)
    decreases |s| - from
  {
    if from == |s| then None
    else if SplitsAt(s, from) then Some(from)
    else FirstSplit(s, from + 1)
  }

  /** `re.split(r'(?<=\.)\s+', block)`: the pieces between the whitespace runs that follow a '.'. */
  function Sentences(s: string): (r: seq<string>)
    ensures |r| >= 1
    decreases |s|
  {
    match FirstSplit(s, 0)
    case None => [s]
    case Some(p) =>
      var q := p + LeadingSpaces(s[p..]);
      [s[..p]] + Sentences(s[q..])
  }

  /** Every piece but the last ends with '.'. */
  predicate EndsWithStops(r: seq<string>) {
    forall k :: 0 <= k < |r| - 1 ==> |r[k]| > 0 && r[k][|r[k]| - 1] == '.'
  }

  /** No piece holds a split point. */
  predicate NoSplits(r: seq<string>) {
    forall k, p :: 0 <= k < |r| && 0 <= p < |r[k]| ==> !SplitsAt(r[k], p)
  }

  /**
    Every piece but the last ends with '.', and no piece holds a split point: the
    text is cut at every whitespace run after a full stop and nowhere else.
  */
  lemma {:induction false} SentencesShape(s: string)
    ensures EndsWithStops(Sentences(s)) && NoSplits(Sentences(s))
    decreases |s|
  {
    match FirstSplit(s, 0)
    case None =>
      assert Sentences(s) == [s];
    case Some(p) =>
      var q := p + LeadingSpaces(s[p..]);
      var rest := Sentences(s[q..]);
      SentencesShape(s[q..]);
      HeadPiece(s, p);
      assert Sentences(s) == [s[..p]] + rest;
      ConsShape(s[..p], rest);
  }

  /** The piece before the first split point ends with '.' and holds no split point. */
  lemma {:induction false} HeadPiece(s: string, p: nat)
    requires FirstSplit(s, 0) == Some(p)
    ensures |s[..p]| > 0 && s[..p][p - 1] == '.'
    ensures forall p' :: 0 <= p' < p ==> !SplitsAt(s[..p], p')
  {
    forall p' | 0 <= p' < p ensures !SplitsAt(s[..p], p') {
      assert !SplitsAt(s, p');
    }
  }

  lemma {:induction false} ConsShape(h: string, rest: seq<string>)
    requires |h| > 0 && h[|h| - 1] == '.' && forall p :: 0 <= p < |h| ==> !SplitsAt(h, p)
    requires EndsWithStops(rest) && NoSplits(rest)
    ensures EndsWithStops([h] + rest) && NoSplits([h] + rest)
  {
    var r := [h] + rest;
    forall k | 0 <= k < |r| - 1 ensures |r[k]| > 0 && r[k][|r[k]| - 1] == '.' {
      if k > 0 {
        assert r[k] == rest[k - 1];
      }
    }
    forall k, p | 0 <= k < |r| && 0 <= p < |r[k]| ensures !SplitsAt(r[k], p) {
      if k > 0 {
        assert r[k] == rest[k - 1];
      }
    }
  }

  /** Text with no full stop followed by whitespace is one sentence. */
  lemma {:induction false} NoSplitOneSentence(s: string)
    requires forall p :: 0 <= p < |s| ==> !SplitsAt(s, p)
    ensures Sentences(s) == [s]
  {
  }

  // ---------------------------------------------------------------- vectorisation

  /** `process_text`: the model is disabled, so no vector is ever produced. */
  function ProcessText(path: string): Option<seq<real>> {
    None
  }
}
