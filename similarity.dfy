/**
  Text preprocessing and the composite text-similarity score of the production
  detector (`preprocess_text`, `calculate_text_similarity`).  The legacy detector in
  `advanced_plagiarism_detector.py` carries a line-for-line copy of both.
*/
module Similarity {
  import opened Wrappers
  import opened Text
  import opened SimCos
  import opened Documents

  // ---------------------------------------------------------------- preprocessing

  /** `preprocess_text`: lower case, every whitespace run to one ' ', then strip. */
  function Preprocess(t: string): string
  {
    Strip(Collapse(Lower(t)))
  }

  lemma {:induction false} CollapseKeepsLower(s: string)
    requires IsLower(s)
    ensures IsLower(Collapse(s))
    decreases |s|
  {
    if s != [] {
      if IsSpace(s[0]) {
        CollapseKeepsLower(s[LeadingSpaces(s)..]);
      } else {
        CollapseKeepsLower(s[1..]);
      }
    }
  }

  lemma {:induction false} SliceKeeps(s: string, i: nat, j: nat)
    requires i <= j <= |s|
    ensures IsLower(s) ==> IsLower(s[i..j])
    ensures NoDoubleSpace(s) ==> NoDoubleSpace(s[i..j])
    ensures OnlyPlainSpaces(s) ==> OnlyPlainSpaces(s[i..j])
  {
    if NoDoubleSpace(s) {
      forall k | 0 <= k < j - i - 1 ensures !(IsSpace(s[i..j][k]) && IsSpace(s[i..j][k + 1])) {
        assert s[i..j][k] == s[i + k] && s[i..j][k + 1] == s[i + k + 1];
      }
    }
  }

  /**
    The preprocessed text is lower case, has no whitespace at either end, and has
    no whitespace other than single plain spaces.
  */
  lemma {:induction false} PreprocessShape(t: string)
    ensures var p := Preprocess(t);
      IsLower(p) && NoDoubleSpace(p) && OnlyPlainSpaces(p) &&
      (p == [] || (!IsSpace(p[0]) && !IsSpace(p[|p| - 1])))
  {
    var c := Collapse(Lower(t));
    LowerIsLower(t);
    CollapseKeepsLower(Lower(t));
    StripIsSlice(c);
    var i, j :| 0 <= i <= j <= |c| && Strip(c) == c[i..j];
    SliceKeeps(c, i, j);
  }

  /** Preprocessing twice is preprocessing once. */
  lemma {:induction false} PreprocessIdempotent(t: string)
    ensures Preprocess(Preprocess(t)) == Preprocess(t)
  {
    var p := Preprocess(t);
    PreprocessShape(t);
    LowerOfLower(p);
    CollapseFixed(p);
    StripNoEdgeSpaces(p);
  }

  /** Preprocessing keeps the tokens of the lower-cased text. */
  lemma {:induction false} PreprocessTokens(t: string)
    ensures Split(Preprocess(t)) == Split(Lower(t))
  {
    SplitStrip(Collapse(Lower(t)));
    SplitCollapse(Lower(t));
  }

  // ---------------------------------------------------------------- the single metrics

  /** A shingle score is present only when both shingle sets are non-empty. */
  function ShingleScore(h: Hasher, c1: string, c2: string, k: nat): (r: Option<real>)
    ensures r.Some? <==> Shingles(h, c1, k) != {} && Shingles(h, c2, k) != {}
    ensures r.Some? ==> r.value == Coef(Shingles(h, c1, k), Shingles(h, c2, k))
  {
    var s1, s2 := Shingles(h, c1, k), Shingles(h, c2, k);
    if s1 != {} && s2 != {} then Some(Coef(s1, s2)) else None
  }

  function WordSet(s: string): set<string> {
    set w | w in Split(s)
  }

  /** Jaccard index of the word sets, present when both texts have a word. */
  function WordScore(c1: string, c2: string): (r: Option<real>)
    ensures r.Some? <==> WordSet(c1) != {} && WordSet(c2) != {}
    ensures r.Some? ==> r.value == Coef(WordSet(c1), WordSet(c2))
  {
    var w1, w2 := WordSet(c1), WordSet(c2);
    if w1 != {} && w2 != {} then Some(Coef(w1, w2)) else None
  }

  /** `Counter` intersection over `Counter` union: character multiplicities, minimum over maximum. */
  function CharScore(c1: string, c2: string): (r: real)
    ensures 0.0 <= r <= 1.0
  {
    var m1, m2 := multiset(c1), multiset(c2);
    var inter := |m1 * m2|;
    MultisetIntersectionCard(m1, m2);
    var union := |m1| + |m2| - inter;
    if union > 0 then
      DivBounds(inter as real, union as real);
      (inter as real) / (union as real)
    else 0.0
  }

  lemma {:induction false} MultisetIntersectionCard<T>(a: multiset<T>, b: multiset<T>)
    ensures |a * b| <= |a| && |a * b| <= |b|
  {
    assert a == (a * b) + (a - a * b);
    assert b == (a * b) + (b - a * b);
  }

  // ---------------------------------------------------------------- sentences

  predicate IsSentenceEnd(c: char) {
    c == '.' || c == '!' || c == '?'
  }

  /** Length of the text before the first '.', '!' or '?'. */
  function SentenceLength(s: string): (n: nat)
    ensures n <= |s|
    ensures forall i :: 0 <= i < n ==> !IsSentenceEnd(s[i])
    ensures n == |s| || IsSentenceEnd(s[n])
  {
    if s != [] && !IsSentenceEnd(s[0]) then 1 + SentenceLength(s[1..]) else 0
  }

  /** Length of the run of '.', '!' and '?' at the start. */
  function EndRun(s: string): (n: nat)
    ensures n <= |s|
    ensures n == |s| || !IsSentenceEnd(s[n])
  {
    if s != [] && IsSentenceEnd(s[0]) then 1 + EndRun(s[1..]) else 0
  }

  /** `re.split(r'[.!?]+', s)`. */
  function SplitSentences(s: string): (r: seq<string>)
    ensures |r| >= 1
    ensures forall i :: 0 <= i < |r| ==> forall j :: 0 <= j < |r[i]| ==> !IsSentenceEnd(r[i][j])
    decreases |s|
  {
    var n := SentenceLength(s);
    if n == |s| then [s]
    else
      var rest := s[n..];
      [s[..n]] + SplitSentences(rest[EndRun(rest)..])
  }

  /** `[s.strip() for s in pieces if s.strip()]`. */
  function StrippedNonEmpty(pieces: seq<string>): (r: seq<string>)
    ensures |r| <= |pieces|
    ensures forall i :: 0 <= i < |r| ==> r[i] != [] && Strip(r[i]) == r[i]
  {
    if pieces == [] then []
    else
      var rest := StrippedNonEmpty(pieces[1..]);
      var p := Strip(pieces[0]);
      StripNoEdgeSpaces(p);
      if p != [] then [p] + rest else rest
  }

  function Sentences(c: string): seq<string> {
    StrippedNonEmpty(SplitSentences(c))
  }

  /** The score of one pair of sentences, when both have words. */
  function PairScore(s1: string, s2: string): Option<real> {
    var w1, w2 := WordSet(s1), WordSet(s2);
    if s1 != [] && s2 != [] && w1 != {} && w2 != {} then Some(Coef(w1, w2)) else None
  }

  /** The scores of `s1` against the sentences of `ss`, in order. */
  function RowScores(s1: string, ss: seq<string>): (r: seq<real>)
    ensures forall i :: 0 <= i < |r| ==> 0.0 <= r[i] <= 1.0
  {
    if ss == [] then []
    else
      var init := RowScores(s1, ss[..|ss| - 1]);
      match PairScore(s1, ss[|ss| - 1])
      case Some(x) => init + [x]
      case None => init
  }

  /** `sentence_similarities`: all pair scores, row by row. */
  function PairScores(ss1: seq<string>, ss2: seq<string>): (r: seq<real>)
    ensures forall i :: 0 <= i < |r| ==> 0.0 <= r[i] <= 1.0
  {
    if ss1 == [] then [] else PairScores(ss1[..|ss1| - 1], ss2) + RowScores(ss1[|ss1| - 1], ss2)
  }

  function Sum(xs: seq<real>): real {
    if xs == [] then 0.0 else Sum(xs[..|xs| - 1]) + xs[|xs| - 1]
  }

  lemma {:induction false} SumBounds(xs: seq<real>)
    requires forall i :: 0 <= i < |xs| ==> 0.0 <= xs[i] <= 1.0
    ensures 0.0 <= Sum(xs) <= |xs| as real
    decreases |xs|
  {
    if xs != [] {
      SumBounds(xs[..|xs| - 1]);
    }
  }

  /** `np.mean(xs) if xs else 0`. */
  function Mean(xs: seq<real>): (r: real)
    requires forall i :: 0 <= i < |xs| ==> 0.0 <= xs[i] <= 1.0
    ensures 0.0 <= r <= 1.0
  {
    SumBounds(xs);
    if xs == [] then 0.0 else Sum(xs) / (|xs| as real)
  }

  function SentenceScore(c1: string, c2: string): Option<real> {
    var ss1, ss2 := Sentences(c1), Sentences(c2);
    if ss1 != [] && ss2 != [] then Some(Mean(PairScores(ss1, ss2))) else None
  }

  // ---------------------------------------------------------------- the weighted mean

  /** The metrics that enter `overall_similarity`, with their weights, in dictionary order. */
  const Weights: seq<(string, real)> :=
    [("shingle_1", 0.3), ("shingle_3", 0.4), ("shingle_5", 0.2), ("word_similarity", 0.1)]

  /** The running `(weighted_similarity, total_weight)` over the metrics that are present. */
  function Accumulate(signals: seq<(Option<real>, real)>): (real, real)
  {
    if signals == [] then (0.0, 0.0)
    else AddSignal(Accumulate(signals[..|signals| - 1]), signals[|signals| - 1])
  }

  /** One metric added to the running sums when it is present. */
  function AddSignal(acc: (real, real), signal: (Option<real>, real)): (real, real) {
    match signal.0
    case Some(x) => (acc.0 + x * signal.1, acc.1 + signal.1)
    case None => acc
  }

  function Signals(s1: Option<real>, s3: Option<real>, s5: Option<real>, w: Option<real>): seq<(Option<real>, real)> {
    [(s1, Weights[0].1), (s3, Weights[1].1), (s5, Weights[2].1), (w, Weights[3].1)]
  }

  /** `overall_similarity`. */
  function Overall(s1: Option<real>, s3: Option<real>, s5: Option<real>, w: Option<real>): real
  {
    var (ws, tw) := Accumulate(Signals(s1, s3, s5, w));
    if tw > 0.0 then ws / tw else 0.0
  }

  function W(o: Option<real>, weight: real): real {
    if o.Some? then weight else 0.0
  }

  function V(o: Option<real>, weight: real): real {
    if o.Some? then o.value * weight else 0.0
  }

  /**
    The overall score is the weighted mean 0.3/0.4/0.2/0.1 over exactly the metrics
    that were computed, and 0 when none was.
  */
  lemma {:induction false} OverallIsWeightedMean(s1: Option<real>, s3: Option<real>, s5: Option<real>, w: Option<real>)
    ensures var total := W(s1, 0.3) + W(s3, 0.4) + W(s5, 0.2) + W(w, 0.1);
      Overall(s1, s3, s5, w) ==
        if total > 0.0 then (V(s1, 0.3) + V(s3, 0.4) + V(s5, 0.2) + V(w, 0.1)) / total else 0.0
  {
    var sig := Signals(s1, s3, s5, w);
    assert sig[..1][..0] == [];
    assert Accumulate(sig[..1]) == (V(s1, 0.3), W(s1, 0.3));
    assert sig[..2][..1] == sig[..1];
    assert Accumulate(sig[..2]) == (V(s1, 0.3) + V(s3, 0.4), W(s1, 0.3) + W(s3, 0.4));
    assert sig[..3][..2] == sig[..2];
    assert Accumulate(sig[..3]) == (V(s1, 0.3) + V(s3, 0.4) + V(s5, 0.2), W(s1, 0.3) + W(s3, 0.4) + W(s5, 0.2));
    assert sig[..3] == sig[..|sig| - 1];
  }

  /** The overall score lies in [0, 1] when every metric does. */
  lemma {:induction false} OverallBounds(s1: Option<real>, s3: Option<real>, s5: Option<real>, w: Option<real>)
    requires s1.Some? ==> 0.0 <= s1.value <= 1.0
    requires s3.Some? ==> 0.0 <= s3.value <= 1.0
    requires s5.Some? ==> 0.0 <= s5.value <= 1.0
    requires w.Some? ==> 0.0 <= w.value <= 1.0
    ensures 0.0 <= Overall(s1, s3, s5, w) <= 1.0
  {
    OverallIsWeightedMean(s1, s3, s5, w);
    var total := W(s1, 0.3) + W(s3, 0.4) + W(s5, 0.2) + W(w, 0.1);
    var sum := V(s1, 0.3) + V(s3, 0.4) + V(s5, 0.2) + V(w, 0.1);
    assert 0.0 <= sum <= total;
    if total > 0.0 {
      DivBounds(sum, total);
    }
  }

  lemma {:induction false} DivBounds(x: real, y: real)
    requires 0.0 <= x <= y && y > 0.0
    ensures 0.0 <= x / y <= 1.0
  {
  }

  /** When every computed metric has the same value, the overall score is that value. */
  lemma {:induction false} OverallOfEqualScores(s1: Option<real>, s3: Option<real>, s5: Option<real>, w: Option<real>, x: real)
    requires s1.Some? || s3.Some? || s5.Some? || w.Some?
    requires s1.Some? ==> s1.value == x
    requires s3.Some? ==> s3.value == x
    requires s5.Some? ==> s5.value == x
    requires w.Some? ==> w.value == x
    ensures Overall(s1, s3, s5, w) == x
  {
    OverallIsWeightedMean(s1, s3, s5, w);
    var total := W(s1, 0.3) + W(s3, 0.4) + W(s5, 0.2) + W(w, 0.1);
    assert V(s1, 0.3) + V(s3, 0.4) + V(s5, 0.2) + V(w, 0.1) == x * total;
  }

  // ---------------------------------------------------------------- the composite score

  /** What `calculate_text_similarity(t1, t2)` returns. */
  function TextSim(h: Hasher, t1: string, t2: string): TextSimilarity
  {
    var c1, c2 := Preprocess(t1), Preprocess(t2);
    var s1, s3, s5 := ShingleScore(h, c1, c2, 1), ShingleScore(h, c1, c2, 3), ShingleScore(h, c1, c2, 5);
    var w := WordScore(c1, c2);
    TextSimilarity(s1, s3, s5, w, CharScore(c1, c2), SentenceScore(c1, c2), Overall(s1, s3, s5, w))
  }

  /** The overall score of two texts lies in [0, 1]. */
  lemma {:induction false} TextSimBounds(h: Hasher, t1: string, t2: string)
    ensures 0.0 <= TextSim(h, t1, t2).overall <= 1.0
  {
    var c1, c2 := Preprocess(t1), Preprocess(t2);
    OverallBounds(ShingleScore(h, c1, c2, 1), ShingleScore(h, c1, c2, 3), ShingleScore(h, c1, c2, 5), WordScore(c1, c2));
  }

  /** A text with at least one word compared with itself scores 1 overall. */
  lemma {:induction false} TextSimSelf(h: Hasher, t: string)
    requires Split(Lower(t)) != []
    ensures TextSim(h, t, t).overall == 1.0
  {
    var c := Preprocess(t);
    PreprocessTokens(t);
    assert Split(c)[0] in WordSet(c);
    ShinglesCount(h, c, 1);
    HashAllNonEmpty(h, Windows(Split(c), 1));
    CoefOne(Shingles(h, c, 1), Shingles(h, c, 1));
    CoefOne(Shingles(h, c, 3), Shingles(h, c, 3));
    CoefOne(Shingles(h, c, 5), Shingles(h, c, 5));
    CoefOne(WordSet(c), WordSet(c));
    OverallOfEqualScores(ShingleScore(h, c, c, 1), ShingleScore(h, c, c, 3), ShingleScore(h, c, c, 5), WordScore(c, c), 1.0);
  }

  // ---------------------------------------------------------------- the scoring procedure

  function ShingleKey(k: nat): string {
    "shingle_" + Decimal(k)
  }

  /** The `results` dictionary after the shingle loop over `sizes`. */
  function ShingleResults(h: Hasher, c1: string, c2: string, sizes: seq<nat>): map<string, real>
  {
    if sizes == [] then map[]
    else
      var m := ShingleResults(h, c1, c2, sizes[..|sizes| - 1]);
      match ShingleScore(h, c1, c2, sizes[|sizes| - 1])
      case Some(x) => m[ShingleKey(sizes[|sizes| - 1]) := x]
      case None => m
  }

  /** `results.get(key)`. */
  function Get(m: map<string, real>, key: string): Option<real> {
    if key in m then Some(m[key]) else None
  }

  /** The pairs (metric value if present, weight) the weighting loop visits. */
  function WeightedSignals(m: map<string, real>): seq<(Option<real>, real)> {
    seq(|Weights|, i requires 0 <= i < |Weights| => (Get(m, Weights[i].0), Weights[i].1))
  }

  /** The sentence-pair loop of `calculate_text_similarity`. */
  method SentencePairScores(ss1: seq<string>, ss2: seq<string>) returns (sims: seq<real>)
    ensures sims == PairScores(ss1, ss2)
  {
    sims := [];
    var i := 0;
    while i < |ss1|
      invariant 0 <= i <= |ss1|
      invariant sims == PairScores(ss1[..i], ss2)
    {
      var row := SentenceRowScores(ss1[i], ss2);
      sims := sims + row;
      assert ss1[..i + 1][..i] == ss1[..i];
      i := i + 1;
    }
    assert ss1[..|ss1|] == ss1;
  }

  /** One pass of the inner loop: `sent1` against every sentence of the other text. */
  method SentenceRowScores(s1: string, ss2: seq<string>) returns (row: seq<real>)
    ensures row == RowScores(s1, ss2)
  {
    row := [];
    var j := 0;
    while j < |ss2|
      invariant 0 <= j <= |ss2|
      invariant row == RowScores(s1, ss2[..j])
    {
      var s2 := ss2[j];
      assert ss2[..j + 1][..j] == ss2[..j];
      if s1 != [] && s2 != [] {
        var w1, w2 := WordSet(s1), WordSet(s2);
        if w1 != {} && w2 != {} {
          row := row + [Coef(w1, w2)];
        }
      }
      j := j + 1;
    }
    assert ss2[..|ss2|] == ss2;
  }

  /** `calculate_text_similarity`, filling the `results` dictionary as the source does. */
  method CalculateTextSimilarity(h: Hasher, t1: string, t2: string) returns (r: TextSimilarity)
    ensures r == TextSim(h, t1, t2)
    ensures 0.0 <= r.overall <= 1.0
  {
    var c1 := Preprocess(t1);
    var c2 := Preprocess(t2);
    var results := ShingleLoop(h, c1, c2);
    ghost var shingles := results;

    var words1, words2 := WordSet(c1), WordSet(c2);
    var w: Option<real> := None;
    if words1 != {} && words2 != {} {
      w := Some(Coef(words1, words2));
    }
    results := Put(results, "word_similarity", w);
    var chars := CharScore(c1, c2);
    results := Put(results, "char_similarity", Some(chars));

    var ss1, ss2 := Sentences(c1), Sentences(c2);
    var sentence: Option<real> := None;
    if ss1 != [] && ss2 != [] {
      var sims := SentencePairScores(ss1, ss2);
      sentence := Some(Mean(sims));
    }
    results := Put(results, "sentence_similarity", sentence);
    assert w == WordScore(c1, c2);
    assert sentence == SentenceScore(c1, c2);
    assert results == Put(Put(Put(shingles, "word_similarity", w), "char_similarity", Some(chars)), "sentence_similarity", sentence);
    assert results == FullResults(h, c1, c2);

    FullResultsLookups(h, c1, c2);
    var s1, s3, s5 := Get(results, "shingle_1"), Get(results, "shingle_3"), Get(results, "shingle_5");
    var overall := WeightedOverall(results);
    r := TextSimilarity(s1, s3, s5, Get(results, "word_similarity"), chars, sentence, overall);
    TextSimBounds(h, t1, t2);
  }

  /** The `results` dictionary at the end of `calculate_text_similarity`. */
  function FullResults(h: Hasher, c1: string, c2: string): map<string, real> {
    var m := ShingleResults(h, c1, c2, [1, 3, 5]);
    var m := Put(m, "word_similarity", WordScore(c1, c2));
    var m := Put(m, "char_similarity", Some(CharScore(c1, c2)));
    Put(m, "sentence_similarity", SentenceScore(c1, c2))
  }

  /** The weighting loop finds each metric under its own key. */
  lemma {:induction false} FullResultsLookups(h: Hasher, c1: string, c2: string)
    ensures var m := FullResults(h, c1, c2);
      var s1, s3, s5 := ShingleScore(h, c1, c2, 1), ShingleScore(h, c1, c2, 3), ShingleScore(h, c1, c2, 5);
      Get(m, "shingle_1") == s1 && Get(m, "shingle_3") == s3 && Get(m, "shingle_5") == s5 &&
      Get(m, "word_similarity") == WordScore(c1, c2) &&
      WeightedSignals(m) == Signals(s1, s3, s5, WordScore(c1, c2))
  {
    ShingleLookups(h, c1, c2);
    assert "word_similarity" !in ShingleResults(h, c1, c2, [1, 3, 5]) by { assert "word_similarity"[0] == 'w'; }
    ExtendedLookups(ShingleResults(h, c1, c2, [1, 3, 5]), WordScore(c1, c2), CharScore(c1, c2), SentenceScore(c1, c2));
  }

  /** Adding the word, character and sentence metrics keeps the shingle lookups. */
  lemma {:induction false} ExtendedLookups(m0: map<string, real>, w: Option<real>, chars: real, sentence: Option<real>)
    requires "word_similarity" !in m0
    ensures var m := Put(Put(Put(m0, "word_similarity", w), "char_similarity", Some(chars)), "sentence_similarity", sentence);
      Get(m, "shingle_1") == Get(m0, "shingle_1") && Get(m, "shingle_3") == Get(m0, "shingle_3") &&
      Get(m, "shingle_5") == Get(m0, "shingle_5") && Get(m, "word_similarity") == w &&
      WeightedSignals(m) == Signals(Get(m0, "shingle_1"), Get(m0, "shingle_3"), Get(m0, "shingle_5"), w)
  {
    var m1 := Put(m0, "word_similarity", w);
    var m2 := Put(m1, "char_similarity", Some(chars));
    var m := Put(m2, "sentence_similarity", sentence);
    var shingleKeys := ["shingle_1", "shingle_3", "shingle_5"];
    forall key | key in shingleKeys
      ensures Get(m, key) == Get(m0, key)
    {
      assert key[1] == 'h';
      assert key != "word_similarity" by { assert "word_similarity"[1] == 'o'; }
      assert key != "char_similarity" by { assert "char_similarity"[0] == 'c' && key[0] == 's'; }
      assert key != "sentence_similarity" by { assert "sentence_similarity"[1] == 'e'; }
      GetPutOther(m0, "word_similarity", w, key);
      GetPutOther(m1, "char_similarity", Some(chars), key);
      GetPutOther(m2, "sentence_similarity", sentence, key);
    }
    assert "word_similarity" != "char_similarity" by { assert "char_similarity"[0] == 'c'; }
    assert "word_similarity" != "sentence_similarity" by { assert "sentence_similarity"[0] == 's'; }
    GetPutOther(m1, "char_similarity", Some(chars), "word_similarity");
    GetPutOther(m2, "sentence_similarity", sentence, "word_similarity");
    assert Get(m, "shingle_1") == Get(m0, "shingle_1") by { assert shingleKeys[0] == "shingle_1"; }
    assert Get(m, "shingle_3") == Get(m0, "shingle_3") by { assert shingleKeys[1] == "shingle_3"; }
    assert Get(m, "shingle_5") == Get(m0, "shingle_5") by { assert shingleKeys[2] == "shingle_5"; }
    var sig := Signals(Get(m0, "shingle_1"), Get(m0, "shingle_3"), Get(m0, "shingle_5"), w);
    assert WeightedSignals(m)[0] == sig[0];
    assert WeightedSignals(m)[1] == sig[1];
    assert WeightedSignals(m)[2] == sig[2];
    assert WeightedSignals(m)[3] == sig[3];
  }

  /** Setting one key leaves every other lookup as it was. */
  lemma {:induction false} GetPutOther(m: map<string, real>, k: string, o: Option<real>, key: string)
    requires key != k
    ensures Get(Put(m, k, o), key) == Get(m, key)
  {
  }

  /** The loop over the shingle sizes 1, 3 and 5. */
  method ShingleLoop(h: Hasher, c1: string, c2: string) returns (results: map<string, real>)
    ensures results == ShingleResults(h, c1, c2, [1, 3, 5])
  {
    results := map[];
    var sizes: seq<nat> := [1, 3, 5];
    var i := 0;
    while i < |sizes|
      invariant 0 <= i <= |sizes|
      invariant results == ShingleResults(h, c1, c2, sizes[..i])
    {
      var sh1, sh2 := Shingles(h, c1, sizes[i]), Shingles(h, c2, sizes[i]);
      ShingleResultsStep(h, c1, c2, sizes, i);
      if sh1 != {} && sh2 != {} {
        results := results[ShingleKey(sizes[i]) := Coef(sh1, sh2)];
      }
      i := i + 1;
    }
    assert sizes[..3] == sizes;
  }

  /** One more metric in the running sums. */
  lemma {:induction false} AccumulateStep(signals: seq<(Option<real>, real)>, k: nat)
    requires k < |signals|
    ensures Accumulate(signals[..k + 1]) == AddSignal(Accumulate(signals[..k]), signals[k])
  {
    var prefix := signals[..k + 1];
    assert prefix[..|prefix| - 1] == signals[..k];
  }

  /** One more shingle size in the results. */
  lemma {:induction false} ShingleResultsStep(h: Hasher, c1: string, c2: string, sizes: seq<nat>, i: nat)
    requires i < |sizes|
    ensures ShingleResults(h, c1, c2, sizes[..i + 1]) ==
      match ShingleScore(h, c1, c2, sizes[i])
      case Some(x) => ShingleResults(h, c1, c2, sizes[..i])[ShingleKey(sizes[i]) := x]
      case None => ShingleResults(h, c1, c2, sizes[..i])
  {
    var prefix := sizes[..i + 1];
    assert prefix[..|prefix| - 1] == sizes[..i];
  }

  /** `results[key] = x` when the value is present, nothing otherwise. */
  function Put(m: map<string, real>, key: string, o: Option<real>): map<string, real> {
    if o.Some? then m[key := o.value] else m
  }

  /** The weighting loop: `weighted_similarity / total_weight`, or 0 when no weight was added. */
  method WeightedOverall(results: map<string, real>) returns (overall: real)
    ensures var (ws, tw) := Accumulate(WeightedSignals(results));
      overall == if tw > 0.0 then ws / tw else 0.0
  {
    var weighted, total := 0.0, 0.0;
    var k := 0;
    while k < |Weights|
      invariant 0 <= k <= |Weights|
      invariant weighted == Accumulate(WeightedSignals(results)[..k]).0
      invariant total == Accumulate(WeightedSignals(results)[..k]).1
    {
      var (name, weight) := Weights[k];
      ghost var signal := WeightedSignals(results)[k];
      AccumulateStep(WeightedSignals(results), k);
      assert signal == (Get(results, name), weight);
      if name in results {
        assert signal == (Some(results[name]), weight);
        weighted := weighted + results[name] * weight;
        total := total + weight;
      }
      k := k + 1;
    }
    assert WeightedSignals(results)[..|Weights|] == WeightedSignals(results);
    overall := if total > 0.0 then weighted / total else 0.0;
  }

  lemma {:induction false} ShingleLookups(h: Hasher, c1: string, c2: string)
    ensures var m := ShingleResults(h, c1, c2, [1, 3, 5]);
      Get(m, "shingle_1") == ShingleScore(h, c1, c2, 1) &&
      Get(m, "shingle_3") == ShingleScore(h, c1, c2, 3) &&
      Get(m, "shingle_5") == ShingleScore(h, c1, c2, 5) &&
      forall key :: key in m ==> key == "shingle_1" || key == "shingle_3" || key == "shingle_5"
  {
    var sizes: seq<nat> := [1, 3, 5];
    ShingleKeys();
    ShingleResultsGet(h, c1, c2, sizes, 1);
    ShingleResultsGet(h, c1, c2, sizes, 3);
    ShingleResultsGet(h, c1, c2, sizes, 5);
    ShingleOnlyKeys(h, c1, c2);
  }

  lemma {:induction false} ShingleOnlyKeys(h: Hasher, c1: string, c2: string)
    ensures forall key :: key in ShingleResults(h, c1, c2, [1, 3, 5]) ==> key == ShingleKey(1) || key == ShingleKey(3) || key == ShingleKey(5)
  {
    var sizes: seq<nat> := [1, 3, 5];
    forall key | key in ShingleResults(h, c1, c2, sizes) ensures key == ShingleKey(1) || key == ShingleKey(3) || key == ShingleKey(5) {
      ShingleResultsKeys(h, c1, c2, sizes, key);
      var k :| k in sizes && key == ShingleKey(k);
      assert k == sizes[0] || k == sizes[1] || k == sizes[2];
    }
  }

  lemma {:induction false} ShingleKeyInjective(a: nat, b: nat)
    requires ShingleKey(a) == ShingleKey(b)
    ensures a == b
  {
    assert ShingleKey(a)[8..] == Decimal(a);
    assert ShingleKey(b)[8..] == Decimal(b);
  }

  lemma {:induction false} ShingleResultsGet(h: Hasher, c1: string, c2: string, sizes: seq<nat>, k: nat)
    ensures Get(ShingleResults(h, c1, c2, sizes), ShingleKey(k)) == if k in sizes then ShingleScore(h, c1, c2, k) else None
    decreases |sizes|
  {
    if sizes != [] {
      var init, last := sizes[..|sizes| - 1], sizes[|sizes| - 1];
      ShingleResultsGet(h, c1, c2, init, k);
      ShingleResultsLast(h, c1, c2, sizes, ShingleKey(k));
      if last != k && ShingleKey(last) == ShingleKey(k) {
        ShingleKeyInjective(last, k);
      }
      InInitOrLast(sizes, k);
    }
  }

  lemma {:induction false} InInitOrLast(sizes: seq<nat>, k: nat)
    requires sizes != []
    ensures k in sizes <==> k in sizes[..|sizes| - 1] || k == sizes[|sizes| - 1]
  {
    assert sizes == sizes[..|sizes| - 1] + [sizes[|sizes| - 1]];
  }

  /** The lookup after the last size: its score under its key, the earlier results otherwise. */
  lemma {:induction false} ShingleResultsLast(h: Hasher, c1: string, c2: string, sizes: seq<nat>, key: string)
    requires sizes != []
    ensures var last := sizes[|sizes| - 1];
      Get(ShingleResults(h, c1, c2, sizes), key) ==
        if key == ShingleKey(last) && ShingleScore(h, c1, c2, last).Some? then ShingleScore(h, c1, c2, last)
        else Get(ShingleResults(h, c1, c2, sizes[..|sizes| - 1]), key)
  {
  }

  lemma {:induction false} ShingleResultsKeys(h: Hasher, c1: string, c2: string, sizes: seq<nat>, key: string)
    requires key in ShingleResults(h, c1, c2, sizes)
    ensures exists k :: k in sizes && key == ShingleKey(k)
    decreases |sizes|
  {
    var init, last := sizes[..|sizes| - 1], sizes[|sizes| - 1];
    assert sizes == init + [last];
    if key != ShingleKey(last) {
      ShingleResultsKeys(h, c1, c2, init, key);
      var k :| k in init && key == ShingleKey(k);
      assert k in sizes;
    }
  }

  lemma {:induction false} ShingleKeys()
    ensures ShingleKey(1) == "shingle_1" && ShingleKey(3) == "shingle_3" && ShingleKey(5) == "shingle_5"
    ensures "shingle_1" != "shingle_3" && "shingle_1" != "shingle_5" && "shingle_3" != "shingle_5"
  {
    assert Decimal(1) == ['1'];
    assert Decimal(3) == ['3'];
    assert Decimal(5) == ['5'];
    assert "shingle_1"[8] != "shingle_3"[8];
    assert "shingle_1"[8] != "shingle_5"[8];
    assert "shingle_3"[8] != "shingle_5"[8];
  }
}
