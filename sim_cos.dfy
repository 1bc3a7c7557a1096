/**
  The shingle-similarity library: token windows of a text hashed into a set,
  the Jaccard coefficient of two such sets, and the originality percentage of a
  text against the union of the shingles of a list of corpus texts.
*/
module SimCos {
  import opened Text

  /** A hex digest, as `hashlib.md5(...).hexdigest()` returns it. */
  type Digest = string

  /**
    The digest of a window string.  MD5 itself is not modelled: every property
    below holds for whatever function is passed here.
  */
  type Hasher = string -> Digest

  /** The window strings `' '.join(tokens[i:i + k])` for `i in range(len(tokens) - k + 1)`. */
  function Windows(tokens: seq<string>, k: nat): (r: seq<string>)
    ensures |r| == if |tokens| >= k then |tokens| - k + 1 else 0
    ensures forall i :: 0 <= i < |r| ==> r[i] == Join(tokens[i..i + k], " ")
  {
    if |tokens| < k then []
    else seq(|tokens| - k + 1, i requires 0 <= i < |tokens| - k + 1 => Join(tokens[i..i + k], " "))
  }

  /** `generate_hashed_shingles(text, k)`. */
  function Shingles(h: Hasher, text: string, k: nat): set<Digest>
  {
    HashAll(h, Windows(Split(text), k))
  }

  function HashAll(h: Hasher, ws: seq<string>): set<Digest>
  {
    set w | w in ws :: h(w)
  }

  lemma {:induction false} HashAllSize(h: Hasher, ws: seq<string>)
    ensures |HashAll(h, ws)| <= |ws|
    decreases |ws|
  {
    if ws != [] {
      var init := ws[..|ws| - 1];
      HashAllSize(h, init);
      assert HashAll(h, ws) == HashAll(h, init) + {h(ws[|ws| - 1])} by {
        forall d | d in HashAll(h, ws) ensures d in HashAll(h, init) + {h(ws[|ws| - 1])} {
          var w :| w in ws && h(w) == d;
          var i :| 0 <= i < |ws| && ws[i] == w;
          if i < |ws| - 1 {
            assert init[i] == w;
          }
        }
      }
    }
  }

  /**
    A text with n whitespace-separated tokens has at most n - k + 1 distinct
    shingles of size k, and none at all when n < k.
  */
  lemma {:induction false} ShinglesCount(h: Hasher, text: string, k: nat)
    ensures var n := |Split(text)|;
      |Shingles(h, text, k)| <= (if n >= k then n - k + 1 else 0)
    ensures |Split(text)| < k ==> Shingles(h, text, k) == {}
  {
    HashAllSize(h, Windows(Split(text), k));
  }

  /** Shingles depend only on the token sequence: runs of whitespace and the edges do not matter. */
  lemma {:induction false} ShinglesIgnoreSpacing(h: Hasher, text: string, k: nat)
    ensures Shingles(h, Strip(Collapse(text)), k) == Shingles(h, text, k)
  {
    SplitStrip(Collapse(text));
    SplitCollapse(text);
  }

  // ---------------------------------------------------------------- the coefficient

  /** `coef_similarity_hashed`: |A ∩ B| / |A ∪ B|, or 0 when the union is empty. */
  function Coef<T>(a: set<T>, b: set<T>): (r: real)
    ensures 0.0 <= r <= 1.0
    ensures a + b == {} ==> r == 0.0
    ensures a + b != {} ==> r * (|a + b| as real) == |a * b| as real
  {
    if |a + b| > 0 then
      CardIntersectionUnion(a, b);
      (|a * b| as real) / (|a + b| as real)
    else 0.0
  }

  lemma {:induction false} CardIntersectionUnion<T>(a: set<T>, b: set<T>)
    ensures |a * b| <= |a + b|
  {
    assert a * b <= a + b;
    SubsetCard(a * b, a + b);
  }

  lemma {:induction false} SubsetCard<T>(x: set<T>, y: set<T>)
    requires x <= y
    ensures |x| <= |y|
    ensures |x| == |y| ==> x == y
  {
    assert y == x + (y - x);
    if |x| == |y| {
      assert |y - x| == 0;
    }
  }

  lemma {:induction false} CoefSymmetric<T>(a: set<T>, b: set<T>)
    ensures Coef(a, b) == Coef(b, a)
  {
    assert a * b == b * a;
    assert a + b == b + a;
  }

  /** A non-empty set is fully similar to itself; only equal non-empty sets are. */
  lemma {:induction false} CoefOne<T>(a: set<T>, b: set<T>)
    ensures Coef(a, b) == 1.0 <==> a == b && a != {}
  {
    if Coef(a, b) == 1.0 {
      assert a + b != {};
      assert |a * b| == |a + b|;
      SubsetCard(a * b, a + b);
      assert a * b == a + b;
      assert a <= a + b && b <= a + b;
    }
    if a == b && a != {} {
      assert a * b == a && a + b == a;
    }
  }

  /** The coefficient is 0 exactly when the sets share nothing. */
  lemma {:induction false} CoefZero<T>(a: set<T>, b: set<T>)
    ensures Coef(a, b) == 0.0 <==> a * b == {}
  {
    if a * b != {} {
      assert |a * b| > 0;
      assert a + b != {};
    }
  }

  // ---------------------------------------------------------------- originality

  /** The union of a list of sets, accumulated from the left. */
  function UnionAll<T>(ss: seq<set<T>>): set<T>
  {
    if ss == [] then {} else UnionAll(ss[..|ss| - 1]) + ss[|ss| - 1]
  }

  lemma {:induction false} UnionAllMember<T>(ss: seq<set<T>>, x: T)
    ensures x in UnionAll(ss) <==> exists i :: 0 <= i < |ss| && x in ss[i]
    decreases |ss|
  {
    if ss != [] {
      var init := ss[..|ss| - 1];
      UnionAllMember(init, x);
      if exists i :: 0 <= i < |ss| && x in ss[i] {
        var i :| 0 <= i < |ss| && x in ss[i];
        if i < |ss| - 1 {
          assert init[i] == ss[i];
        }
      }
      if exists i :: 0 <= i < |init| && x in init[i] {
        var i :| 0 <= i < |init| && x in init[i];
        assert ss[i] == init[i];
      }
    }
  }

  /** The shingle set of every corpus text, in corpus order. */
  function ShingleSets(h: Hasher, docs: seq<string>, k: nat): (r: seq<set<Digest>>)
    ensures |r| == |docs|
    ensures forall i :: 0 <= i < |docs| ==> r[i] == Shingles(h, docs[i], k)
  {
    seq(|docs|, i requires 0 <= i < |docs| => Shingles(h, docs[i], k))
  }

  /** The shingles of all corpus texts together (what the source's `update` loop builds). */
  function CorpusShingles(h: Hasher, docs: seq<string>, k: nat): set<Digest>
  {
    UnionAll(ShingleSets(h, docs, k))
  }

  /** A digest is a corpus shingle exactly when some corpus text has it. */
  lemma {:induction false} CorpusShinglesMember(h: Hasher, docs: seq<string>, k: nat, d: Digest)
    ensures d in CorpusShingles(h, docs, k) <==> exists i :: 0 <= i < |docs| && d in Shingles(h, docs[i], k)
  {
    var ss := ShingleSets(h, docs, k);
    UnionAllMember(ss, d);
    if exists i :: 0 <= i < |docs| && d in Shingles(h, docs[i], k) {
      var i :| 0 <= i < |docs| && d in Shingles(h, docs[i], k);
      assert d in ss[i];
    }
  }

  /** The corpus shingles depend only on the set of corpus texts: not on order, not on repeats. */
  lemma {:induction false} CorpusShinglesBySet(h: Hasher, docs1: seq<string>, docs2: seq<string>, k: nat)
    requires forall t :: t in docs1 <==> t in docs2
    ensures CorpusShingles(h, docs1, k) == CorpusShingles(h, docs2, k)
  {
    forall d | d in CorpusShingles(h, docs1, k) ensures d in CorpusShingles(h, docs2, k) {
      CorpusShinglesIn(h, docs1, docs2, k, d);
    }
    forall d | d in CorpusShingles(h, docs2, k) ensures d in CorpusShingles(h, docs1, k) {
      CorpusShinglesIn(h, docs2, docs1, k, d);
    }
  }

  lemma {:induction false} CorpusShinglesIn(h: Hasher, docs1: seq<string>, docs2: seq<string>, k: nat, d: Digest)
    requires forall t :: t in docs1 <==> t in docs2
    requires d in CorpusShingles(h, docs1, k)
    ensures d in CorpusShingles(h, docs2, k)
  {
    var ss1, ss2 := ShingleSets(h, docs1, k), ShingleSets(h, docs2, k);
    UnionAllMember(ss1, d);
    var i :| 0 <= i < |ss1| && d in ss1[i];
    assert docs1[i] in docs2;
    var j :| 0 <= j < |docs2| && docs2[j] == docs1[i];
    assert ss2[j] == ss1[i];
    UnionAllMember(ss2, d);
  }

  /** `100 - similarity * 100 - 0.01` for a given pair of shingle sets. */
  function OriginalityOf(user: set<Digest>, corpus: set<Digest>): (r: real)
    ensures -0.01 <= r <= 99.99
    ensures user * corpus == {} ==> r == 99.99
  {
    CoefZero(user, corpus);
    100.0 - Coef(user, corpus) * 100.0 - 0.01
  }

  /** What `calculate_originality_large_texts(user, docs, k)` returns. */
  function Originality(h: Hasher, user: string, docs: seq<string>, k: nat): real
  {
    OriginalityOf(Shingles(h, user, k), CorpusShingles(h, docs, k))
  }

  /** `calculate_originality_large_texts`, with the source's accumulation loop. */
  method CalculateOriginalityLargeTexts(h: Hasher, user: string, docs: seq<string>, k: nat)
    returns (originality: real)
    ensures originality == Originality(h, user, docs, k)
    ensures -0.01 <= originality <= 99.99
  {
    var userShingles := Shingles(h, user, k);
    var all: set<Digest> := {};
    var i := 0;
    while i < |docs|
      invariant 0 <= i <= |docs|
      invariant all == CorpusShingles(h, docs[..i], k)
    {
      assert ShingleSets(h, docs[..i + 1], k)[..i] == ShingleSets(h, docs[..i], k);
      all := all + Shingles(h, docs[i], k);
      i := i + 1;
    }
    assert docs[..|docs|] == docs;
    var similarity := Coef(userShingles, all);
    originality := 100.0 - similarity * 100.0 - 0.01;
  }

  /** Similarity is stated in percent: originality is 100 - 100·J - 0.01 for the Jaccard index J. */
  lemma {:induction false} OriginalityMeaning(user: set<Digest>, corpus: set<Digest>)
    ensures user + corpus != {} ==>
      (99.99 - OriginalityOf(user, corpus)) * (|user + corpus| as real) == 100.0 * (|user * corpus| as real)
  {
    var j := Coef(user, corpus);
    var n := |user + corpus| as real;
    assert 99.99 - OriginalityOf(user, corpus) == j * 100.0;
    assert (j * 100.0) * n == 100.0 * (j * n);
  }

  /** An empty corpus, or a user text with fewer than k tokens, gives exactly 99.99. */
  lemma {:induction false} OriginalityNoOverlap(h: Hasher, user: string, docs: seq<string>, k: nat)
    requires docs == [] || |Split(user)| < k
    ensures Originality(h, user, docs, k) == 99.99
  {
    ShinglesCount(h, user, k);
  }

  /** Reordering the corpus or repeating texts in it does not change originality. */
  lemma {:induction false} OriginalityBySet(h: Hasher, user: string, docs1: seq<string>, docs2: seq<string>, k: nat)
    requires forall t :: t in docs1 <==> t in docs2
    ensures Originality(h, user, docs1, k) == Originality(h, user, docs2, k)
  {
    CorpusShinglesBySet(h, docs1, docs2, k);
  }

  lemma {:induction false} HashAllNonEmpty(h: Hasher, ws: seq<string>)
    requires ws != []
    ensures HashAll(h, ws) != {}
  {
    assert h(ws[0]) in HashAll(h, ws);
  }

  /** Comparing a text with a corpus of only itself gives -0.01 when it has at least k tokens. */
  lemma {:induction false} OriginalitySelf(h: Hasher, user: string, k: nat)
    requires |Split(user)| >= k
    ensures Originality(h, user, [user], k) == -0.01
  {
    var u := Shingles(h, user, k);
    HashAllNonEmpty(h, Windows(Split(user), k));
    CorpusOfOne(h, user, k);
    CoefOne(u, u);
  }

  lemma {:induction false} CorpusOfOne(h: Hasher, t: string, k: nat)
    ensures CorpusShingles(h, [t], k) == Shingles(h, t, k)
  {
    var ss := ShingleSets(h, [t], k);
    assert ss[..0] == [];
    assert UnionAll(ss) == UnionAll(ss[..0]) + ss[0];
  }
}
