/**
  String primitives of Python that the detector relies on: `str.isspace`, `str.lower`,
  `str.strip`, `re.sub(r'\s+', ' ', …)`, `str.split()` without arguments, `str.split(sep)`,
  `sep.join(parts)` and `os.path.basename`.  Strings are sequences of Unicode scalar values,
  which is what a Python `str` holds.
*/
module Text {
  import opened Wrappers

  /** Python's `str.isspace` (also what `\s` matches in a `str` pattern). */
  predicate IsSpace(c: char) {
    c in SpaceChars
  }

  const SpaceChars: set<char> :=
    {' ', '\t', '\n', '\U{B}', '\U{C}', '\r', '\U{1C}', '\U{1D}', '\U{1E}', '\U{1F}', '\U{85}', '\U{A0}',
     '\U{1680}', '\U{2000}', '\U{2001}', '\U{2002}', '\U{2003}', '\U{2004}', '\U{2005}', '\U{2006}',
     '\U{2007}', '\U{2008}', '\U{2009}', '\U{200A}', '\U{2028}', '\U{2029}', '\U{202F}', '\U{205F}',
     '\U{3000}'}

  predicate NoSpaces(s: string) {
    forall i :: 0 <= i < |s| ==> !IsSpace(s[i])
  }

  /** No two adjacent whitespace characters. */
  predicate NoDoubleSpace(s: string) {
    forall i :: 0 <= i < |s| - 1 ==> !(IsSpace(s[i]) && IsSpace(s[i + 1]))
  }

  /** Every whitespace character is the plain space ' '. */
  predicate OnlyPlainSpaces(s: string) {
    forall i :: 0 <= i < |s| ==> IsSpace(s[i]) ==> s[i] == ' '
  }

  predicate IsDigit(c: char) {
    '0' <= c <= '9'
  }

  predicate AllDigits(s: string) {
    forall i :: 0 <= i < |s| ==> IsDigit(s[i])
  }

  // ---------------------------------------------------------------- lower case

  /**
    `str.lower` on one character, for the Latin, Latin-1 and Cyrillic capitals
    (the texts handled are Russian and English); other characters are left alone.
  */
  function LowerChar(c: char): (r: char)
    ensures IsSpace(r) <==> IsSpace(c)
  {
    if 'A' <= c <= 'Z' || '\U{410}' <= c <= '\U{42F}' || ('\U{C0}' <= c <= '\U{DE}' && c != '\U{D7}') then
      (c as int + 32) as char
    else if '\U{400}' <= c <= '\U{40F}' then
      (c as int + 80) as char
    else
      c
  }

  predicate IsLower(s: string) {
    forall i :: 0 <= i < |s| ==> LowerChar(s[i]) == s[i]
  }

  function Lower(s: string): (r: string)
    ensures |r| == |s|
    ensures forall i :: 0 <= i < |s| ==> r[i] == LowerChar(s[i])
  {
    seq(|s|, i requires 0 <= i < |s| => LowerChar(s[i]))
  }

  lemma {:induction false} LowerIsLower(s: string)
    ensures IsLower(Lower(s))
  {
    forall i | 0 <= i < |s| ensures LowerChar(LowerChar(s[i])) == LowerChar(s[i]) {
    }
  }

  lemma {:induction false} LowerOfLower(s: string)
    requires IsLower(s)
    ensures Lower(s) == s
  {
  }

  // ---------------------------------------------------------------- strip

  /** Length of the run of whitespace at the start of `s`. */
  function LeadingSpaces(s: string): (n: nat)
    ensures n <= |s|
    ensures forall i :: 0 <= i < n ==> IsSpace(s[i])
    ensures n == |s| || !IsSpace(s[n])
  {
    if s != [] && IsSpace(s[0]) then 1 + LeadingSpaces(s[1..]) else 0
  }

  /** Length of the run of whitespace at the end of `s`. */
  function TrailingSpaces(s: string): (n: nat)
    ensures n <= |s|
    ensures forall i :: |s| - n <= i < |s| ==> IsSpace(s[i])
    ensures n == |s| || !IsSpace(s[|s| - n - 1])
  {
    if s != [] && IsSpace(s[|s| - 1]) then 1 + TrailingSpaces(s[..|s| - 1]) else 0
  }

  /** `str.strip()`: drops the whitespace at both ends and keeps the middle. */
  function Strip(s: string): (r: string)
    ensures r == [] || (!IsSpace(r[0]) && !IsSpace(r[|r| - 1]))
    ensures |r| <= |s|
  {
    var t := s[LeadingSpaces(s)..];
    t[..|t| - TrailingSpaces(t)]
  }

  /** The stripped string is a slice of the original. */
  lemma {:induction false} StripIsSlice(s: string)
    ensures exists i, j :: 0 <= i <= j <= |s| && Strip(s) == s[i..j]
  {
    var i := LeadingSpaces(s);
    var t := s[i..];
    var j := i + |t| - TrailingSpaces(t);
    assert Strip(s) == s[i..j];
  }

  lemma {:induction false} StripNoEdgeSpaces(s: string)
    requires s == [] || (!IsSpace(s[0]) && !IsSpace(s[|s| - 1]))
    ensures Strip(s) == s
  {
    assert LeadingSpaces(s) == 0;
    assert TrailingSpaces(s) == 0;
  }

  // ---------------------------------------------------------------- collapse

  /** `re.sub(r'\s+', ' ', s)`: every maximal run of whitespace becomes one ' '. */
  function Collapse(s: string): (r: string)
    ensures |s| > 0 ==> |r| > 0 && (IsSpace(r[0]) <==> IsSpace(s[0]))
    ensures NoDoubleSpace(r)
    ensures OnlyPlainSpaces(r)
    decreases |s|
  {
    if s == [] then []
    else if IsSpace(s[0]) then
      var rest := s[LeadingSpaces(s)..];
      [' '] + Collapse(rest)
    else
      [s[0]] + Collapse(s[1..])
  }

  lemma {:induction false} CollapseFixed(s: string)
    requires NoDoubleSpace(s) && OnlyPlainSpaces(s)
    ensures Collapse(s) == s
    decreases |s|
  {
    if s != [] {
      if IsSpace(s[0]) {
        assert |s| == 1 || !IsSpace(s[1]);
        assert LeadingSpaces(s) == 1;
        CollapseFixed(s[1..]);
        assert s == [' '] + s[1..];
      } else {
        CollapseFixed(s[1..]);
        assert s == [s[0]] + s[1..];
      }
    }
  }

  // ---------------------------------------------------------------- split on whitespace

  /** Length of the run of non-whitespace at the start of `s`. */
  function WordLength(s: string): (n: nat)
    ensures n <= |s|
    ensures forall i :: 0 <= i < n ==> !IsSpace(s[i])
    ensures n == |s| || IsSpace(s[n])
  {
    if s != [] && !IsSpace(s[0]) then 1 + WordLength(s[1..]) else 0
  }

  /** `str.split()` with no argument: the maximal runs of non-whitespace, in order. */
  function Split(s: string): (r: seq<string>)
    ensures forall i :: 0 <= i < |r| ==> |r[i]| > 0 && NoSpaces(r[i])
    decreases |s|
  {
    var t := s[LeadingSpaces(s)..];
    if t == [] then []
    else
      var n := WordLength(t);
      var rest := Split(t[n..]);
      assert NoSpaces(t[..n]);
      [t[..n]] + rest
  }

  /** A string with no whitespace in it is a single token (or none when empty). */
  lemma {:induction false} SplitWord(w: string)
    requires NoSpaces(w)
    ensures Split(w) == if w == [] then [] else [w]
  {
    if w != [] {
      SplitWordThen(w, []);
      assert w + [] == w;
    }
  }

  lemma {:induction false} WordLengthOfPrefixed(w: string, y: string)
    requires NoSpaces(w)
    requires y == [] || IsSpace(y[0])
    ensures WordLength(w + y) == |w|
    decreases |w|
  {
    if w != [] {
      assert (w + y)[0] == w[0];
      assert (w + y)[1..] == w[1..] + y;
      WordLengthOfPrefixed(w[1..], y);
    } else {
      assert w + y == y;
    }
  }

  /** Splitting a word followed by a whitespace-started rest. */
  lemma {:induction false} SplitWordThen(w: string, y: string)
    requires |w| > 0 && NoSpaces(w)
    requires y == [] || IsSpace(y[0])
    ensures Split(w + y) == [w] + Split(y)
  {
    var s := w + y;
    assert s[0] == w[0];
    assert LeadingSpaces(s) == 0;
    assert s[0..] == s;
    WordLengthOfPrefixed(w, y);
    assert s[..|w|] == w;
    assert s[|w|..] == y;
    SplitDropsLeadingSpaces(y);
  }

  /** Split ignores the whitespace it starts with. */
  lemma {:induction false} SplitDropsLeadingSpaces(s: string)
    ensures Split(s) == Split(s[LeadingSpaces(s)..])
  {
    var t := s[LeadingSpaces(s)..];
    assert LeadingSpaces(t) == 0;
    assert t[0..] == t;
  }

  /** Whitespace in front of a string does not change its tokens. */
  lemma {:induction false} SplitSpacesThen(sp: string, y: string)
    requires forall i :: 0 <= i < |sp| ==> IsSpace(sp[i])
    ensures Split(sp + y) == Split(y)
    decreases |sp|
  {
    if sp == [] {
      assert sp + y == y;
    } else {
      var rest := sp[1..];
      assert sp + y == [sp[0]] + (rest + y);
      assert forall i :: 0 <= i < |rest| ==> IsSpace(rest[i]);
      SplitSpaceThen(sp[0], rest + y);
      SplitSpacesThen(rest, y);
    }
  }

  /** One whitespace character in front of a string does not change its tokens. */
  lemma {:induction false} SplitSpaceThen(c: char, y: string)
    requires IsSpace(c)
    ensures Split([c] + y) == Split(y)
  {
    var s := [c] + y;
    assert s[1..] == y;
    assert LeadingSpaces(s) == 1 + LeadingSpaces(y);
    assert s[1 + LeadingSpaces(y)..] == y[LeadingSpaces(y)..];
  }

  /** The collapse of a string that starts with a word starts with that word. */
  lemma {:induction false} CollapseWordPrefix(s: string, n: nat)
    requires n <= |s| && NoSpaces(s[..n])
    ensures Collapse(s) == s[..n] + Collapse(s[n..])
    decreases n
  {
    if n == 0 {
      assert s[..n] == [] && s[n..] == s;
    } else {
      var t, w := s[1..], s[..n];
      assert w[0] == s[0];
      assert t[..n - 1] == w[1..];
      NoSpacesTail(w);
      CollapseWordPrefix(t, n - 1);
      assert t[n - 1..] == s[n..];
      CollapseWordStep(s);
      assert w == [s[0]] + w[1..];
    }
  }

  /** A word character in front is kept as it is. */
  lemma {:induction false} CollapseWordStep(s: string)
    requires s != [] && !IsSpace(s[0])
    ensures Collapse(s) == [s[0]] + Collapse(s[1..])
  { }

  /** Dropping the first character keeps a string free of whitespace. */
  lemma {:induction false} NoSpacesTail(w: string)
    requires w != [] && NoSpaces(w)
    ensures NoSpaces(w[1..])
  {
    forall i | 0 <= i < |w| - 1 ensures !IsSpace(w[1..][i]) {
      assert w[1..][i] == w[i + 1];
    }
  }

  /** Collapsing whitespace runs does not change the tokens. */
  lemma {:induction false} SplitCollapse(s: string)
    ensures Split(Collapse(s)) == Split(s)
    decreases |s|
  {
    if s == [] {
    } else if IsSpace(s[0]) {
      var k := LeadingSpaces(s);
      var rest := s[k..];
      assert Collapse(s) == [' '] + Collapse(rest);
      SplitSpacesThen([' '], Collapse(rest));
      SplitCollapse(rest);
      SplitDropsLeadingSpaces(s);
    } else {
      var n := WordLength(s);
      var w := s[..n];
      assert n > 0;
      assert NoSpaces(w);
      CollapseWordPrefix(s, n);
      var rest := s[n..];
      assert rest == [] || IsSpace(rest[0]);
      assert Collapse(rest) == [] || IsSpace(Collapse(rest)[0]);
      SplitWordThen(w, Collapse(rest));
      SplitWordThen(w, rest);
      assert s == w + rest;
      SplitCollapse(rest);
    }
  }

  /** A string made only of whitespace has no tokens. */
  lemma {:induction false} SplitAllSpaces(sp: string)
    requires forall i :: 0 <= i < |sp| ==> IsSpace(sp[i])
    ensures Split(sp) == []
  {
    SplitSpacesThen(sp, []);
    assert sp + [] == sp;
  }

  /** Whitespace at the end of a string does not change its tokens. */
  lemma {:induction false} SplitTrailingSpaces(s: string, sp: string)
    requires forall i :: 0 <= i < |sp| ==> IsSpace(sp[i])
    ensures Split(s + sp) == Split(s)
    decreases |s|, 1
  {
    var k := LeadingSpaces(s);
    if k == |s| {
      SplitAllSpaces(s);
      SplitAllSpaces(s + sp);
    } else {
      var pre := s[..k];
      var t := s[k..];
      assert s == pre + t;
      assert s + sp == pre + (t + sp);
      SplitSpacesThen(pre, t);
      SplitSpacesThen(pre, t + sp);
      assert t[0] == s[k];
      SplitWordTrailingSpaces(t, sp);
    }
  }

  /** The same, for a string that starts with a word. */
  lemma {:induction false} SplitWordTrailingSpaces(t: string, sp: string)
    requires forall i :: 0 <= i < |sp| ==> IsSpace(sp[i])
    requires t != [] && !IsSpace(t[0])
    ensures Split(t + sp) == Split(t)
    decreases |t|, 0
  {
    var n := WordLength(t);
    var w := t[..n];
    var rest := t[n..];
    assert t == w + rest;
    assert t + sp == w + (rest + sp);
    SplitWordThen(w, rest);
    SplitWordThen(w, rest + sp);
    SplitTrailingSpaces(rest, sp);
  }

  /** Stripping does not change the tokens. */
  lemma {:induction false} SplitStrip(s: string)
    ensures Split(Strip(s)) == Split(s)
  {
    SplitDropsLeadingSpaces(s);
    SplitStripEnd(s);
  }

  /** Split ignores the whitespace that `strip` removes at the end. */
  lemma {:induction false} SplitStripEnd(s: string)
    ensures Split(Strip(s)) == Split(s[LeadingSpaces(s)..])
  {
    var t := s[LeadingSpaces(s)..];
    var m := |t| - TrailingSpaces(t);
    var body, tail := t[..m], t[m..];
    assert Strip(s) == body;
    assert t == body + tail;
    TailSpaces(t, m);
    SplitTrailingSpaces(body, tail);
  }

  /** What follows the stripped part is whitespace. */
  lemma {:induction false} TailSpaces(t: string, m: nat)
    requires m == |t| - TrailingSpaces(t)
    ensures forall i :: 0 <= i < |t| - m ==> IsSpace(t[m..][i])
  {
    forall i | 0 <= i < |t| - m ensures IsSpace(t[m..][i]) {
      assert t[m..][i] == t[m + i];
    }
  }

  // ---------------------------------------------------------------- join and split on a separator

  /** `sep.join(parts)`. */
  function Join(parts: seq<string>, sep: string): string
  {
    if parts == [] then []
    else if |parts| == 1 then parts[0]
    else parts[0] + sep + Join(parts[1..], sep)
  }

  predicate OccursAt(s: string, sep: string, j: nat) {
    j + |sep| <= |s| && s[j..j + |sep|] == sep
  }

  /** The first occurrence of `sep` in `s` at or after position `k`. */
  function IndexFrom(s: string, sep: string, k: nat): (r: Option<nat>)
    requires |sep| > 0 && k <= |s|
    ensures r.Some? ==> k <= r.value && OccursAt(s, sep, r.value)
    ensures r.Some? ==> forall j :: k <= j < r.value ==> !OccursAt(s, sep, j)
    ensures r.None? ==> forall j :: k <= j ==> !OccursAt(s, sep, j)
    decreases |s| - k
  {
    if k + |sep| > |s| then None
    else if OccursAt(s, sep, k) then Some(k)
    else IndexFrom(s, sep, k + 1)
  }

  /** `s.split(sep)` for a non-empty separator: the pieces between non-overlapping occurrences. */
  function SplitOn(s: string, sep: string): (r: seq<string>)
    requires |sep| > 0
    ensures |r| >= 1
    decreases |s|
  {
    match IndexFrom(s, sep, 0)
    case None => [s]
    case Some(i) => [s[..i]] + SplitOn(s[i + |sep|..], sep)
  }

  /**
    Splitting on a one-character separator undoes joining with it, when no piece
    contains that character.
  */
  lemma {:induction false} SplitOnJoin(parts: seq<string>, c: char)
    requires |parts| >= 1 && forall k :: 0 <= k < |parts| ==> c !in parts[k]
    ensures SplitOn(Join(parts, [c]), [c]) == parts
  {
    var p := parts[0];
    assert c !in p;
    if |parts| == 1 {
      NoCharIndex(p, c);
    } else {
      var rest := Join(parts[1..], [c]);
      var s := p + [c] + rest;
      assert Join(parts, [c]) == s;
      CharIndex(p, c, rest);
      assert s[..|p|] == p;
      assert s[|p| + 1..] == rest;
      SplitOnJoin(parts[1..], c);
      assert parts == [p] + parts[1..];
    }
  }

  /** A string without the character has no occurrence of it. */
  lemma {:induction false} NoCharIndex(p: string, c: char)
    requires c !in p
    ensures IndexFrom(p, [c], 0) == None
  {
    forall j: nat | j + 1 <= |p| ensures !OccursAt(p, [c], j) {
      assert p[j..j + 1][0] == p[j];
    }
  }

  /** The first occurrence of the character is right after a piece without it. */
  lemma {:induction false} CharIndex(p: string, c: char, y: string)
    requires c !in p
    ensures IndexFrom(p + [c] + y, [c], 0) == Some(|p|)
  {
    var s := p + [c] + y;
    forall j: nat | j < |p| ensures !OccursAt(s, [c], j) {
      assert s[j..j + 1][0] == s[j] == p[j];
    }
    assert s[|p|..|p| + 1] == [c];
    assert OccursAt(s, [c], |p|);
  }

  /** Joining the pieces with the separator gives the string back. */
  lemma {:induction false} JoinSplitOn(s: string, sep: string)
    requires |sep| > 0
    ensures Join(SplitOn(s, sep), sep) == s
    decreases |s|
  {
    match IndexFrom(s, sep, 0)
    case None =>
    case Some(i) =>
      var rest := s[i + |sep|..];
      var tail := SplitOn(rest, sep);
      JoinSplitOn(rest, sep);
      var r := [s[..i]] + tail;
      assert SplitOn(s, sep) == r;
      assert r[1..] == tail;
      assert Join(r, sep) == s[..i] + sep + Join(tail, sep);
      assert OccursAt(s, sep, i);
      assert s == s[..i] + s[i..i + |sep|] + rest;
  }

  // ---------------------------------------------------------------- paths and numbers

  /** `os.path.basename` (POSIX): what follows the last '/'. */
  function BaseName(p: string): string
  {
    if p == [] then []
    else if p[|p| - 1] == '/' then []
    else BaseName(p[..|p| - 1]) + [p[|p| - 1]]
  }

  /** The base name is the longest suffix without a '/'. */
  lemma {:induction false} BaseNameShape(p: string)
    ensures var r := BaseName(p);
      '/' !in r && |r| <= |p| && r == p[|p| - |r|..] &&
      (|r| < |p| ==> p[|p| - |r| - 1] == '/')
  {
    BaseNameNoSlash(p);
    BaseNameSuffix(p);
  }

  /** The base name holds no '/'. */
  lemma {:induction false} BaseNameNoSlash(p: string)
    ensures '/' !in BaseName(p)
    decreases |p|
  {
    if p != [] && p[|p| - 1] != '/' {
      BaseNameNoSlash(p[..|p| - 1]);
    }
  }

  /** The base name is a suffix, and what precedes it is a '/'. */
  lemma {:induction false} BaseNameSuffix(p: string)
    ensures var r := BaseName(p);
      |r| <= |p| && r == p[|p| - |r|..] && (|r| < |p| ==> p[|p| - |r| - 1] == '/')
    decreases |p|
  {
    if p != [] && p[|p| - 1] != '/' {
      var init := p[..|p| - 1];
      BaseNameSuffix(init);
      var r0 := BaseName(init);
      assert p == init + [p[|p| - 1]];
      assert p[|p| - |r0| - 1..] == init[|init| - |r0|..] + [p[|p| - 1]];
      if |r0| < |init| {
        assert p[|p| - |r0| - 2] == init[|init| - |r0| - 1];
      }
    }
  }

  /** The value of a non-empty string of ASCII digits. */
  function DigitsValue(s: string): nat
    requires AllDigits(s)
  {
    if s == [] then 0 else 10 * DigitsValue(s[..|s| - 1]) + (s[|s| - 1] as int - '0' as int)
  }

  function DigitChar(d: nat): (c: char)
    requires d < 10
    ensures IsDigit(c) && c as int - '0' as int == d
  {
    ('0' as int + d) as char
  }

  /** The decimal numeral of `n` (what `str(n)` gives for a non-negative int). */
  function Decimal(n: nat): (r: string)
    ensures |r| > 0 && AllDigits(r)
    ensures DigitsValue(r) == n
  {
    if n < 10 then [DigitChar(n)]
    else
      var r := Decimal(n / 10) + [DigitChar(n % 10)];
      assert r[..|r| - 1] == Decimal(n / 10);
      r
  }
}
