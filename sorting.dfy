/**
  Python's `list.sort(key=…, reverse=True)`: a stable sort into descending key order.
  Stability with `reverse=True` keeps elements with equal keys in their original order;
  insertion that places each element after every element whose key is not smaller
  has exactly that behaviour.
*/
module Sorting {

  predicate SortedDesc<T>(xs: seq<T>, key: T -> real) {
    forall i, j :: 0 <= i < j < |xs| ==> key(xs[i]) >= key(xs[j])
  }

  /** Places `x` after every element whose key is at least `key(x)`. */
  function Insert<T>(x: T, xs: seq<T>, key: T -> real): (r: seq<T>)
    ensures multiset(r) == multiset(xs) + multiset{x}
    ensures |r| == |xs| + 1
  {
    if xs == [] then [x]
    else if key(xs[0]) >= key(x) then
      assert xs == [xs[0]] + xs[1..];
      [xs[0]] + Insert(x, xs[1..], key)
    else
      [x] + xs
  }

  lemma {:induction false} InsertSorted<T>(x: T, xs: seq<T>, key: T -> real)
    requires SortedDesc(xs, key)
    ensures SortedDesc(Insert(x, xs, key), key)
  {
    if xs != [] && key(xs[0]) >= key(x) {
      var tail := Insert(x, xs[1..], key);
      InsertSorted(x, xs[1..], key);
      forall j | 0 <= j < |tail| ensures key(xs[0]) >= key(tail[j]) {
        assert tail[j] in multiset(tail);
        assert tail[j] in multiset(xs[1..]) || tail[j] == x;
        if tail[j] != x {
          var k :| 0 <= k < |xs[1..]| && xs[1..][k] == tail[j];
          assert xs[k + 1] == tail[j];
        }
      }
      assert Insert(x, xs, key) == [xs[0]] + tail;
    }
  }

  /** The stable descending sort, inserting the elements from left to right. */
  function SortDesc<T>(xs: seq<T>, key: T -> real): (r: seq<T>)
    ensures SortedDesc(r, key)
    ensures multiset(r) == multiset(xs)
    ensures |r| == |xs|
  {
    if xs == [] then []
    else
      assert xs == xs[..|xs| - 1] + [xs[|xs| - 1]];
      InsertSorted(xs[|xs| - 1], SortDesc(xs[..|xs| - 1], key), key);
      Insert(xs[|xs| - 1], SortDesc(xs[..|xs| - 1], key), key)
  }

  /** Every element of the sorted list comes from the input and vice versa. */
  lemma {:induction false} SortDescMembers<T>(xs: seq<T>, key: T -> real, x: T)
    ensures x in SortDesc(xs, key) <==> x in xs
  {
    var r := SortDesc(xs, key);
    assert x in r <==> x in multiset(r);
    assert x in xs <==> x in multiset(xs);
  }

  /** The first `n` elements of a list (Python's `xs[:n]`). */
  function Take<T>(xs: seq<T>, n: nat): (r: seq<T>)
    ensures |r| == if |xs| <= n then |xs| else n
    ensures r == xs[..|r|]
  {
    if |xs| <= n then xs else xs[..n]
  }

  lemma {:induction false} TakeSorted<T>(xs: seq<T>, n: nat, key: T -> real)
    requires SortedDesc(xs, key)
    ensures SortedDesc(Take(xs, n), key)
  {
  }

  /**
    An element of a descending list is in its first `n` elements, or those `n`
    elements each have a key at least as large as its own.
  */
  lemma {:induction false} TakeSortedMember<T>(xs: seq<T>, n: nat, key: T -> real, x: T)
    requires SortedDesc(xs, key) && x in xs
    ensures x in Take(xs, n) || (|Take(xs, n)| == n && forall y :: y in Take(xs, n) ==> key(y) >= key(x))
  {
    var r := Take(xs, n);
    var j :| 0 <= j < |xs| && xs[j] == x;
    if j < |r| {
      assert r[j] == x;
    } else {
      forall y | y in r ensures key(y) >= key(x) {
        var i :| 0 <= i < |r| && r[i] == y;
        assert xs[i] == y;
      }
    }
  }

  /** The elements whose key is `c`, in order. */
  function WithKey<T>(xs: seq<T>, key: T -> real, c: real): seq<T> {
    if xs == [] then [] else (if key(xs[0]) == c then [xs[0]] else []) + WithKey(xs[1..], key, c)
  }

  lemma {:induction false} WithKeyAppend<T>(xs: seq<T>, ys: seq<T>, key: T -> real, c: real)
    ensures WithKey(xs + ys, key, c) == WithKey(xs, key, c) + WithKey(ys, key, c)
  {
    if xs != [] {
      assert (xs + ys)[1..] == xs[1..] + ys;
      WithKeyAppend(xs[1..], ys, key, c);
    } else {
      assert xs + ys == ys;
    }
  }

  lemma {:induction false} WithKeyBelow<T>(ys: seq<T>, key: T -> real, c: real)
    requires forall i :: 0 <= i < |ys| ==> key(ys[i]) < c
    ensures WithKey(ys, key, c) == []
  {
    if ys != [] {
      WithKeyBelow(ys[1..], key, c);
    }
  }

  /** Inserting `x` into a descending list puts it after every element with the same key. */
  lemma {:induction false} InsertWithKey<T>(x: T, ys: seq<T>, key: T -> real, c: real)
    requires SortedDesc(ys, key)
    ensures WithKey(Insert(x, ys, key), key, c) == WithKey(ys, key, c) + (if key(x) == c then [x] else [])
  {
    if ys == [] {
      assert Insert(x, ys, key) == [x];
    } else if key(ys[0]) >= key(x) {
      assert SortedDesc(ys[1..], key) by {
        forall i, j | 0 <= i < j < |ys[1..]| ensures key(ys[1..][i]) >= key(ys[1..][j]) {
          assert ys[1..][i] == ys[i + 1] && ys[1..][j] == ys[j + 1];
        }
      }
      InsertWithKey(x, ys[1..], key, c);
      WithKeyAppend([ys[0]], Insert(x, ys[1..], key), key, c);
      WithKeyAppend([ys[0]], ys[1..], key, c);
      assert [ys[0]] + ys[1..] == ys;
    } else {
      WithKeyAppend([x], ys, key, c);
      if key(x) == c {
        forall i | 0 <= i < |ys| ensures key(ys[i]) < c {
          assert key(ys[0]) >= key(ys[i]) || i == 0;
        }
        WithKeyBelow(ys, key, c);
      }
    }
  }

  /**
    The sort is stable: the elements with any one key come out in the order they
    went in.
  */
  lemma {:induction false} SortDescStable<T>(xs: seq<T>, key: T -> real, c: real)
    ensures WithKey(SortDesc(xs, key), key, c) == WithKey(xs, key, c)
  {
    if xs != [] {
      var init, last := xs[..|xs| - 1], xs[|xs| - 1];
      var sorted := SortDesc(init, key);
      assert SortDesc(xs, key) == Insert(last, sorted, key);
      SortDescStable(init, key, c);
      InsertWithKey(last, sorted, key, c);
      assert init + [last] == xs;
      WithKeyAppend(init, [last], key, c);
      assert WithKey([last], key, c) == if key(last) == c then [last] else [] by {
        assert [last][1..] == [];
      }
    }
  }
}
