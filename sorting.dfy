/** `List.sort` with a comparator on one integer key: a stable sort.
    SortBy is insertion sort, used here as the specification of the
    outcome: ordered by the key, a permutation of the input, and elements
    with equal keys kept in their original order. */
module Sorting {

  predicate SortedBy<T>(s: seq<T>, key: T -> int) {
    forall i, j :: 0 <= i < j < |s| ==> key(s[i]) <= key(s[j])
  }

  /** Inserts x after every element whose key is not greater than its own. */
  function InsertBy<T>(x: T, s: seq<T>, key: T -> int): seq<T>
  {
    if s == [] then [x]
    else if key(s[|s| - 1]) <= key(x) then s + [x]
    else InsertBy(x, s[..|s| - 1], key) + [s[|s| - 1]]
  }

  function SortBy<T>(s: seq<T>, key: T -> int): seq<T>
  {
    if s == [] then [] else InsertBy(s[|s| - 1], SortBy(s[..|s| - 1], key), key)
  }

  /** The elements of s whose key is k, in order. */
  function WithKey<T>(s: seq<T>, key: T -> int, k: int): seq<T>
  {
    if s == [] then []
    else WithKey(s[..|s| - 1], key, k) + (if key(s[|s| - 1]) == k then [s[|s| - 1]] else [])
  }

  /** The sum of f over s. */
  function SumOf<T>(s: seq<T>, f: T -> int): int
  {
    if s == [] then 0 else SumOf(s[..|s| - 1], f) + f(s[|s| - 1])
  }

  lemma {:induction false} InsertByMultiset<T>(x: T, s: seq<T>, key: T -> int)
    ensures multiset(InsertBy(x, s, key)) == multiset(s) + multiset{x}
    ensures |InsertBy(x, s, key)| == |s| + 1
    decreases |s|
  {
    if s != [] && key(s[|s| - 1]) > key(x) {
      InsertByMultiset(x, s[..|s| - 1], key);
      assert s == s[..|s| - 1] + [s[|s| - 1]];
    }
  }

  /** Inserting keeps every key under a common bound. */
  lemma {:induction false} InsertByBound<T>(x: T, s: seq<T>, key: T -> int, b: int)
    requires key(x) <= b && forall i :: 0 <= i < |s| ==> key(s[i]) <= b
    ensures forall i :: 0 <= i < |InsertBy(x, s, key)| ==> key(InsertBy(x, s, key)[i]) <= b
    decreases |s|
  {
    if s != [] && key(s[|s| - 1]) > key(x) {
      InsertByBound(x, s[..|s| - 1], key, b);
    }
  }

  lemma {:induction false} InsertBySorted<T>(x: T, s: seq<T>, key: T -> int)
    requires SortedBy(s, key)
    ensures SortedBy(InsertBy(x, s, key), key)
    decreases |s|
  {
    if s != [] && key(s[|s| - 1]) > key(x) {
      var init, last := s[..|s| - 1], s[|s| - 1];
      InsertBySorted(x, init, key);
      InsertByBound(x, init, key, key(last));
    }
  }

  lemma InsertByFacts<T>(x: T, s: seq<T>, key: T -> int)
    requires SortedBy(s, key)
    ensures SortedBy(InsertBy(x, s, key), key)
    ensures multiset(InsertBy(x, s, key)) == multiset(s) + multiset{x}
    ensures |InsertBy(x, s, key)| == |s| + 1
  {
    InsertByMultiset(x, s, key);
    InsertBySorted(x, s, key);
  }

  /** Sorting orders the list by the key and only rearranges it. */
  lemma {:induction false} SortByFacts<T>(s: seq<T>, key: T -> int)
    ensures SortedBy(SortBy(s, key), key)
    ensures multiset(SortBy(s, key)) == multiset(s)
    ensures |SortBy(s, key)| == |s|
  {
    if s != [] {
      SortByFacts(s[..|s| - 1], key);
      InsertByFacts(s[|s| - 1], SortBy(s[..|s| - 1], key), key);
      assert s == s[..|s| - 1] + [s[|s| - 1]];
    }
  }

  lemma {:induction false} WithKeyAppend<T>(s: seq<T>, t: seq<T>, key: T -> int, k: int)
    ensures WithKey(s + t, key, k) == WithKey(s, key, k) + WithKey(t, key, k)
    decreases |t|
  {
    if t == [] {
      assert s + t == s;
    } else {
      assert (s + t)[..|s + t| - 1] == s + t[..|t| - 1];
      WithKeyAppend(s, t[..|t| - 1], key, k);
    }
  }

  lemma {:induction false} WithKeyNone<T>(s: seq<T>, key: T -> int, k: int)
    requires forall i :: 0 <= i < |s| ==> key(s[i]) != k
    ensures WithKey(s, key, k) == []
    decreases |s|
  {
    if s != [] { WithKeyNone(s[..|s| - 1], key, k); }
  }

  lemma WithKeySnoc<T>(s: seq<T>, e: T, key: T -> int, k: int)
    ensures WithKey(s + [e], key, k) == WithKey(s, key, k) + (if key(e) == k then [e] else [])
  {
    assert (s + [e])[..|s + [e]| - 1] == s;
  }

  lemma {:induction false} InsertByStable<T>(x: T, s: seq<T>, key: T -> int, k: int)
    requires SortedBy(s, key)
    ensures WithKey(InsertBy(x, s, key), key, k) == WithKey(s + [x], key, k)
    decreases |s|
  {
    if s != [] && key(s[|s| - 1]) > key(x) {
      var init, last := s[..|s| - 1], s[|s| - 1];
      var r := InsertBy(x, init, key);
      assert InsertBy(x, s, key) == r + [last];
      assert s == init + [last];
      InsertByStable(x, init, key, k);
      WithKeySnoc(r, last, key, k);
      WithKeySnoc(init, x, key, k);
      WithKeySnoc(s, x, key, k);
      WithKeySnoc(init, last, key, k);
      var lx: seq<T> := if key(x) == k then [x] else [];
      var ll: seq<T> := if key(last) == k then [last] else [];
      assert lx == [] || ll == [];
      calc {
        WithKey(r + [last], key, k);
        WithKey(r, key, k) + ll;
        WithKey(init, key, k) + lx + ll;
        { if lx == [] { assert lx + ll == ll + lx; } else { assert ll == []; } }
        WithKey(init, key, k) + ll + lx;
        WithKey(s, key, k) + lx;
        WithKey(s + [x], key, k);
      }
    }
  }

  /** Stability: among elements with the same key the input order survives. */
  lemma {:induction false} SortByStable<T>(s: seq<T>, key: T -> int, k: int)
    ensures WithKey(SortBy(s, key), key, k) == WithKey(s, key, k)
  {
    if s != [] {
      var init := s[..|s| - 1];
      SortByStable(init, key, k);
      SortByFacts(init, key);
      InsertByStable(s[|s| - 1], SortBy(init, key), key, k);
      WithKeyAppend(SortBy(init, key), [s[|s| - 1]], key, k);
      assert s == init + [s[|s| - 1]];
    }
  }

  lemma {:induction false} InsertBySum<T>(x: T, s: seq<T>, key: T -> int, f: T -> int)
    ensures SumOf(InsertBy(x, s, key), f) == SumOf(s, f) + f(x)
    decreases |s|
  {
    if s != [] && key(s[|s| - 1]) > key(x) {
      InsertBySum(x, s[..|s| - 1], key, f);
      var r := InsertBy(x, s[..|s| - 1], key) + [s[|s| - 1]];
      assert r[..|r| - 1] == InsertBy(x, s[..|s| - 1], key);
    } else if s != [] {
      assert (s + [x])[..|s + [x]| - 1] == s;
    }
  }

  /** Sorting does not change a sum over the list. */
  lemma {:induction false} SortBySum<T>(s: seq<T>, key: T -> int, f: T -> int)
    ensures SumOf(SortBy(s, key), f) == SumOf(s, f)
  {
    if s != [] {
      SortBySum(s[..|s| - 1], key, f);
      InsertBySum(s[|s| - 1], SortBy(s[..|s| - 1], key), key, f);
    }
  }

  lemma {:induction false} SumOfAppend<T>(s: seq<T>, t: seq<T>, f: T -> int)
    ensures SumOf(s + t, f) == SumOf(s, f) + SumOf(t, f)
    decreases |t|
  {
    if t == [] {
      assert s + t == s;
    } else {
      assert (s + t)[..|s + t| - 1] == s + t[..|t| - 1];
      SumOfAppend(s, t[..|t| - 1], f);
    }
  }

  /** Replacing one element changes the sum by the difference. */
  lemma {:induction false} SumOfUpdate<T>(s: seq<T>, i: int, x: T, f: T -> int)
    requires 0 <= i < |s|
    ensures SumOf(s[i := x], f) == SumOf(s, f) - f(s[i]) + f(x)
    decreases |s|
  {
    if i < |s| - 1 {
      assert s[i := x][..|s| - 1] == s[..|s| - 1][i := x];
      SumOfUpdate(s[..|s| - 1], i, x, f);
    } else {
      assert s[i := x][..|s| - 1] == s[..|s| - 1];
    }
  }

  /** `list.stream().map(f)`, element by element. */
  function MapSeq<A, B>(f: A -> B, s: seq<A>): (r: seq<B>)
    ensures |r| == |s| && forall i :: 0 <= i < |s| ==> r[i] == f(s[i])
  {
    seq(|s|, i requires 0 <= i < |s| => f(s[i]))
  }
}
