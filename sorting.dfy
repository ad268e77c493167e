/**
 * JavaScript's default string order (`a < b`, `Array.prototype.sort()`
 * without a comparator): lexicographic on characters, a proper prefix first.
 */
module Sorting {
  import Lists

  /** `a < b` on strings. */
  predicate Below(a: string, b: string)
  {
    if a == [] then b != []
    else if b == [] then false
    else if a[0] != b[0] then a[0] < b[0]
    else Below(a[1..], b[1..])
  }

  /** `a <= b` on strings. */
  predicate AtMost(a: string, b: string)
  {
    a == b || Below(a, b)
  }

  lemma {:induction false} BelowIrreflexive(a: string)
    ensures !Below(a, a)
  {
    if a != [] {
      BelowIrreflexive(a[1..]);
    }
  }

  lemma {:induction false} BelowTransitive(a: string, b: string, c: string)
    requires Below(a, b) && Below(b, c)
    ensures Below(a, c)
  {
    if a != [] && b != [] && c != [] && a[0] == b[0] && b[0] == c[0] {
      BelowTransitive(a[1..], b[1..], c[1..]);
    }
  }

  /** Two different strings are ordered one way or the other, never both. */
  lemma {:induction false} BelowTotal(a: string, b: string)
    ensures a != b ==> (Below(a, b) <==> !Below(b, a))
    ensures a == b ==> !Below(a, b)
  {
    if a == b {
      BelowIrreflexive(a);
    } else if a != [] && b != [] && a[0] == b[0] {
      BelowTotal(a[1..], b[1..]);
      assert a == [a[0]] + a[1..] && b == [b[0]] + b[1..];
    }
  }

  /** Every element is at most every later one. */
  ghost predicate Sorted(xs: seq<string>)
  {
    forall i, j :: 0 <= i < j < |xs| ==> AtMost(xs[i], xs[j])
  }

  /** `x` placed before the first element it is at most. */
  function Insert(x: string, xs: seq<string>): (r: seq<string>)
    ensures multiset(r) == multiset(xs) + multiset{x}
  {
    if xs == [] then [x]
    else if AtMost(x, xs[0]) then [x] + xs
    else
      assert xs == [xs[0]] + xs[1..];
      [xs[0]] + Insert(x, xs[1..])
  }

  /** `xs.sort()`. */
  function Sort(xs: seq<string>): (r: seq<string>)
    ensures multiset(r) == multiset(xs)
  {
    if xs == [] then []
    else
      assert xs == xs[..|xs| - 1] + [xs[|xs| - 1]];
      Insert(xs[|xs| - 1], Sort(xs[..|xs| - 1]))
  }

  lemma {:induction false} InsertSorted(x: string, xs: seq<string>)
    requires Sorted(xs)
    ensures Sorted(Insert(x, xs))
  {
    if xs != [] {
      if AtMost(x, xs[0]) {
        forall j | 1 <= j < |xs| + 1 ensures AtMost(x, ([x] + xs)[j]) {
          assert ([x] + xs)[j] == xs[j - 1];
          if x != xs[0] && xs[0] != xs[j - 1] {
            BelowTransitive(x, xs[0], xs[j - 1]);
          }
        }
      } else {
        var rest := Insert(x, xs[1..]);
        InsertSorted(x, xs[1..]);
        BelowTotal(x, xs[0]);
        forall j | 0 <= j < |rest| ensures AtMost(xs[0], rest[j]) {
          assert rest[j] in multiset(rest);
          if rest[j] != x {
            assert rest[j] in multiset(xs[1..]);
            var k :| 0 <= k < |xs[1..]| && xs[1..][k] == rest[j];
            assert xs[k + 1] == rest[j];
          }
        }
      }
    }
  }

  /** The sorted list is in order and has the same elements. */
  lemma {:induction false} SortSorted(xs: seq<string>)
    ensures Sorted(Sort(xs))
    ensures forall x :: x in Sort(xs) <==> x in xs
  {
    if xs != [] {
      SortSorted(xs[..|xs| - 1]);
      InsertSorted(xs[|xs| - 1], Sort(xs[..|xs| - 1]));
    }
    assert forall x :: x in Sort(xs) <==> x in multiset(xs);
  }

  /** Sorting a list without repeats gives a list without repeats. */
  lemma SortDistinct(xs: seq<string>)
    requires Lists.Distinct(xs)
    ensures Lists.Distinct(Sort(xs))
  {
    var r := Sort(xs);
    forall i, j | 0 <= i < j < |r| ensures r[i] != r[j] {
      if r[i] == r[j] {
        TwoOccurrences(r, i, j);
        DistinctOnce(xs, r[i]);
      }
    }
  }

  /** A value at two positions occurs at least twice. */
  lemma TwoOccurrences<T>(r: seq<T>, i: nat, j: nat)
    requires i < j < |r| && r[i] == r[j]
    ensures multiset(r)[r[i]] >= 2
  {
    assert r == r[..j] + r[j..];
    assert r[i] in r[..j];
    assert r[j..][0] == r[j];
  }

  /** A value occurs at most once in a list without repeats. */
  lemma {:induction false} DistinctOnce(xs: seq<string>, x: string)
    requires Lists.Distinct(xs)
    ensures multiset(xs)[x] <= 1
  {
    if xs != [] {
      var init := xs[..|xs| - 1];
      assert xs == init + [xs[|xs| - 1]];
      assert Lists.Distinct(init) by {
        forall i, j | 0 <= i < j < |init| ensures init[i] != init[j] {
          assert init[i] == xs[i] && init[j] == xs[j];
        }
      }
      DistinctOnce(init, x);
      if xs[|xs| - 1] == x {
        assert x !in init by {
          forall i | 0 <= i < |init| ensures init[i] != x {
            assert init[i] == xs[i];
          }
        }
      }
    }
  }

  // ------------------------------------------- by a string key, stable

  /** Every element's key is at most every later element's key. */
  ghost predicate SortedBy<T>(xs: seq<T>, key: T -> string)
  {
    forall i, j :: 0 <= i < j < |xs| ==> AtMost(key(xs[i]), key(xs[j]))
  }

  /** `x` placed before the first element whose key is above its own, so after every equal key. */
  function InsertBy<T>(x: T, xs: seq<T>, key: T -> string): (r: seq<T>)
    ensures multiset(r) == multiset(xs) + multiset{x}
    ensures |r| == |xs| + 1
  {
    if xs == [] then [x]
    else if Below(key(x), key(xs[0])) then [x] + xs
    else
      assert xs == [xs[0]] + xs[1..];
      [xs[0]] + InsertBy(x, xs[1..], key)
  }

  /**
   * `xs.sort((a, b) => key(a) < key(b) ? -1 : key(a) > key(b) ? 1 : 0)`:
   * a stable sort, so elements with equal keys keep their order.
   */
  function SortBy<T>(xs: seq<T>, key: T -> string): (r: seq<T>)
    ensures multiset(r) == multiset(xs)
    ensures |r| == |xs|
  {
    if xs == [] then []
    else
      assert xs == xs[..|xs| - 1] + [xs[|xs| - 1]];
      InsertBy(xs[|xs| - 1], SortBy(xs[..|xs| - 1], key), key)
  }

  lemma {:induction false} InsertBySorted<T>(x: T, xs: seq<T>, key: T -> string)
    requires SortedBy(xs, key)
    ensures SortedBy(InsertBy(x, xs, key), key)
  {
    if xs != [] {
      if Below(key(x), key(xs[0])) {
        forall j | 1 <= j < |xs| + 1 ensures AtMost(key(x), key(([x] + xs)[j])) {
          assert ([x] + xs)[j] == xs[j - 1];
          if key(xs[0]) != key(xs[j - 1]) {
            BelowTransitive(key(x), key(xs[0]), key(xs[j - 1]));
          }
        }
      } else {
        var rest := InsertBy(x, xs[1..], key);
        InsertBySorted(x, xs[1..], key);
        BelowTotal(key(x), key(xs[0]));
        forall j | 0 <= j < |rest| ensures AtMost(key(xs[0]), key(rest[j])) {
          assert rest[j] in multiset(rest);
          if rest[j] != x {
            assert rest[j] in multiset(xs[1..]);
            var k :| 0 <= k < |xs[1..]| && xs[1..][k] == rest[j];
            assert xs[k + 1] == rest[j];
          }
        }
      }
    }
  }

  /** The sorted list is ordered by key and is a permutation of the list. */
  lemma {:induction false} SortBySorted<T>(xs: seq<T>, key: T -> string)
    ensures SortedBy(SortBy(xs, key), key)
    ensures multiset(SortBy(xs, key)) == multiset(xs)
  {
    if xs != [] {
      SortBySorted(xs[..|xs| - 1], key);
      InsertBySorted(xs[|xs| - 1], SortBy(xs[..|xs| - 1], key), key);
    }
  }

  // ------------------------------------------- by a number, largest first

  /** Every element's key is at least every later one's. */
  ghost predicate SortedDesc<T>(xs: seq<T>, key: T -> real)
  {
    forall i, j :: 0 <= i < j < |xs| ==> key(xs[i]) >= key(xs[j])
  }

  /** `x` placed after every element whose key is at least its own. */
  function InsertDesc<T>(x: T, xs: seq<T>, key: T -> real): (r: seq<T>)
    ensures multiset(r) == multiset(xs) + multiset{x}
    ensures |r| == |xs| + 1
  {
    if xs == [] then [x]
    else if key(xs[0]) < key(x) then [x] + xs
    else
      assert xs == [xs[0]] + xs[1..];
      [xs[0]] + InsertDesc(x, xs[1..], key)
  }

  /**
   * `xs.sort((a, b) => key(b) - key(a))`: a stable sort, so elements with
   * equal keys keep their order, as every stable sort with this comparator
   * yields.
   */
  function SortDesc<T>(xs: seq<T>, key: T -> real): (r: seq<T>)
    ensures multiset(r) == multiset(xs)
    ensures |r| == |xs|
  {
    if xs == [] then []
    else
      assert xs == xs[..|xs| - 1] + [xs[|xs| - 1]];
      InsertDesc(xs[|xs| - 1], SortDesc(xs[..|xs| - 1], key), key)
  }

  lemma {:induction false} InsertDescSorted<T>(x: T, xs: seq<T>, key: T -> real)
    requires SortedDesc(xs, key)
    ensures SortedDesc(InsertDesc(x, xs, key), key)
  {
    if xs != [] && key(xs[0]) >= key(x) {
      var tail := xs[1..];
      var rest := InsertDesc(x, tail, key);
      InsertDescSorted(x, tail, key);
      assert forall i :: 0 <= i < |tail| ==> tail[i] == xs[i + 1];
      InsertDescBound(x, tail, key, key(xs[0]));
      assert InsertDesc(x, xs, key) == [xs[0]] + rest;
    }
  }

  /** A bound on every key, `x`'s included, bounds every key after the insertion. */
  lemma {:induction false} InsertDescBound<T>(x: T, xs: seq<T>, key: T -> real, b: real)
    requires key(x) <= b && forall i :: 0 <= i < |xs| ==> key(xs[i]) <= b
    ensures forall i :: 0 <= i < |InsertDesc(x, xs, key)| ==> key(InsertDesc(x, xs, key)[i]) <= b
  {
    if xs != [] && key(xs[0]) >= key(x) {
      var tail := xs[1..];
      assert forall i :: 0 <= i < |tail| ==> tail[i] == xs[i + 1];
      InsertDescBound(x, tail, key, b);
      assert InsertDesc(x, xs, key) == [xs[0]] + InsertDesc(x, tail, key);
    }
  }

  /** The sorted list is ordered by decreasing key and is a permutation of the list. */
  lemma {:induction false} SortDescSorted<T>(xs: seq<T>, key: T -> real)
    ensures SortedDesc(SortDesc(xs, key), key)
    ensures multiset(SortDesc(xs, key)) == multiset(xs)
  {
    if xs != [] {
      SortDescSorted(xs[..|xs| - 1], key);
      InsertDescSorted(xs[|xs| - 1], SortDesc(xs[..|xs| - 1], key), key);
    }
  }

  /** In a list sorted largest first, nothing after position `n` is above anything before it. */
  lemma SortedDescSplit<T>(xs: seq<T>, key: T -> real, n: nat)
    requires SortedDesc(xs, key) && n <= |xs|
    ensures forall x, y :: x in xs[n..] && y in xs[..n] ==> key(x) <= key(y)
  {
    forall x, y | x in xs[n..] && y in xs[..n] ensures key(x) <= key(y) {
      var j :| 0 <= j < |xs[n..]| && xs[n..][j] == x;
      var i :| 0 <= i < n && xs[..n][i] == y;
      assert xs[i] == y && xs[n + j] == x;
    }
  }

  /** The sum of the keys of the elements. */
  function SumBy<T>(xs: seq<T>, key: T -> real): real
  {
    if xs == [] then 0.0 else SumBy(xs[..|xs| - 1], key) + key(xs[|xs| - 1])
  }

  lemma {:induction false} SumByConcat<T>(a: seq<T>, b: seq<T>, key: T -> real)
    ensures SumBy(a + b, key) == SumBy(a, key) + SumBy(b, key)
  {
    if b == [] {
      assert a + b == a;
    } else {
      var n := |b| - 1;
      assert (a + b)[..|a + b| - 1] == a + b[..n];
      SumByConcat(a, b[..n], key);
    }
  }

  lemma {:induction false} InsertDescSum<T>(x: T, xs: seq<T>, key: T -> real)
    ensures SumBy(InsertDesc(x, xs, key), key) == SumBy(xs, key) + key(x)
  {
    if xs == [] {
      assert SumBy([x], key) == SumBy([x][..0], key) + key(x);
    } else {
      var head := [if key(xs[0]) < key(x) then x else xs[0]];
      var rest := if key(xs[0]) < key(x) then xs else InsertDesc(x, xs[1..], key);
      SumByConcat(head, rest, key);
      assert SumBy(head, key) == SumBy(head[..0], key) + key(head[0]);
      SumByConcat([xs[0]], xs[1..], key);
      assert SumBy([xs[0]], key) == SumBy([xs[0]][..0], key) + key(xs[0]);
      assert xs == [xs[0]] + xs[1..];
      if key(xs[0]) >= key(x) {
        InsertDescSum(x, xs[1..], key);
      }
    }
  }

  /** Sorting keeps the sum of the keys. */
  lemma {:induction false} SortDescSum<T>(xs: seq<T>, key: T -> real)
    ensures SumBy(SortDesc(xs, key), key) == SumBy(xs, key)
  {
    if xs != [] {
      SortDescSum(xs[..|xs| - 1], key);
      InsertDescSum(xs[|xs| - 1], SortDesc(xs[..|xs| - 1], key), key);
    }
  }
}
