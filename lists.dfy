/**
 * List operations shared by the import loops and the UI state: keeping the
 * first element of each key, and removing or toggling a value in a list.
 */
module Lists {
  import opened Wrappers

  // Small facts about prefixes, stated once so that loops need not prove them in their own context.

  lemma TakeNext<T>(xs: seq<T>, i: nat)
    requires i < |xs|
    ensures xs[..i + 1] == xs[..i] + [xs[i]]
  {
  }

  lemma InitOfSnoc<T>(xs: seq<T>, x: T)
    ensures (xs + [x])[..|xs|] == xs
  {
  }

  lemma TakeAll<T>(xs: seq<T>)
    ensures xs[..|xs|] == xs
  {
  }

  lemma ConcatAssoc<T>(a: seq<T>, b: seq<T>, c: seq<T>)
    ensures (a + b) + c == a + (b + c)
  {
  }

  /** The set of keys of the elements of `xs`. */
  function KeysOf<T, K(==)>(xs: seq<T>, key: T -> K): (r: set<K>)
    ensures forall i :: 0 <= i < |xs| ==> key(xs[i]) in r
    ensures forall k :: k in r ==> exists i :: 0 <= i < |xs| && key(xs[i]) == k
  {
    set i | 0 <= i < |xs| :: key(xs[i])
  }

  /** No element before index `i` has the key of `xs[i]`. */
  ghost predicate IsFirst<T, K>(xs: seq<T>, key: T -> K, i: nat)
    requires i < |xs|
  {
    forall j :: 0 <= j < i ==> key(xs[j]) != key(xs[i])
  }

  /** `y` occurs in `xs` at an index where its key occurs first. */
  ghost predicate FirstOf<T, K>(xs: seq<T>, key: T -> K, y: T)
  {
    exists i :: 0 <= i < |xs| && xs[i] == y && IsFirst(xs, key, i)
  }

  /** The elements of `xs` whose key no earlier element has, in their order. */
  function FirstByKey<T, K(==)>(xs: seq<T>, key: T -> K): (r: seq<T>)
    ensures |r| <= |xs|
  {
    if xs == [] then []
    else
      var init := xs[..|xs| - 1];
      var x := xs[|xs| - 1];
      if key(x) in KeysOf(init, key) then FirstByKey(init, key) else FirstByKey(init, key) + [x]
  }

  lemma KeysOfSnoc<T, K>(xs: seq<T>, key: T -> K)
    requires xs != []
    ensures KeysOf(xs, key) == KeysOf(xs[..|xs| - 1], key) + {key(xs[|xs| - 1])}
  {
    var init := xs[..|xs| - 1];
    forall k | k in KeysOf(xs, key) ensures k in KeysOf(init, key) + {key(xs[|xs| - 1])} {
      var i :| 0 <= i < |xs| && key(xs[i]) == k;
      if i < |xs| - 1 {
        assert key(init[i]) == k;
      }
    }
    forall k | k in KeysOf(init, key) ensures k in KeysOf(xs, key) {
      var i :| 0 <= i < |init| && key(init[i]) == k;
      assert key(xs[i]) == k;
    }
  }

  lemma KeysOfAppend<T, K>(xs: seq<T>, x: T, key: T -> K)
    ensures KeysOf(xs + [x], key) == KeysOf(xs, key) + {key(x)}
  {
    KeysOfSnoc(xs + [x], key);
    assert (xs + [x])[..|xs|] == xs;
  }

  /**
   * One step of a loop that keeps the first element of each key: with `seen`
   * the keys so far, a seen key leaves both unchanged and a new key is added
   * with its element.
   */
  lemma FirstByKeyStep<T, K>(xs: seq<T>, x: T, key: T -> K, seen: set<K>)
    requires seen == KeysOf(xs, key)
    ensures key(x) in seen ==> KeysOf(xs + [x], key) == seen && FirstByKey(xs + [x], key) == FirstByKey(xs, key)
    ensures key(x) !in seen ==>
      KeysOf(xs + [x], key) == seen + {key(x)} && FirstByKey(xs + [x], key) == FirstByKey(xs, key) + [x]
  {
    KeysOfAppend(xs, x, key);
    FirstByKeyAppend(xs, x, key);
    if key(x) in seen {
      assert seen + {key(x)} == seen;
    }
  }

  /** Appending an element keeps it exactly when its key is new. */
  lemma FirstByKeyAppend<T, K>(xs: seq<T>, x: T, key: T -> K)
    ensures FirstByKey(xs + [x], key) == if key(x) in KeysOf(xs, key) then FirstByKey(xs, key) else FirstByKey(xs, key) + [x]
  {
    assert (xs + [x])[..|xs|] == xs;
  }

  /** No element after index `i` has the key of `xs[i]`. */
  ghost predicate IsLast<T, K>(xs: seq<T>, key: T -> K, i: nat)
    requires i < |xs|
  {
    forall j :: i < j < |xs| ==> key(xs[j]) != key(xs[i])
  }

  /** The kept elements have pairwise distinct keys, and together the keys of the input. */
  lemma {:induction false} FirstByKeyDistinct<T, K>(xs: seq<T>, key: T -> K)
    ensures var r := FirstByKey(xs, key);
      (forall i, j :: 0 <= i < j < |r| ==> key(r[i]) != key(r[j])) &&
      KeysOf(r, key) == KeysOf(xs, key)
  {
    if xs != [] {
      var init := xs[..|xs| - 1];
      var x := xs[|xs| - 1];
      var ri := FirstByKey(init, key);
      var r := FirstByKey(xs, key);
      FirstByKeyDistinct(init, key);
      KeysOfSnoc(xs, key);
      if key(x) !in KeysOf(init, key) {
        assert r == ri + [x];
        KeysOfSnoc(r, key);
        assert r[..|r| - 1] == ri;
        forall i, j | 0 <= i < j < |r| ensures key(r[i]) != key(r[j]) {
          if j == |r| - 1 {
            assert r[i] == ri[i];
            assert key(ri[i]) in KeysOf(ri, key);
          } else {
            assert r[i] == ri[i] && r[j] == ri[j];
          }
        }
      }
    }
  }

  /** Elements with pairwise distinct keys have as many keys as elements. */
  lemma {:induction false} DistinctKeysCount<T, K>(r: seq<T>, key: T -> K)
    requires forall i, j :: 0 <= i < j < |r| ==> key(r[i]) != key(r[j])
    ensures |KeysOf(r, key)| == |r|
  {
    if r != [] {
      var init := r[..|r| - 1];
      DistinctKeysCount(init, key);
      KeysOfSnoc(r, key);
      assert key(r[|r| - 1]) !in KeysOf(init, key);
    }
  }

  /** One element is kept per distinct key of the input. */
  lemma FirstByKeyCount<T, K>(xs: seq<T>, key: T -> K)
    ensures |FirstByKey(xs, key)| == |KeysOf(xs, key)|
  {
    FirstByKeyDistinct(xs, key);
    DistinctKeysCount(FirstByKey(xs, key), key);
  }

  /** Every kept element is the first of its key in the input. */
  lemma {:induction false} FirstByKeySound<T, K>(xs: seq<T>, key: T -> K)
    ensures forall m :: 0 <= m < |FirstByKey(xs, key)| ==> FirstOf(xs, key, FirstByKey(xs, key)[m])
  {
    if xs != [] {
      var init := xs[..|xs| - 1];
      var x := xs[|xs| - 1];
      var ri := FirstByKey(init, key);
      var r := FirstByKey(xs, key);
      FirstByKeySound(init, key);
      forall m | 0 <= m < |r| ensures FirstOf(xs, key, r[m]) {
        if m < |ri| {
          assert r[m] == ri[m];
          assert FirstOf(init, key, ri[m]);
          var i :| 0 <= i < |init| && init[i] == ri[m] && IsFirst(init, key, i);
          assert xs[i] == r[m];
          assert IsFirst(xs, key, i) by {
            forall j | 0 <= j < i ensures key(xs[j]) != key(xs[i]) {
              assert xs[j] == init[j];
            }
          }
        } else {
          assert r == ri + [x] && r[m] == x;
          assert IsFirst(xs, key, |xs| - 1) by {
            forall j | 0 <= j < |xs| - 1 ensures key(xs[j]) != key(x) {
              assert key(init[j]) in KeysOf(init, key);
            }
          }
        }
      }
    }
  }

  /** The first element of every key is kept. */
  lemma {:induction false} FirstByKeyComplete<T, K>(xs: seq<T>, key: T -> K)
    ensures forall i :: 0 <= i < |xs| && IsFirst(xs, key, i) ==> xs[i] in FirstByKey(xs, key)
  {
    if xs != [] {
      var init := xs[..|xs| - 1];
      var x := xs[|xs| - 1];
      var r, ri := FirstByKey(xs, key), FirstByKey(init, key);
      FirstByKeyComplete(init, key);
      assert r == if key(x) in KeysOf(init, key) then ri else ri + [x];
      forall i | 0 <= i < |xs| && IsFirst(xs, key, i) ensures xs[i] in r {
        if i < |init| {
          FirstInPrefix(xs, key, i);
          assert init[i] in ri;
        } else {
          LastFirstIsNew(xs, key);
          assert r == ri + [x];
        }
      }
    }
  }

  /** A last element that is the first of its key brings a key the others lack. */
  lemma LastFirstIsNew<T, K>(xs: seq<T>, key: T -> K)
    requires xs != [] && IsFirst(xs, key, |xs| - 1)
    ensures key(xs[|xs| - 1]) !in KeysOf(xs[..|xs| - 1], key)
  {
    var init := xs[..|xs| - 1];
    forall j | 0 <= j < |init| ensures key(init[j]) != key(xs[|xs| - 1]) {
      assert init[j] == xs[j];
    }
  }

  /** The first of its key stays the first in a prefix that still holds it. */
  lemma FirstInPrefix<T, K>(xs: seq<T>, key: T -> K, i: nat)
    requires i < |xs| - 1 && IsFirst(xs, key, i)
    ensures IsFirst(xs[..|xs| - 1], key, i) && xs[..|xs| - 1][i] == xs[i]
  {
    var init := xs[..|xs| - 1];
    forall j | 0 <= j < i ensures key(init[j]) != key(init[i]) {
      assert init[j] == xs[j] && init[i] == xs[i];
    }
  }

  /** `list.filter(v => v !== x)`: every occurrence of `x` removed. */
  function Remove<T(==)>(xs: seq<T>, x: T): (r: seq<T>)
    ensures x !in r
    ensures forall i :: 0 <= i < |r| ==> r[i] in xs
    ensures forall i :: 0 <= i < |xs| && xs[i] != x ==> xs[i] in r
    ensures |r| <= |xs|
  {
    if xs == [] then []
    else if xs[0] == x then Remove(xs[1..], x)
    else [xs[0]] + Remove(xs[1..], x)
  }

  lemma {:induction false} RemoveAbsent<T>(xs: seq<T>, x: T)
    requires x !in xs
    ensures Remove(xs, x) == xs
  {
    if xs != [] {
      RemoveAbsent(xs[1..], x);
    }
  }

  lemma {:induction false} RemoveAppended<T>(xs: seq<T>, x: T)
    requires x !in xs
    ensures Remove(xs + [x], x) == xs
  {
    if xs == [] {
      assert [x][1..] == [];
    } else {
      assert (xs + [x])[1..] == xs[1..] + [x];
      RemoveAppended(xs[1..], x);
    }
  }

  /** Selecting a value that is not listed appends it; selecting a listed one removes it everywhere. */
  function Toggled<T(==)>(xs: seq<T>, x: T): (r: seq<T>)
    ensures x !in xs ==> r == xs + [x]
    ensures x in xs ==> r == Remove(xs, x)
  {
    if x in xs then Remove(xs, x) else xs + [x]
  }

  /** Toggling a value that is not listed twice gives the list back. */
  lemma ToggleTwice<T>(xs: seq<T>, x: T)
    requires x !in xs
    ensures Toggled(Toggled(xs, x), x) == xs
  {
    RemoveAppended(xs, x);
  }

  /** `list.map(v => v === x ? y : v)`: every occurrence of `x` replaced by `y`. */
  function ReplaceValue<T(==)>(xs: seq<T>, x: T, y: T): (r: seq<T>)
    ensures |r| == |xs|
    ensures forall i :: 0 <= i < |xs| ==> r[i] == (if xs[i] == x then y else xs[i])
  {
    seq(|xs|, i requires 0 <= i < |xs| => if xs[i] == x then y else xs[i])
  }

  /** The elements of `xs` that satisfy `p`, in order (`xs.filter(p)`). */
  function Filter<T>(xs: seq<T>, p: T -> bool): (r: seq<T>)
    ensures |r| <= |xs|
    ensures forall i :: 0 <= i < |r| ==> r[i] in xs && p(r[i])
  {
    if xs == [] then [] else (if p(xs[0]) then [xs[0]] else []) + Filter(xs[1..], p)
  }

  /** `s` is `xs` with some elements left out, the rest in order. */
  predicate IsSubsequence<T(==)>(s: seq<T>, xs: seq<T>)
  {
    s == [] || (xs != [] && (if s[0] == xs[0] then IsSubsequence(s[1..], xs[1..]) else IsSubsequence(s, xs[1..])))
  }

  lemma {:induction false} FilterSubsequence<T>(xs: seq<T>, p: T -> bool)
    ensures IsSubsequence(Filter(xs, p), xs)
  {
    if xs != [] {
      FilterSubsequence(xs[1..], p);
      var rest := Filter(xs[1..], p);
      if p(xs[0]) {
        assert Filter(xs, p) == [xs[0]] + rest;
        assert ([xs[0]] + rest)[1..] == rest;
      } else {
        assert Filter(xs, p) == rest;
        SubsequenceDropHead(rest, xs);
      }
    }
  }

  lemma {:induction false} SubsequenceDropHead<T>(s: seq<T>, xs: seq<T>)
    requires xs != [] && IsSubsequence(s, xs[1..])
    ensures IsSubsequence(s, xs)
    decreases |s| + |xs|
  {
    if s != [] && s[0] == xs[0] {
      SubsequenceTail(s, xs[1..]);
    }
  }

  lemma {:induction false} SubsequenceTail<T>(s: seq<T>, xs: seq<T>)
    requires s != [] && IsSubsequence(s, xs)
    ensures IsSubsequence(s[1..], xs)
    decreases |s| + |xs|
  {
    assert xs != [];
    if s[0] == xs[0] {
      SubsequenceDropHead(s[1..], xs);
    } else {
      SubsequenceTail(s, xs[1..]);
      SubsequenceDropHead(s[1..], xs);
    }
  }

  /** Two predicates that agree on the elements keep the same elements. */
  lemma {:induction false} FilterAgree<T>(xs: seq<T>, p: T -> bool, q: T -> bool)
    requires forall i :: 0 <= i < |xs| ==> p(xs[i]) == q(xs[i])
    ensures Filter(xs, p) == Filter(xs, q)
  {
    if xs != [] {
      assert forall i :: 0 <= i < |xs[1..]| ==> xs[1..][i] == xs[i + 1];
      FilterAgree(xs[1..], p, q);
    }
  }

  /** An element is kept exactly when it is in the list and meets the predicate. */
  lemma {:induction false} FilterMembers<T>(xs: seq<T>, p: T -> bool, x: T)
    ensures x in Filter(xs, p) <==> x in xs && p(x)
  {
    if xs != [] {
      FilterMembers(xs[1..], p, x);
      assert x in xs <==> x == xs[0] || x in xs[1..];
    }
  }

  /** Elements whose keys were pairwise different still have pairwise different keys once filtered. */
  lemma {:induction false} FilterKeyDistinct<T, K>(xs: seq<T>, p: T -> bool, key: T -> K)
    requires forall i, j :: 0 <= i < j < |xs| ==> key(xs[i]) != key(xs[j])
    ensures forall i, j :: 0 <= i < j < |Filter(xs, p)| ==> key(Filter(xs, p)[i]) != key(Filter(xs, p)[j])
  {
    if xs != [] {
      var tail := xs[1..];
      FilterKeyDistinct(tail, p, key);
      var rest := Filter(tail, p);
      forall k | 0 <= k < |rest| ensures key(rest[k]) != key(xs[0]) {
        assert rest[k] in tail;
        var m :| 0 <= m < |tail| && tail[m] == rest[k];
        assert tail[m] == xs[m + 1];
      }
      var r := Filter(xs, p);
      if p(xs[0]) {
        assert r == [xs[0]] + rest;
        forall i, j | 0 <= i < j < |r| ensures key(r[i]) != key(r[j]) {
          assert r[j] == rest[j - 1];
          if i > 0 {
            assert r[i] == rest[i - 1];
          }
        }
      } else {
        assert r == rest;
      }
    }
  }

  /** Filtering with a predicate every element meets keeps the whole list. */
  lemma {:induction false} FilterAll<T>(xs: seq<T>, p: T -> bool)
    requires forall i :: 0 <= i < |xs| ==> p(xs[i])
    ensures Filter(xs, p) == xs
  {
    if xs != [] {
      FilterAll(xs[1..], p);
    }
  }

  /** Filtering two lists one after the other is filtering their concatenation. */
  lemma {:induction false} FilterConcat<T>(a: seq<T>, b: seq<T>, p: T -> bool)
    ensures Filter(a + b, p) == Filter(a, p) + Filter(b, p)
  {
    if a != [] {
      var head := if p(a[0]) then [a[0]] else [];
      FilterConcat(a[1..], b, p);
      assert (a + b)[1..] == a[1..] + b;
      assert Filter(a + b, p) == head + (Filter(a[1..], p) + Filter(b, p));
      ConcatAssoc(head, Filter(a[1..], p), Filter(b, p));
    } else {
      assert a + b == b;
    }
  }

  function Sum(xs: seq<real>): real
  {
    if xs == [] then 0.0 else xs[0] + Sum(xs[1..])
  }

  lemma {:induction false} SumConcat(a: seq<real>, b: seq<real>)
    ensures Sum(a + b) == Sum(a) + Sum(b)
  {
    if a == [] {
      assert a + b == b;
    } else {
      assert (a + b)[1..] == a[1..] + b;
      SumConcat(a[1..], b);
    }
  }

  /**
   * The values of `rs` when every one is `Ok`, otherwise the first error:
   * what `xs.map(f)` gives or throws when `f` throws on some elements.
   */
  function Collect<T>(rs: seq<Result<T>>): (r: Result<seq<T>>)
    ensures r.Ok? ==> |r.value| == |rs|
  {
    if rs == [] then Ok([])
    else
      match rs[0]
      case Err(e) => Err(e)
      case Ok(v) =>
        match Collect(rs[1..])
        case Err(e) => Err(e)
        case Ok(vs) => Ok([v] + vs)
  }

  /** `Collect` succeeds exactly when every element does, keeps their order, and otherwise fails with the first error. */
  lemma {:induction false} CollectSpec<T>(rs: seq<Result<T>>)
    ensures Collect(rs).Ok? <==> forall i :: 0 <= i < |rs| ==> rs[i].Ok?
    ensures Collect(rs).Ok? ==> forall i :: 0 <= i < |rs| ==> Collect(rs).value[i] == rs[i].value
    ensures Collect(rs).Err? ==>
      exists k :: 0 <= k < |rs| && (forall i :: 0 <= i < k ==> rs[i].Ok?) && rs[k].Err? && rs[k].error == Collect(rs).error
  {
    if rs != [] {
      var tail := rs[1..];
      CollectSpec(tail);
      assert forall i :: 1 <= i < |rs| ==> rs[i] == tail[i - 1];
      if rs[0].Ok? && Collect(tail).Err? {
        var k :| 0 <= k < |tail| && (forall i :: 0 <= i < k ==> tail[i].Ok?) && tail[k].Err? && tail[k].error == Collect(tail).error;
        assert rs[k + 1] == tail[k];
      } else if rs[0].Err? {
        assert rs[0].error == Collect(rs).error;
      }
    }
  }

  /** The values of the `Ok` elements, in order: what a loop pushing the good rows collects. */
  function Oks<T>(rs: seq<Result<T>>): (r: seq<T>)
  {
    if rs == [] then []
    else
      var n := |rs| - 1;
      match rs[n]
      case Ok(v) => Oks(rs[..n]) + [v]
      case Err(_) => Oks(rs[..n])
  }

  /** The messages of the `Err` elements, in order: what a loop pushing the errors collects. */
  function Errs<T>(rs: seq<Result<T>>): (r: seq<string>)
  {
    if rs == [] then []
    else
      var n := |rs| - 1;
      match rs[n]
      case Ok(_) => Errs(rs[..n])
      case Err(e) => Errs(rs[..n]) + [e]
  }

  /** One more outcome adds its value or its error to its own side. */
  lemma OksErrsNext<T>(rs: seq<Result<T>>, i: nat)
    requires i < |rs|
    ensures Oks(rs[..i + 1]) == if rs[i].Ok? then Oks(rs[..i]) + [rs[i].value] else Oks(rs[..i])
    ensures Errs(rs[..i + 1]) == if rs[i].Err? then Errs(rs[..i]) + [rs[i].error] else Errs(rs[..i])
  {
    assert rs[..i + 1][..i] == rs[..i];
  }

  /** Every element lands on exactly one side. */
  lemma {:induction false} OksErrsCount<T>(rs: seq<Result<T>>)
    ensures |Oks(rs)| + |Errs(rs)| == |rs|
  {
    if rs != [] {
      OksErrsCount(rs[..|rs| - 1]);
    }
  }

  /** With no error every element is `Ok`, and `Oks` keeps them all in order. */
  lemma {:induction false} NoErrsAllOks<T>(rs: seq<Result<T>>)
    requires Errs(rs) == []
    ensures |Oks(rs)| == |rs|
    ensures forall i :: 0 <= i < |rs| ==> rs[i] == Ok(Oks(rs)[i])
  {
    if rs != [] {
      var n := |rs| - 1;
      var init := rs[..n];
      assert rs[n].Ok? && Errs(init) == [];
      NoErrsAllOks(init);
      assert forall i :: 0 <= i < n ==> rs[i] == init[i];
    }
  }

  // ------------------------------------------------------------ sets as lists

  /** No value occurs twice. */
  predicate Distinct<T(==)>(xs: seq<T>)
  {
    forall i, j :: 0 <= i < j < |xs| ==> xs[i] != xs[j]
  }

  /** `[...new Set(xs)]`: the first occurrence of each value, in order. */
  function Dedup<T(==)>(xs: seq<T>): seq<T>
  {
    if xs == [] then []
    else if xs[|xs| - 1] in xs[..|xs| - 1] then Dedup(xs[..|xs| - 1])
    else Dedup(xs[..|xs| - 1]) + [xs[|xs| - 1]]
  }

  /** The deduplicated list has no repeats and the same values. */
  lemma {:induction false} DedupSpec<T>(xs: seq<T>)
    ensures Distinct(Dedup(xs))
    ensures forall x :: x in Dedup(xs) <==> x in xs
  {
    if xs != [] {
      var init := xs[..|xs| - 1];
      DedupSpec(init);
      assert xs == init + [xs[|xs| - 1]];
    }
  }

  /** Adding a value to a set keeps its place when it is already there and goes last otherwise. */
  lemma DedupSnoc<T>(xs: seq<T>, x: T)
    ensures Dedup(xs + [x]) == if x in xs then Dedup(xs) else Dedup(xs) + [x]
  {
    assert (xs + [x])[..|xs|] == xs;
  }

  /** A list without repeats is its own deduplication. */
  lemma {:induction false} DedupDistinct<T>(xs: seq<T>)
    requires Distinct(xs)
    ensures Dedup(xs) == xs
  {
    if xs != [] {
      var init := xs[..|xs| - 1];
      DedupDistinct(init);
      assert xs[|xs| - 1] !in init by {
        forall i | 0 <= i < |init| ensures init[i] != xs[|xs| - 1] {
          assert init[i] == xs[i];
        }
      }
      assert xs == init + [xs[|xs| - 1]];
    }
  }

  /**
   * `[...new Set([...a, ...b])]` starts with `[...new Set(a)]`; what follows
   * are the values of `b` not in `a`.
   */
  lemma {:induction false} DedupAppend<T>(a: seq<T>, b: seq<T>)
    ensures Dedup(a) <= Dedup(a + b)
    ensures forall i :: |Dedup(a)| <= i < |Dedup(a + b)| ==> Dedup(a + b)[i] !in a && Dedup(a + b)[i] in b
  {
    if b == [] {
      assert a + b == a;
    } else {
      var n := |b| - 1;
      DedupAppend(a, b[..n]);
      assert (a + b)[..|a + b| - 1] == a + b[..n];
      DedupSpec(a + b[..n]);
    }
  }
}
