/**
 * Duplicate detection for imported bank-statement transactions
 * (src/services/duplicateDetector.ts): descriptions are compared by a
 * Levenshtein similarity score, and a transaction is a duplicate of the
 * first existing item with the same date, type and amount (within 0.01)
 * whose description is at least 80% similar. The fetch of the existing
 * items is a parameter, as is the Unicode part of `normalizeString`
 * (`toLowerCase`, `normalize('NFD')` and removal of combining marks).
 */
module DuplicateDetector {
  import opened Wrappers
  import opened Strings
  import opened Numbers
  import opened PdfParser
  import Lists

  // ------------------------------------------------------------ normalizeString

  /** A character `/[^\w\s]/g` removes. */
  predicate IsPunctuation(c: char)
  {
    !IsWordChar(c) && !IsSpace(c)
  }

  /** `normalizeString(str)`, given the lower-casing and accent stripping as `fold`. */
  function NormalizeString(fold: string -> string, str: string): string
  {
    Trim(Remove(fold(str), IsPunctuation))
  }

  /** A normalised text has no punctuation left and no surrounding whitespace. */
  lemma NormalizeStringClean(fold: string -> string, str: string)
    ensures var r := NormalizeString(fold, str);
      (forall i :: 0 <= i < |r| ==> !IsPunctuation(r[i])) && Trim(r) == r
  {
    var kept := Remove(fold(str), IsPunctuation);
    RemoveSpec(fold(str), IsPunctuation);
    TrimIdempotent(kept);
    TrimSubsetOf(kept);
  }

  /** Every character of a trimmed string comes from the string. */
  lemma TrimSubsetOf(s: string)
    ensures forall i :: 0 <= i < |Trim(s)| ==> Trim(s)[i] in s
  {
    var t := TrimStart(s);
    TrimStartSpaces(s);
    TrimEndSpaces(t);
    assert forall x :: x in t ==> x in s;
    assert forall i :: 0 <= i < |TrimEnd(t)| ==> TrimEnd(t)[i] == t[i];
  }

  // ---------------------------------------------------------------- levenshtein

  /**
   * The value the source's matrix holds at row `i`, column `j`: the edit
   * distance between the first `j` characters of `a` (`str1`) and the first
   * `i` characters of `b` (`str2`), by the same recurrence.
   */
  function Lev(a: string, b: string, j: nat, i: nat): nat
    requires j <= |a| && i <= |b|
    decreases i + j
  {
    if i == 0 then j
    else if j == 0 then i
    else if b[i - 1] == a[j - 1] then Lev(a, b, j - 1, i - 1)
    else Min3(Lev(a, b, j - 1, i - 1) + 1, Lev(a, b, j - 1, i) + 1, Lev(a, b, j, i - 1) + 1)
  }

  function Min3(x: nat, y: nat, z: nat): (m: nat)
    ensures m <= x && m <= y && m <= z
  {
    if x <= y && x <= z then x else if y <= z then y else z
  }

  /** The minimum is one of the three. */
  lemma Min3IsOne(x: nat, y: nat, z: nat)
    ensures Min3(x, y, z) == x || Min3(x, y, z) == y || Min3(x, y, z) == z
  {
  }

  /** `levenshteinDistance(str1, str2)`, filling the matrix row by row. */
  method LevenshteinDistance(str1: string, str2: string) returns (d: nat)
    ensures d == Lev(str1, str2, |str1|, |str2|)
  {
    var matrix := new nat[|str2| + 1, |str1| + 1];
    for i := 0 to |str2| + 1
      invariant forall k :: 0 <= k < i ==> matrix[k, 0] == k
    {
      matrix[i, 0] := i;
    }
    for j := 0 to |str1| + 1
      invariant forall k :: 0 <= k <= |str2| ==> matrix[k, 0] == k
      invariant forall k :: 0 <= k < j ==> matrix[0, k] == k
    {
      matrix[0, j] := j;
    }
    for i := 1 to |str2| + 1
      invariant forall r, c {:trigger matrix[r, c]} :: 0 <= r < i && 0 <= c <= |str1| ==> matrix[r, c] == Lev(str1, str2, c, r)
      invariant forall r :: i <= r <= |str2| ==> matrix[r, 0] == r
    {
      FillRow(matrix, str1, str2, i);
    }
    d := matrix[|str2|, |str1|];
  }

  /** One row of the matrix, left to right, from the row above it and its first cell. */
  method FillRow(matrix: array2<nat>, str1: string, str2: string, i: nat)
    modifies matrix
    requires matrix.Length0 == |str2| + 1 && matrix.Length1 == |str1| + 1 && 0 < i <= |str2|
    requires matrix[i, 0] == i
    requires forall c {:trigger matrix[i - 1, c]} :: 0 <= c <= |str1| ==> matrix[i - 1, c] == Lev(str1, str2, c, i - 1)
    ensures forall c {:trigger matrix[i, c]} :: 0 <= c <= |str1| ==> matrix[i, c] == Lev(str1, str2, c, i)
    ensures forall r, c {:trigger matrix[r, c]} :: 0 <= r <= |str2| && 0 <= c <= |str1| && r != i ==> matrix[r, c] == old(matrix[r, c])
  {
    for j := 1 to |str1| + 1
      invariant forall c {:trigger matrix[i, c]} :: 0 <= c < j ==> matrix[i, c] == Lev(str1, str2, c, i)
      invariant forall r, c {:trigger matrix[r, c]} :: 0 <= r <= |str2| && 0 <= c <= |str1| && r != i ==> matrix[r, c] == old(matrix[r, c])
    {
      if str2[i - 1] == str1[j - 1] {
        matrix[i, j] := matrix[i - 1, j - 1];
      } else {
        matrix[i, j] := Min3(matrix[i - 1, j - 1] + 1, matrix[i, j - 1] + 1, matrix[i - 1, j] + 1);
      }
    }
  }

  /** A string is at distance 0 from itself. */
  lemma {:induction false} LevSelf(s: string, n: nat)
    requires n <= |s|
    ensures Lev(s, s, n, n) == 0
  {
    if n > 0 {
      LevSelf(s, n - 1);
    }
  }

  /** The distance lies between the difference of the lengths and the larger length. */
  lemma LevBounds(a: string, b: string, j: nat, i: nat)
    requires j <= |a| && i <= |b|
    ensures Lev(a, b, j, i) <= if i > j then i else j
    ensures Lev(a, b, j, i) >= if i > j then i - j else j - i
  {
    LevUpper(a, b, j, i);
    LevLower(a, b, j, i);
  }

  lemma {:induction false} LevUpper(a: string, b: string, j: nat, i: nat)
    requires j <= |a| && i <= |b|
    ensures Lev(a, b, j, i) <= if i > j then i else j
    decreases i + j
  {
    if i > 0 && j > 0 {
      LevUpper(a, b, j - 1, i - 1);
    }
  }

  lemma {:induction false} LevLower(a: string, b: string, j: nat, i: nat)
    requires j <= |a| && i <= |b|
    ensures Lev(a, b, j, i) + j >= i && Lev(a, b, j, i) + i >= j
    decreases i + j
  {
    if i > 0 && j > 0 {
      LevLower(a, b, j - 1, i - 1);
      if b[i - 1] != a[j - 1] {
        LevLower(a, b, j - 1, i);
        LevLower(a, b, j, i - 1);
        Min3IsOne(Lev(a, b, j - 1, i - 1) + 1, Lev(a, b, j - 1, i) + 1, Lev(a, b, j, i - 1) + 1);
      }
    }
  }

  /** Against the empty string the distance is the other string's length, either way round. */
  lemma LevEmpty(s: string)
    ensures Lev(s, "", |s|, 0) == |s| && Lev("", s, 0, |s|) == |s|
  {
  }

  // ------------------------------------------------------------- similarity

  /** How the score is computed once both strings are normalised. */
  function SimilarityOf(s1: string, s2: string): (r: nat)
    ensures s1 == s2 ==> r == 100
    ensures r <= 100
  {
    if s1 == s2 then 100
    else
      var longer := if |s1| > |s2| then s1 else s2;
      var shorter := if |s1| > |s2| then s2 else s1;
      if |longer| == 0 then 100
      else
        var d := Lev(longer, shorter, |longer|, |shorter|);
        LevBounds(longer, shorter, |longer|, |shorter|);
        Round100(|longer| - d, |longer|)
  }

  /** `Math.round(k / n * 100)` for `0 <= k <= n`, `n > 0`. */
  function Round100(k: nat, n: nat): (r: nat)
    requires 0 < n && k <= n
    ensures r <= 100
    ensures k == n ==> r == 100
    ensures k == 0 ==> r == 0
  {
    var r := RoundRatio(100 * k, n);
    RoundedPercent(k, n, r);
    r
  }

  lemma RoundedPercent(k: nat, n: nat, r: nat)
    requires 0 < n && k <= n && (2 * r - 1) * n <= 2 * (100 * k) < (2 * r + 1) * n
    ensures r <= 100
    ensures k == n ==> r == 100
    ensures k == 0 ==> r == 0
  {
    if r > 100 {
      MulMono(201, 2 * r - 1, n);
    }
    if k == n && r < 100 {
      MulMono(2 * r + 1, 199, n);
    }
    if k == 0 && r > 0 {
      MulMono(1, 2 * r - 1, n);
    }
  }

  lemma MulMono(x: int, y: int, n: nat)
    requires x <= y
    ensures x * n <= y * n
  {
  }

  /** `calculateStringSimilarity(str1, str2)`: a score from 0 to 100, 100 for equal normalised texts. */
  function CalculateStringSimilarity(fold: string -> string, str1: string, str2: string): (r: nat)
    ensures r <= 100
    ensures NormalizeString(fold, str1) == NormalizeString(fold, str2) ==> r == 100
  {
    SimilarityOf(NormalizeString(fold, str1), NormalizeString(fold, str2))
  }

  /** The score is the share of the longer string's length not spent on edits, rounded. */
  lemma SimilarityRounds(s1: string, s2: string)
    requires s1 != s2
    ensures var n := if |s1| > |s2| then |s1| else |s2|;
      var d := if |s1| > |s2| then Lev(s1, s2, |s1|, |s2|) else Lev(s2, s1, |s2|, |s1|);
      n > 0 && d <= n &&
      (2 * SimilarityOf(s1, s2) - 1) * n <= 200 * (n - d) < (2 * SimilarityOf(s1, s2) + 1) * n
  {
    var longer := if |s1| > |s2| then s1 else s2;
    var shorter := if |s1| > |s2| then s2 else s1;
    LevBounds(longer, shorter, |longer|, |shorter|);
  }

  // ------------------------------------------------------ checkForDuplicates

  /** A row of `financial_items` as fetched: id, date, amount, description, type. */
  datatype ExistingItem = ExistingItem(id: string, date: string, amount: real, description: string, kind: string)

  /** The outcome for one transaction; `existingItemId` is None when no duplicate was found. */
  datatype DuplicateCheckResult = DuplicateCheckResult(
    transaction: ParsedTransaction, isDuplicate: bool, existingItemId: Option<string>, similarity: int)

  /** The three exact criteria: same date, amounts within 0.01 in absolute value, same type. */
  predicate SameEntry(e: ExistingItem, t: ParsedTransaction)
  {
    e.date == t.date && Abs(Abs(e.amount) - Abs(t.amount)) <= 0.01 && e.kind == t.kind
  }

  /** A similarity score between two descriptions, from 0 to 100. */
  type Percent = x: int | 0 <= x <= 100

  type Score = (string, string) -> Percent

  /** The score the detector uses: `calculateStringSimilarity`, with `fold` as its accent folding. */
  function SimilarityScore(fold: string -> string): Score
  {
    (a, b) => CalculateStringSimilarity(fold, a, b)
  }

  /** The score of an existing item's description against the transaction's. */
  function Similarity(score: Score, e: ExistingItem, t: ParsedTransaction): Percent
  {
    score(e.description, t.description)
  }

  /** `e` is a duplicate candidate: same entry, description at least 80% similar. */
  predicate IsDuplicateOf(score: Score, e: ExistingItem, t: ParsedTransaction)
  {
    SameEntry(e, t) && Similarity(score, e, t) >= 80
  }

  /** Index of the first duplicate candidate, or `|items|` when there is none. */
  function FirstDuplicate(score: Score, items: seq<ExistingItem>, t: ParsedTransaction): (k: nat)
    ensures k <= |items|
    ensures k < |items| ==> IsDuplicateOf(score, items[k], t)
    ensures forall j :: 0 <= j < k ==> !IsDuplicateOf(score, items[j], t)
  {
    if items == [] then 0
    else if IsDuplicateOf(score, items[0], t) then 0
    else 1 + FirstDuplicate(score, items[1..], t)
  }

  /** The largest similarity among the items with the same entry, 0 when there is none. */
  function MaxSimilarity(score: Score, items: seq<ExistingItem>, t: ParsedTransaction): Percent
  {
    if items == [] then 0
    else
      var m := MaxSimilarity(score, items[..|items| - 1], t);
      var e := items[|items| - 1];
      if SameEntry(e, t) && Similarity(score, e, t) > m then Similarity(score, e, t) else m
  }

  /** It is the maximum: no item with the same entry scores more, and some such item scores it (unless 0). */
  lemma {:induction false} MaxSimilarityIsMax(score: Score, items: seq<ExistingItem>, t: ParsedTransaction)
    ensures forall j :: 0 <= j < |items| && SameEntry(items[j], t) ==> Similarity(score, items[j], t) <= MaxSimilarity(score, items, t)
    ensures MaxSimilarity(score, items, t) == 0 ||
      exists j :: 0 <= j < |items| && SameEntry(items[j], t) && Similarity(score, items[j], t) == MaxSimilarity(score, items, t)
  {
    if items != [] {
      var init := items[..|items| - 1];
      MaxSimilarityIsMax(score, init, t);
      assert forall j :: 0 <= j < |init| ==> items[j] == init[j];
    }
  }

  /**
   * Reference definition of one result: a duplicate of the first candidate,
   * with the largest similarity seen up to and including it; otherwise not a
   * duplicate, with the largest similarity over all items.
   */
  function CheckOne(score: Score, items: seq<ExistingItem>, t: ParsedTransaction): (r: DuplicateCheckResult)
    ensures r.transaction == t
  {
    var k := FirstDuplicate(score, items, t);
    if k < |items| then DuplicateCheckResult(t, true, Some(items[k].id), MaxSimilarity(score, items[..k + 1], t))
    else DuplicateCheckResult(t, false, None, MaxSimilarity(score, items, t))
  }

  lemma MaxSimilaritySnoc(score: Score, items: seq<ExistingItem>, t: ParsedTransaction, k: nat)
    requires k < |items|
    ensures MaxSimilarity(score, items[..k + 1], t) ==
      var m := MaxSimilarity(score, items[..k], t);
      if SameEntry(items[k], t) && Similarity(score, items[k], t) > m then Similarity(score, items[k], t) else m
  {
    assert items[..k + 1][..k] == items[..k];
  }

  /** The inner loop: scan the existing items until the first duplicate. */
  method CheckTransaction(score: Score, items: seq<ExistingItem>, t: ParsedTransaction)
    returns (result: DuplicateCheckResult)
    ensures result == CheckOne(score, items, t)
  {
    var isDuplicate := false;
    var existingItemId: Option<string> := None;
    var maxSimilarity := 0;
    var k := 0;
    while k < |items|
      invariant 0 <= k <= |items|
      invariant !isDuplicate && existingItemId == None
      invariant FirstDuplicate(score, items, t) >= k
      invariant maxSimilarity == MaxSimilarity(score, items[..k], t)
    {
      var e := items[k];
      MaxSimilaritySnoc(score, items, t, k);
      if !SameEntry(e, t) {
        assert !IsDuplicateOf(score, e, t);
        k := k + 1;
        continue;
      }
      var similarity := Similarity(score, e, t);
      if similarity > maxSimilarity {
        maxSimilarity := similarity;
      }
      if similarity >= 80 {
        assert IsDuplicateOf(score, e, t);
        assert FirstDuplicate(score, items, t) == k;
        isDuplicate := true;
        existingItemId := Some(e.id);
        break;
      }
      assert !IsDuplicateOf(score, e, t);
      k := k + 1;
    }
    if !isDuplicate {
      assert items[..k] == items;
    }
    result := DuplicateCheckResult(t, isDuplicate, existingItemId, maxSimilarity);
  }

  /** The result when the existing items cannot be fetched. */
  function Unchecked(t: ParsedTransaction): DuplicateCheckResult
  {
    DuplicateCheckResult(t, false, None, 0)
  }

  /**
   * `checkForDuplicates(transactions)`: one result per transaction, in
   * order; every one unchecked when the fetch fails (`fetched` is None).
   */
  method CheckForDuplicates(fold: string -> string, transactions: seq<ParsedTransaction>,
                            fetched: Option<seq<ExistingItem>>)
    returns (results: seq<DuplicateCheckResult>)
    ensures |results| == |transactions|
    ensures forall i :: 0 <= i < |results| ==> results[i].transaction == transactions[i]
    ensures fetched.None? ==> forall i :: 0 <= i < |results| ==> results[i] == Unchecked(transactions[i])
    ensures fetched.Some? ==> forall i :: 0 <= i < |results| ==> results[i] == CheckOne(SimilarityScore(fold), fetched.value, transactions[i])
  {
    results := [];
    if fetched.None? {
      for i := 0 to |transactions|
        invariant |results| == i
        invariant forall k :: 0 <= k < i ==> results[k] == Unchecked(transactions[k])
      {
        results := results + [Unchecked(transactions[i])];
      }
      return;
    }
    var items := fetched.value;
    var score := SimilarityScore(fold);
    for i := 0 to |transactions|
      invariant |results| == i
      invariant forall k :: 0 <= k < i ==> results[k] == CheckOne(score, items, transactions[k])
    {
      var r := CheckTransaction(score, items, transactions[i]);
      results := results + [r];
    }
  }

  /**
   * A duplicate points at an existing item with the same date and type, an
   * amount within 0.01 and a similarity of at least 80, and no earlier item
   * qualified; a non-duplicate has no such item at all.
   */
  lemma CheckOneSound(score: Score, items: seq<ExistingItem>, t: ParsedTransaction)
    ensures var r := CheckOne(score, items, t);
      (r.isDuplicate ==> exists k :: 0 <= k < |items| && IsDuplicateOf(score, items[k], t) &&
                                     r.existingItemId == Some(items[k].id) &&
                                     items[k].date == t.date && items[k].kind == t.kind &&
                                     Similarity(score, items[k], t) >= 80) &&
      (!r.isDuplicate ==> r.existingItemId.None? && forall k :: 0 <= k < |items| ==> !IsDuplicateOf(score, items[k], t))
  {
  }

  /** The reported similarity is at most 100, and at least 80 for a duplicate. */
  lemma CheckOneSimilarity(score: Score, items: seq<ExistingItem>, t: ParsedTransaction)
    ensures 0 <= CheckOne(score, items, t).similarity <= 100
    ensures CheckOne(score, items, t).isDuplicate ==> CheckOne(score, items, t).similarity >= 80
  {
    var k := FirstDuplicate(score, items, t);
    if k < |items| {
      MaxSimilaritySnoc(score, items, t, k);
    }
  }

  // ------------------------------------------------ filterNonDuplicates, stats

  /** The transaction each result is about, in order. */
  function TransactionsOf(results: seq<DuplicateCheckResult>): (r: seq<ParsedTransaction>)
    ensures |r| == |results| && forall i :: 0 <= i < |results| ==> r[i] == results[i].transaction
  {
    seq(|results|, i requires 0 <= i < |results| => results[i].transaction)
  }

  predicate NotDuplicate(result: DuplicateCheckResult)
  {
    !result.isDuplicate
  }

  /**
   * `filterNonDuplicates(results)`: the transactions of exactly the results
   * not marked duplicate, in their order.
   */
  function FilterNonDuplicates(results: seq<DuplicateCheckResult>): (r: seq<ParsedTransaction>)
    ensures |r| == |results| - DuplicateCount(results)
    ensures r == TransactionsOf(Lists.Filter(results, NotDuplicate))
  {
    if results == [] then []
    else
      var head := if results[0].isDuplicate then [] else [results[0]];
      var rest := FilterNonDuplicates(results[1..]);
      assert Lists.Filter(results, NotDuplicate) == head + Lists.Filter(results[1..], NotDuplicate);
      TransactionsOfConcat(head, Lists.Filter(results[1..], NotDuplicate));
      TransactionsOf(head) + rest
  }

  lemma TransactionsOfConcat(a: seq<DuplicateCheckResult>, b: seq<DuplicateCheckResult>)
    ensures TransactionsOf(a + b) == TransactionsOf(a) + TransactionsOf(b)
  {
  }

  /** A transaction is kept exactly when some result not marked duplicate is about it. */
  lemma FilterNonDuplicatesMembers(results: seq<DuplicateCheckResult>, t: ParsedTransaction)
    ensures t in FilterNonDuplicates(results) <==>
      exists i :: 0 <= i < |results| && !results[i].isDuplicate && results[i].transaction == t
  {
    var kept := Lists.Filter(results, NotDuplicate);
    var r := FilterNonDuplicates(results);
    assert r == TransactionsOf(kept);
    if t in r {
      var j :| 0 <= j < |r| && r[j] == t;
      KeptResult(results, kept, j);
    }
    if exists i :: 0 <= i < |results| && !results[i].isDuplicate && results[i].transaction == t {
      var i :| 0 <= i < |results| && !results[i].isDuplicate && results[i].transaction == t;
      Lists.FilterMembers(results, NotDuplicate, results[i]);
      var j :| 0 <= j < |kept| && kept[j] == results[i];
      assert r[j] == t;
    }
  }

  lemma KeptResult(results: seq<DuplicateCheckResult>, kept: seq<DuplicateCheckResult>, j: nat)
    requires kept == Lists.Filter(results, NotDuplicate) && j < |kept|
    ensures exists i :: 0 <= i < |results| && !results[i].isDuplicate && results[i].transaction == kept[j].transaction
  {
    assert kept[j] in results && NotDuplicate(kept[j]);
    var i :| 0 <= i < |results| && results[i] == kept[j];
  }

  /** `results.filter(r => r.isDuplicate).length`. */
  function DuplicateCount(results: seq<DuplicateCheckResult>): (n: nat)
    ensures n <= |results|
  {
    if results == [] then 0 else (if results[0].isDuplicate then 1 else 0) + DuplicateCount(results[1..])
  }

  /** With no duplicates every transaction is kept, in order. */
  lemma {:induction false} FilterKeepsAll(results: seq<DuplicateCheckResult>)
    requires forall i :: 0 <= i < |results| ==> !results[i].isDuplicate
    ensures FilterNonDuplicates(results) == seq(|results|, i requires 0 <= i < |results| => results[i].transaction)
  {
    if results != [] {
      FilterKeepsAll(results[1..]);
    }
  }

  /** A failed fetch lets every transaction through. */
  lemma UncheckedKeepsAll(results: seq<DuplicateCheckResult>, transactions: seq<ParsedTransaction>)
    requires |results| == |transactions|
    requires forall i :: 0 <= i < |results| ==> results[i] == Unchecked(transactions[i])
    ensures FilterNonDuplicates(results) == transactions
    ensures DuplicateCount(results) == 0
  {
    FilterKeepsAll(results);
  }

  datatype DuplicateStats = DuplicateStats(total: int, duplicates: int, unique: int, percentage: int)

  /** `getDuplicateStats(results)`. */
  function GetDuplicateStats(results: seq<DuplicateCheckResult>): (s: DuplicateStats)
    ensures s.total == |results| && s.unique == s.total - s.duplicates
    ensures s.unique == |FilterNonDuplicates(results)|
    ensures 0 <= s.percentage <= 100
    ensures s.total == 0 ==> s.percentage == 0
    ensures s.total > 0 && s.duplicates == s.total ==> s.percentage == 100
  {
    var total := |results|;
    var duplicates := DuplicateCount(results);
    DuplicateStats(total, duplicates, total - duplicates, if total > 0 then Round100(duplicates, total) else 0)
  }
}
