/**
 * The dashboard figures of src/hooks/useDashboardData.ts over the items of
 * the chosen period: totals, monthly averages, the largest expense
 * category and income source, the per-category and per-bank breakdowns,
 * the monthly buckets and the category trends between the last two months.
 *
 * The fetched items, the period's length in milliseconds (from the clock)
 * and the month key of a date (`format(new Date(date), 'yyyy-MM')`) are
 * parameters.
 */
module DashboardData {
  import opened Wrappers
  import opened Records
  import Sorting
  import Lists

  /** The fields of a `financial_items` row the dashboard reads; a missing text is "". */
  datatype Item = Item(kind: string, amount: real, category: string, source: string, bank: string, date: string)

  predicate IsReceita(item: Item) { item.kind == "receita" }
  predicate IsDespesa(item: Item) { item.kind == "despesa" }
  predicate Always(item: Item) { true }

  /** The sum of the amounts of the included items. */
  function SumIncluded(items: seq<Item>, counted: Item -> bool): real
  {
    if items == [] then 0.0
    else SumIncluded(items[..|items| - 1], counted) + (if counted(items[|items| - 1]) then items[|items| - 1].amount else 0.0)
  }

  /** The sum of the amounts of the included items with key `k`. */
  function SumWhere(items: seq<Item>, counted: Item -> bool, key: Item -> string, k: string): real
  {
    if items == [] then 0.0
    else
      var last := items[|items| - 1];
      SumWhere(items[..|items| - 1], counted, key, k) + (if counted(last) && key(last) == k then last.amount else 0.0)
  }

  // ------------------------------------------------------------ totals

  /** The period's headline figures. */
  datatype Overview = Overview(totalReceitas: real, totalDespesas: real, saldoPeriodo: real, monthsDiff: int, mediaMensal: real, economiaMedia: real)

  /** `Math.round`: the nearest integer, halves rounded up. */
  function Round(x: real): int
  {
    (x + 0.5).Floor
  }

  /** `Math.max(1, Math.round(elapsed / (1000 * 60 * 60 * 24 * 30)))`: whole 30-day months, at least one. */
  function MonthsDiff(elapsedMs: real): (r: int)
    ensures r >= 1
  {
    var months := Round(elapsedMs / 2592000000.0);
    if months > 1 then months else 1
  }

  /** From one month on, the count is the elapsed months rounded to the nearest whole; below that it is one. */
  lemma MonthsDiffRounds(elapsedMs: real)
    ensures var x := elapsedMs / 2592000000.0 + 0.5;
      x >= 1.0 ==> (MonthsDiff(elapsedMs) as real) <= x < (MonthsDiff(elapsedMs) as real) + 1.0
    ensures elapsedMs / 2592000000.0 + 0.5 < 2.0 ==> MonthsDiff(elapsedMs) == 1
  {
  }

  /**
   * The totals: 'receita' items are income, 'despesa' items expenses
   * (other types count in neither), the balance is their difference, the
   * number of months is the rounded elapsed time, never zero, and the
   * averages are the ones `OverviewOf` computes from them.
   */
  function GetOverview(items: seq<Item>, elapsedMs: real): (r: Overview)
    ensures r.saldoPeriodo == r.totalReceitas - r.totalDespesas
    ensures r.totalReceitas == SumIncluded(items, IsReceita) && r.totalDespesas == SumIncluded(items, IsDespesa)
    ensures r.monthsDiff == MonthsDiff(elapsedMs) && r.monthsDiff >= 1
    ensures r == OverviewOf(r.totalReceitas, r.totalDespesas, r.monthsDiff)
  {
    OverviewOf(SumIncluded(items, IsReceita), SumIncluded(items, IsDespesa), MonthsDiff(elapsedMs))
  }

  /**
   * The headline figures from the two totals and the number of months: the
   * balance, and the monthly income and savings, which times the months
   * give back the income and the balance.
   */
  function OverviewOf(totalReceitas: real, totalDespesas: real, monthsDiff: int): (r: Overview)
    requires monthsDiff >= 1
    ensures r.totalReceitas == totalReceitas && r.totalDespesas == totalDespesas && r.monthsDiff == monthsDiff
    ensures r.saldoPeriodo == totalReceitas - totalDespesas
    ensures r.mediaMensal * (r.monthsDiff as real) == r.totalReceitas
    ensures r.economiaMedia * (r.monthsDiff as real) == r.saldoPeriodo
  {
    var saldoPeriodo := totalReceitas - totalDespesas;
    Overview(totalReceitas, totalDespesas, saldoPeriodo, monthsDiff, PerMonth(totalReceitas, monthsDiff), PerMonth(saldoPeriodo, monthsDiff))
  }

  /** A total spread over a number of months: it gives the total back times the months. */
  function PerMonth(total: real, months: int): (a: real)
    requires months >= 1
    ensures a * (months as real) == total
  {
    total / (months as real)
  }

  // ------------------------------------------------------------ grouping

  /** `acc[key] = (acc[key] || 0) + Number(item.amount)` over the included items. */
  function GroupTotals(items: seq<Item>, counted: Item -> bool, key: Item -> string): Record
  {
    if items == [] then Empty
    else
      var last := items[|items| - 1];
      var acc := GroupTotals(items[..|items| - 1], counted, key);
      if counted(last) then Set(acc, key(last), Get(acc, key(last)) + last.amount) else acc
  }

  lemma {:induction false} GroupTotalsValid(items: seq<Item>, counted: Item -> bool, key: Item -> string)
    ensures Valid(GroupTotals(items, counted, key))
  {
    if items != [] {
      var last := items[|items| - 1];
      var acc := GroupTotals(items[..|items| - 1], counted, key);
      GroupTotalsValid(items[..|items| - 1], counted, key);
      if counted(last) {
        var v := Get(acc, key(last)) + last.amount;
        assert GroupTotals(items, counted, key) == Set(acc, key(last), v);
        SetValid(acc, key(last), v);
      } else {
        assert GroupTotals(items, counted, key) == acc;
      }
    }
  }

  /** A key is present iff some included item has it. */
  lemma {:induction false} GroupTotalsKeys(items: seq<Item>, counted: Item -> bool, key: Item -> string)
    ensures forall k :: k in GroupTotals(items, counted, key).values <==> exists i :: 0 <= i < |items| && counted(items[i]) && key(items[i]) == k
  {
    if items != [] {
      var n := |items| - 1;
      GroupTotalsKeys(items[..n], counted, key);
      assert forall i :: 0 <= i < n ==> items[..n][i] == items[i];
    }
  }

  /** Each key holds the sum of the amounts of the included items with that key. */
  lemma {:induction false} GroupTotalsValues(items: seq<Item>, counted: Item -> bool, key: Item -> string, k: string)
    ensures Get(GroupTotals(items, counted, key), k) == SumWhere(items, counted, key, k)
  {
    if items != [] {
      GroupTotalsValues(items[..|items| - 1], counted, key, k);
    }
  }

  /** The group totals add up to the sum of the included amounts. */
  lemma {:induction false} GroupTotalsTotal(items: seq<Item>, counted: Item -> bool, key: Item -> string)
    ensures Total(GroupTotals(items, counted, key)) == SumIncluded(items, counted)
  {
    if items != [] {
      var n := |items| - 1;
      var last := items[n];
      var acc := GroupTotals(items[..n], counted, key);
      GroupTotalsTotal(items[..n], counted, key);
      GroupTotalsValid(items[..n], counted, key);
      if counted(last) {
        SetTotal(acc, key(last), Get(acc, key(last)) + last.amount);
      }
    }
  }

  /** `item.category || 'Sem categoria'`. */
  function CategoryKey(item: Item): string
  {
    if item.category == "" then "Sem categoria" else item.category
  }

  /** `item.source || 'Sem fonte'`. */
  function SourceKey(item: Item): string
  {
    if item.source == "" then "Sem fonte" else item.source
  }

  /** `item.bank || 'Sem banco'`. */
  function BankKey(item: Item): string
  {
    if item.bank == "" then "Sem banco" else item.bank
  }

  /** `despesasPorCategoria`. */
  function DespesasPorCategoria(items: seq<Item>): Record
  {
    GroupTotals(items, IsDespesa, CategoryKey)
  }

  /** `receitasPorFonte`. */
  function ReceitasPorFonte(items: seq<Item>): Record
  {
    GroupTotals(items, IsReceita, SourceKey)
  }

  // ------------------------------------------------------------ largest entry

  /** A name and its amount. */
  datatype Entry = Entry(name: string, amount: real)

  /** The reduce over the entries: a strictly larger amount replaces the best so far. */
  function MaxOver(keys: seq<string>, values: map<string, real>, init: Entry): Entry
  {
    if keys == [] then init
    else
      var best := MaxOver(keys[..|keys| - 1], values, init);
      var k := keys[|keys| - 1];
      var amount := if k in values then values[k] else 0.0;
      if amount > best.amount then Entry(k, amount) else best
  }

  /** The amount of a key, zero when absent. */
  function Amount(values: map<string, real>, k: string): real
  {
    if k in values then values[k] else 0.0
  }

  /** The result is at least the start and every amount; when all amounts are at most the start, it is the start. */
  lemma {:induction false} MaxOverBound(keys: seq<string>, values: map<string, real>, init: Entry)
    ensures MaxOver(keys, values, init).amount >= init.amount
    ensures forall i :: 0 <= i < |keys| ==> Amount(values, keys[i]) <= MaxOver(keys, values, init).amount
    ensures (forall i :: 0 <= i < |keys| ==> Amount(values, keys[i]) <= init.amount) ==> MaxOver(keys, values, init) == init
  {
    if keys != [] {
      var n := |keys| - 1;
      MaxOverBound(keys[..n], values, init);
      assert forall i :: 0 <= i < n ==> keys[..n][i] == keys[i];
    }
  }

  /**
   * A result other than the start is the first key reaching the largest
   * amount: every earlier key has a strictly smaller amount.
   */
  lemma {:induction false} MaxOverFirst(keys: seq<string>, values: map<string, real>, init: Entry)
    ensures MaxOver(keys, values, init) != init ==>
      exists i :: 0 <= i < |keys| && keys[i] == MaxOver(keys, values, init).name &&
                  Amount(values, keys[i]) == MaxOver(keys, values, init).amount && MaxOver(keys, values, init).amount > init.amount &&
                  forall j :: 0 <= j < i ==> Amount(values, keys[j]) < MaxOver(keys, values, init).amount
  {
    if keys != [] {
      var n := |keys| - 1;
      var best := MaxOver(keys[..n], values, init);
      MaxOverFirst(keys[..n], values, init);
      MaxOverBound(keys[..n], values, init);
      var r := MaxOver(keys, values, init);
      if r != best {
        assert forall j :: 0 <= j < n ==> Amount(values, keys[..n][j]) <= best.amount && keys[..n][j] == keys[j];
        assert keys[n] == r.name;
      } else if r != init {
        var i :| 0 <= i < n && keys[..n][i] == best.name && Amount(values, keys[..n][i]) == best.amount && best.amount > init.amount &&
                 forall j :: 0 <= j < i ==> Amount(values, keys[..n][j]) < best.amount;
        assert keys[i] == keys[..n][i];
        assert forall j :: 0 <= j < i ==> keys[j] == keys[..n][j];
      }
    }
  }

  /** `maiorDespesa`/`maiorReceita`: null without entries, else the reduce from ('', 0). */
  function Largest(r: Record): Option<Entry>
  {
    if |r.keys| > 0 then Some(MaxOver(r.keys, r.values, Entry("", 0.0))) else None
  }

  /**
   * `maiorDespesa` is null iff there is no 'despesa' item; otherwise no
   * category total is larger than it.
   */
  lemma MaiorDespesaSpec(items: seq<Item>)
    ensures Largest(DespesasPorCategoria(items)).None? <==> forall i :: 0 <= i < |items| ==> !IsDespesa(items[i])
    ensures Largest(DespesasPorCategoria(items)).Some? ==>
      forall k :: k in DespesasPorCategoria(items).values ==>
        DespesasPorCategoria(items).values[k] <= Largest(DespesasPorCategoria(items)).value.amount
  {
    var r := DespesasPorCategoria(items);
    GroupTotalsValid(items, IsDespesa, CategoryKey);
    GroupTotalsKeys(items, IsDespesa, CategoryKey);
    MaxOverBound(r.keys, r.values, Entry("", 0.0));
    if |r.keys| == 0 {
      forall i | 0 <= i < |items| ensures !IsDespesa(items[i]) {
        assert Listed(r, CategoryKey(items[i]));
        assert CategoryKey(items[i]) !in r.values;
      }
    } else {
      assert Listed(r, r.keys[0]);
      assert r.keys[0] in r.values;
      forall k | k in r.values ensures r.values[k] <= Largest(r).value.amount {
        assert Listed(r, k);
        var i :| 0 <= i < |r.keys| && r.keys[i] == k;
      }
    }
  }

  // ------------------------------------------------------------ breakdowns

  /** One slice of a breakdown. */
  datatype Share = Share(name: string, value: real, percentage: Option<real>)

  /** `(value / total) * 100`; without a total JavaScript gives NaN or Infinity, here None. */
  function Percentage(value: real, total: real): Option<real>
  {
    if total == 0.0 then None else Some(value / total * 100.0)
  }

  /** The entries of the record as shares of `total`, in key order. */
  function SharesOf(keys: seq<string>, values: map<string, real>, total: real): (r: seq<Share>)
    ensures |r| == |keys|
    ensures forall i :: 0 <= i < |keys| ==> r[i].name == keys[i] && r[i].value == Amount(values, keys[i])
  {
    seq(|keys|, i requires 0 <= i < |keys| => Share(keys[i], Amount(values, keys[i]), Percentage(Amount(values, keys[i]), total)))
  }

  function ShareValue(s: Share): real { s.value }

  /** The shares add up to the record's total. */
  lemma {:induction false} SharesSum(keys: seq<string>, values: map<string, real>, total: real)
    ensures Sorting.SumBy(SharesOf(keys, values, total), ShareValue) == SumOver(keys, values)
  {
    if keys != [] {
      var n := |keys| - 1;
      SharesSum(keys[..n], values, total);
      assert SharesOf(keys, values, total)[..n] == SharesOf(keys[..n], values, total);
    }
  }

  /** The entries of a record, largest value first. */
  function Breakdown(r: Record, total: real): seq<Share>
  {
    Sorting.SortDesc(SharesOf(r.keys, r.values, total), ShareValue)
  }

  /** `categoryBreakdown`. */
  function CategoryBreakdown(items: seq<Item>): seq<Share>
  {
    Breakdown(DespesasPorCategoria(items), SumIncluded(items, IsDespesa))
  }

  /**
   * The category breakdown lists the categories by non-increasing value,
   * one share per category, and its values add up to the total of the
   * 'despesa' items.
   */
  lemma CategoryBreakdownSpec(items: seq<Item>)
    ensures Sorting.SortedDesc(CategoryBreakdown(items), ShareValue)
    ensures |CategoryBreakdown(items)| == |DespesasPorCategoria(items).keys|
    ensures Sorting.SumBy(CategoryBreakdown(items), ShareValue) == SumIncluded(items, IsDespesa)
  {
    var r := DespesasPorCategoria(items);
    var shares := SharesOf(r.keys, r.values, SumIncluded(items, IsDespesa));
    Sorting.SortDescSorted(shares, ShareValue);
    Sorting.SortDescSum(shares, ShareValue);
    SharesSum(r.keys, r.values, SumIncluded(items, IsDespesa));
    GroupTotalsTotal(items, IsDespesa, CategoryKey);
  }

  /** `bankData`: the amounts of every item, by bank. */
  function BankData(items: seq<Item>): Record
  {
    GroupTotals(items, Always, BankKey)
  }

  /** `bankDistribution`. */
  function BankDistribution(items: seq<Item>): seq<Share>
  {
    Breakdown(BankData(items), Total(BankData(items)))
  }

  /** The bank distribution is by non-increasing value and its values add up to the sum of every amount. */
  lemma BankDistributionSpec(items: seq<Item>)
    ensures Sorting.SortedDesc(BankDistribution(items), ShareValue)
    ensures Sorting.SumBy(BankDistribution(items), ShareValue) == SumIncluded(items, Always)
  {
    var r := BankData(items);
    var shares := SharesOf(r.keys, r.values, Total(r));
    Sorting.SortDescSorted(shares, ShareValue);
    Sorting.SortDescSum(shares, ShareValue);
    SharesSum(r.keys, r.values, Total(r));
    GroupTotalsTotal(items, Always, BankKey);
  }

  // ------------------------------------------------------------ monthly buckets

  /** One month's bucket. */
  datatype MonthTotals = MonthTotals(receitas: real, despesas: real)

  /** The months in first-seen order and their buckets. */
  datatype Buckets = Buckets(months: seq<string>, totals: map<string, MonthTotals>)

  /** `monthlyData`: an item's amount goes to income when it is a 'receita' and to expenses otherwise. */
  function MonthlyData(items: seq<Item>, monthOf: string -> string): Buckets
  {
    if items == [] then Buckets([], map[])
    else
      var last := items[|items| - 1];
      var acc := MonthlyData(items[..|items| - 1], monthOf);
      var m := monthOf(last.date);
      var bucket := if m in acc.totals then acc.totals[m] else MonthTotals(0.0, 0.0);
      var months := if m in acc.totals then acc.months else acc.months + [m];
      var updated := if IsReceita(last) then MonthTotals(bucket.receitas + last.amount, bucket.despesas)
                     else MonthTotals(bucket.receitas, bucket.despesas + last.amount);
      Buckets(months, acc.totals[m := updated])
  }

  predicate NotReceita(item: Item) { !IsReceita(item) }

  /** The month key of an item. */
  function MonthKey(monthOf: string -> string): Item -> string
  {
    (item: Item) => monthOf(item.date)
  }

  /**
   * A month has a bucket iff some item falls in it; its income is the sum
   * of its 'receita' items and its expenses the sum of all its other items.
   */
  lemma MonthlyDataSpec(items: seq<Item>, monthOf: string -> string, m: string)
    ensures m in MonthlyData(items, monthOf).totals <==> exists i :: 0 <= i < |items| && monthOf(items[i].date) == m
    ensures m in MonthlyData(items, monthOf).totals ==>
      MonthlyData(items, monthOf).totals[m].receitas == SumWhere(items, IsReceita, MonthKey(monthOf), m) &&
      MonthlyData(items, monthOf).totals[m].despesas == SumWhere(items, NotReceita, MonthKey(monthOf), m)
    ensures m !in MonthlyData(items, monthOf).totals ==>
      SumWhere(items, IsReceita, MonthKey(monthOf), m) == 0.0 && SumWhere(items, NotReceita, MonthKey(monthOf), m) == 0.0
  {
    MonthlyKeys(items, monthOf, m);
    MonthlySums(items, monthOf, m);
  }

  lemma {:induction false} MonthlyKeys(items: seq<Item>, monthOf: string -> string, m: string)
    ensures m in MonthlyData(items, monthOf).totals <==> exists i :: 0 <= i < |items| && monthOf(items[i].date) == m
  {
    if items != [] {
      var n := |items| - 1;
      var acc := MonthlyData(items[..n], monthOf);
      MonthlyKeys(items[..n], monthOf, m);
      assert MonthlyData(items, monthOf).totals.Keys == acc.totals.Keys + {monthOf(items[n].date)};
      assert forall i :: 0 <= i < n ==> items[..n][i] == items[i];
    }
  }

  lemma {:induction false} MonthlySums(items: seq<Item>, monthOf: string -> string, m: string)
    ensures m in MonthlyData(items, monthOf).totals ==>
      MonthlyData(items, monthOf).totals[m].receitas == SumWhere(items, IsReceita, MonthKey(monthOf), m) &&
      MonthlyData(items, monthOf).totals[m].despesas == SumWhere(items, NotReceita, MonthKey(monthOf), m)
    ensures m !in MonthlyData(items, monthOf).totals ==>
      SumWhere(items, IsReceita, MonthKey(monthOf), m) == 0.0 && SumWhere(items, NotReceita, MonthKey(monthOf), m) == 0.0
  {
    if items != [] {
      var n := |items| - 1;
      var last := items[n];
      MonthlySums(items[..n], monthOf, m);
      assert MonthKey(monthOf)(last) == monthOf(last.date);
      assert SumWhere(items, IsReceita, MonthKey(monthOf), m) ==
        SumWhere(items[..n], IsReceita, MonthKey(monthOf), m) + (if IsReceita(last) && monthOf(last.date) == m then last.amount else 0.0);
      assert SumWhere(items, NotReceita, MonthKey(monthOf), m) ==
        SumWhere(items[..n], NotReceita, MonthKey(monthOf), m) + (if NotReceita(last) && monthOf(last.date) == m then last.amount else 0.0);
    }
  }

  // ------------------------------------------------------------ category trends

  datatype Trend = Up | Down | Stable

  /** One category's comparison between the previous and the current month. */
  datatype CategoryTrend = CategoryTrend(category: string, currentMonth: real, previousMonth: real, trend: Trend, percentage: real)

  /**
   * The change in percent of the previous month (zero without a positive
   * previous amount); a change beyond 5% either way is a trend, by the
   * sign of the difference.
   */
  function TrendOf(category: string, currentAmount: real, previousAmount: real): (r: CategoryTrend)
    ensures r.category == category && r.currentMonth == currentAmount && r.previousMonth == previousAmount
    ensures previousAmount <= 0.0 ==> r.trend == Stable && r.percentage == 0.0
    ensures previousAmount > 0.0 ==> r.percentage * previousAmount == (currentAmount - previousAmount) * 100.0
    ensures previousAmount > 0.0 ==> (r.trend == Up <==> currentAmount - previousAmount > previousAmount * 0.05)
    ensures previousAmount > 0.0 ==> (r.trend == Down <==> currentAmount - previousAmount < -(previousAmount * 0.05))
  {
    var diff := currentAmount - previousAmount;
    var percentage := if previousAmount > 0.0 then (diff / previousAmount) * 100.0 else 0.0;
    var trend := if (if percentage < 0.0 then -percentage else percentage) > 5.0 then (if diff > 0.0 then Up else Down) else Stable;
    if previousAmount > 0.0 then
      PercentCompare(diff, previousAmount);
      assert (diff / previousAmount) * previousAmount == diff;
      assert percentage * previousAmount == ((diff / previousAmount) * previousAmount) * 100.0;
      CategoryTrend(category, currentAmount, previousAmount, trend, percentage)
    else
      CategoryTrend(category, currentAmount, previousAmount, trend, percentage)
  }

  /** Over a positive base, a change beyond 5% of the base is a change beyond a twentieth of it. */
  lemma PercentCompare(diff: real, base: real)
    requires base > 0.0
    ensures (diff / base) * 100.0 > 5.0 <==> diff > base * 0.05
    ensures (diff / base) * 100.0 < -5.0 <==> diff < -(base * 0.05)
    ensures (diff / base) * 100.0 > 5.0 ==> diff > 0.0
    ensures (diff / base) * 100.0 < -5.0 ==> diff < 0.0
  {
    var q := diff / base;
    assert q * base == diff;
    SignOfProduct(q - 0.05, base);
    SignOfProduct(q + 0.05, base);
    assert (q - 0.05) * base == diff - base * 0.05;
    assert (q + 0.05) * base == diff + base * 0.05;
  }

  /** A product with a positive factor has the other factor's sign. */
  lemma SignOfProduct(a: real, b: real)
    requires b > 0.0
    ensures a > 0.0 <==> a * b > 0.0
    ensures a < 0.0 <==> a * b < 0.0
  {
  }

  /** The 'despesa' items dated in `month`. */
  function DespesaIn(month: string, monthOf: string -> string): Item -> bool
  {
    (item: Item) => item.kind == "despesa" && monthOf(item.date) == month
  }

  /** `getCategoryAmountForMonth`. */
  function CategoryAmountForMonth(items: seq<Item>, month: string, monthOf: string -> string): Record
  {
    GroupTotals(items, DespesaIn(month, monthOf), CategoryKey)
  }

  function Current(t: CategoryTrend): real { t.currentMonth }

  function CategoryOf(t: CategoryTrend): string { t.category }

  predicate HasSpending(t: CategoryTrend) { t.currentMonth > 0.0 || t.previousMonth > 0.0 }

  /** What the 'despesa' items of `month` with category `c` add up to. */
  function SpentIn(items: seq<Item>, month: string, monthOf: string -> string, c: string): real
  {
    SumWhere(items, DespesaIn(month, monthOf), CategoryKey, c)
  }

  /**
   * The trends of the categories of either month that had spending in one
   * of them: each such category exactly once, with its two month totals,
   * and no other category.
   */
  function Candidates(items: seq<Item>, currentMonth: string, previousMonth: string, monthOf: string -> string): (r: seq<CategoryTrend>)
    ensures forall i :: 0 <= i < |r| ==> HasSpending(r[i])
    ensures forall i :: 0 <= i < |r| ==>
      r[i] == TrendOf(r[i].category, SpentIn(items, currentMonth, monthOf, r[i].category), SpentIn(items, previousMonth, monthOf, r[i].category))
    ensures forall i, j :: 0 <= i < j < |r| ==> r[i].category != r[j].category
    ensures forall c :: (exists i :: 0 <= i < |r| && r[i].category == c) <==>
      SpentIn(items, currentMonth, monthOf, c) > 0.0 || SpentIn(items, previousMonth, monthOf, c) > 0.0
  {
    var cur := CategoryAmountForMonth(items, currentMonth, monthOf);
    var prev := CategoryAmountForMonth(items, previousMonth, monthOf);
    var allCategories := Lists.Dedup(cur.keys + prev.keys);
    var trends := seq(|allCategories|, i requires 0 <= i < |allCategories| =>
      TrendOf(allCategories[i], Get(cur, allCategories[i]), Get(prev, allCategories[i])));
    CandidatesFacts(items, currentMonth, previousMonth, monthOf, allCategories, trends);
    Lists.Filter(trends, HasSpending)
  }

  /** The proof of the contract of `Candidates`, over its intermediate lists. */
  lemma CandidatesFacts(items: seq<Item>, currentMonth: string, previousMonth: string, monthOf: string -> string,
                        allCategories: seq<string>, trends: seq<CategoryTrend>)
    requires allCategories == Lists.Dedup(CategoryAmountForMonth(items, currentMonth, monthOf).keys + CategoryAmountForMonth(items, previousMonth, monthOf).keys)
    requires |trends| == |allCategories|
    requires forall i :: 0 <= i < |trends| ==>
      trends[i] == TrendOf(allCategories[i], Get(CategoryAmountForMonth(items, currentMonth, monthOf), allCategories[i]),
                           Get(CategoryAmountForMonth(items, previousMonth, monthOf), allCategories[i]))
    ensures var r := Lists.Filter(trends, HasSpending);
      (forall i :: 0 <= i < |r| ==>
        r[i] == TrendOf(r[i].category, SpentIn(items, currentMonth, monthOf, r[i].category), SpentIn(items, previousMonth, monthOf, r[i].category))) &&
      (forall i, j :: 0 <= i < j < |r| ==> r[i].category != r[j].category) &&
      (forall c :: (exists i :: 0 <= i < |r| && r[i].category == c) <==>
        SpentIn(items, currentMonth, monthOf, c) > 0.0 || SpentIn(items, previousMonth, monthOf, c) > 0.0)
  {
    var cur := CategoryAmountForMonth(items, currentMonth, monthOf);
    var prev := CategoryAmountForMonth(items, previousMonth, monthOf);
    var r := Lists.Filter(trends, HasSpending);
    GroupTotalsValid(items, DespesaIn(currentMonth, monthOf), CategoryKey);
    GroupTotalsValid(items, DespesaIn(previousMonth, monthOf), CategoryKey);
    forall c ensures Get(cur, c) == SpentIn(items, currentMonth, monthOf, c) && Get(prev, c) == SpentIn(items, previousMonth, monthOf, c) {
      GroupTotalsValues(items, DespesaIn(currentMonth, monthOf), CategoryKey, c);
      GroupTotalsValues(items, DespesaIn(previousMonth, monthOf), CategoryKey, c);
    }
    Lists.DedupSpec(cur.keys + prev.keys);
    forall i | 0 <= i < |r|
      ensures r[i] == TrendOf(r[i].category, SpentIn(items, currentMonth, monthOf, r[i].category), SpentIn(items, previousMonth, monthOf, r[i].category))
    {
      assert r[i] in trends;
    }
    assert forall i :: 0 <= i < |trends| ==> CategoryOf(trends[i]) == allCategories[i];
    Lists.FilterKeyDistinct(trends, HasSpending, CategoryOf);
    assert forall i :: 0 <= i < |r| ==> CategoryOf(r[i]) == r[i].category;
    forall c ensures (exists i :: 0 <= i < |r| && r[i].category == c) <==>
        SpentIn(items, currentMonth, monthOf, c) > 0.0 || SpentIn(items, previousMonth, monthOf, c) > 0.0
    {
      if SpentIn(items, currentMonth, monthOf, c) > 0.0 || SpentIn(items, previousMonth, monthOf, c) > 0.0 {
        assert Listed(cur, c) && Listed(prev, c);
        assert c in cur.keys + prev.keys;
        var j :| 0 <= j < |allCategories| && allCategories[j] == c;
        Lists.FilterMembers(trends, HasSpending, trends[j]);
        var i :| 0 <= i < |r| && r[i] == trends[j];
        assert r[i].category == c;
      }
    }
  }

  /** `categoryTrends`: the candidates, largest current amount first, at most ten. */
  function CategoryTrends(items: seq<Item>, currentMonth: string, previousMonth: string, monthOf: string -> string): seq<CategoryTrend>
  {
    TopTen(Candidates(items, currentMonth, previousMonth, monthOf))
  }

  /** `.sort((a, b) => b.currentMonth - a.currentMonth).slice(0, 10)`. */
  function TopTen(trends: seq<CategoryTrend>): seq<CategoryTrend>
  {
    var sorted := Sorting.SortDesc(trends, Current);
    if |sorted| > 10 then sorted[..10] else sorted
  }

  /**
   * The ten trends with the largest current amounts, largest first: every
   * category with spending in one of the two months and no other, each
   * once and with its two month totals; a category left out only when ten
   * others were kept, none of them below it.
   */
  lemma CategoryTrendsSpec(items: seq<Item>, currentMonth: string, previousMonth: string, monthOf: string -> string)
    ensures |CategoryTrends(items, currentMonth, previousMonth, monthOf)| <= 10
    ensures Sorting.SortedDesc(CategoryTrends(items, currentMonth, previousMonth, monthOf), Current)
    ensures forall t :: t in CategoryTrends(items, currentMonth, previousMonth, monthOf) ==>
      HasSpending(t) && t == TrendOf(t.category, SpentIn(items, currentMonth, monthOf, t.category), SpentIn(items, previousMonth, monthOf, t.category))
    ensures var r := CategoryTrends(items, currentMonth, previousMonth, monthOf);
      forall i, j :: 0 <= i < j < |r| ==> r[i].category != r[j].category
    ensures forall c :: SpentIn(items, currentMonth, monthOf, c) > 0.0 || SpentIn(items, previousMonth, monthOf, c) > 0.0 ==>
      (exists t :: t in CategoryTrends(items, currentMonth, previousMonth, monthOf) && t.category == c) ||
      (|CategoryTrends(items, currentMonth, previousMonth, monthOf)| == 10 &&
       forall t :: t in CategoryTrends(items, currentMonth, previousMonth, monthOf) ==> SpentIn(items, currentMonth, monthOf, c) <= t.currentMonth)
  {
    var cands := Candidates(items, currentMonth, previousMonth, monthOf);
    var r := CategoryTrends(items, currentMonth, previousMonth, monthOf);
    TopTenSpec(cands);
    forall t | t in r
      ensures HasSpending(t) && t == TrendOf(t.category, SpentIn(items, currentMonth, monthOf, t.category), SpentIn(items, previousMonth, monthOf, t.category))
    {
      var k :| 0 <= k < |cands| && cands[k] == t;
    }
    CategoriesKept(cands, r);
    forall c | SpentIn(items, currentMonth, monthOf, c) > 0.0 || SpentIn(items, previousMonth, monthOf, c) > 0.0
      ensures (exists t :: t in r && t.category == c) ||
        (|r| == 10 && forall t :: t in r ==> SpentIn(items, currentMonth, monthOf, c) <= t.currentMonth)
    {
      var k :| 0 <= k < |cands| && cands[k].category == c;
      LeftOutBelow(cands, k);
    }
  }

  /** Trends taken from a list with pairwise different categories have pairwise different categories. */
  lemma CategoriesKept(cands: seq<CategoryTrend>, r: seq<CategoryTrend>)
    requires forall i, j :: 0 <= i < j < |cands| ==> cands[i].category != cands[j].category
    requires multiset(r) <= multiset(cands)
    ensures forall i, j :: 0 <= i < j < |r| ==> r[i].category != r[j].category
  {
    forall i, j | 0 <= i < j < |r| ensures r[i].category != r[j].category {
      assert r[i] in multiset(cands) && r[j] in multiset(cands);
      var a :| 0 <= a < |cands| && cands[a] == r[i];
      var b :| 0 <= b < |cands| && cands[b] == r[j];
      if r[i] == r[j] {
        Sorting.TwoOccurrences(r, i, j);
        TrendOnce(cands, a);
      }
    }
  }

  /** A candidate the top ten leaves out is below every kept trend, and then ten were kept. */
  lemma LeftOutBelow(cands: seq<CategoryTrend>, k: nat)
    requires k < |cands|
    ensures cands[k] in TopTen(cands) ||
      (|TopTen(cands)| == 10 && forall t :: t in TopTen(cands) ==> cands[k].currentMonth <= t.currentMonth)
  {
    var r := TopTen(cands);
    var x := cands[k];
    TopTenSpec(cands);
    if x !in r {
      assert x in multiset(cands);
      assert x !in multiset(r);
      assert x in multiset(cands) - multiset(r);
      assert |cands| > 10;
      forall t | t in r ensures x.currentMonth <= t.currentMonth {
        assert Current(x) <= Current(t);
      }
    }
  }

  /** In a list whose categories are pairwise different each trend occurs once. */
  lemma TrendOnce(ts: seq<CategoryTrend>, k: nat)
    requires k < |ts|
    requires forall i, j :: 0 <= i < j < |ts| ==> ts[i].category != ts[j].category
    ensures multiset(ts)[ts[k]] == 1
  {
    var x := ts[k];
    assert ts == ts[..k] + [x] + ts[k + 1..];
    assert x !in ts[..k] by {
      forall i | 0 <= i < k ensures ts[..k][i] != x { assert ts[..k][i] == ts[i]; }
    }
    var after := ts[k + 1..];
    assert x !in after by {
      forall i | 0 <= i < |after| ensures after[i] != x { assert after[i] == ts[k + 1 + i]; }
    }
  }

  /**
   * The min(10, |trends|) trends with the largest current amounts, largest
   * first: taken from the input, the whole input when it has at most ten,
   * and no trend left out above one kept.
   */
  lemma TopTenSpec(trends: seq<CategoryTrend>)
    ensures |TopTen(trends)| == if |trends| < 10 then |trends| else 10
    ensures Sorting.SortedDesc(TopTen(trends), Current)
    ensures multiset(TopTen(trends)) <= multiset(trends)
    ensures |trends| <= 10 ==> multiset(TopTen(trends)) == multiset(trends)
    ensures forall t :: t in TopTen(trends) ==> t in trends
    ensures forall x, y :: x in multiset(trends) - multiset(TopTen(trends)) && y in TopTen(trends) ==> Current(x) <= Current(y)
  {
    var sorted := Sorting.SortDesc(trends, Current);
    Sorting.SortDescSorted(trends, Current);
    var top := TopTen(trends);
    var n := |top|;
    assert top == sorted[..n];
    assert Sorting.SortedDesc(top, Current) by {
      forall i, j | 0 <= i < j < n ensures Current(top[i]) >= Current(top[j]) {
        assert top[i] == sorted[i] && top[j] == sorted[j];
      }
    }
    TopTenSplit(trends, sorted, n);
  }

  /** The kept prefix and the dropped rest of the sorted trends make up the input, the rest below the prefix. */
  lemma TopTenSplit(trends: seq<CategoryTrend>, sorted: seq<CategoryTrend>, n: nat)
    requires multiset(sorted) == multiset(trends) && Sorting.SortedDesc(sorted, Current)
    requires n <= |sorted|
    ensures multiset(sorted[..n]) <= multiset(trends)
    ensures n == |sorted| ==> multiset(sorted[..n]) == multiset(trends)
    ensures forall t :: t in sorted[..n] ==> t in trends
    ensures forall x, y :: x in multiset(trends) - multiset(sorted[..n]) && y in sorted[..n] ==> Current(x) <= Current(y)
  {
    var top := sorted[..n];
    var rest := sorted[n..];
    assert sorted == top + rest;
    assert multiset(trends) == multiset(top) + multiset(rest);
    Sorting.SortedDescSplit(sorted, Current, n);
    forall t | t in top ensures t in trends {
      assert t in multiset(top);
      assert t in multiset(trends);
    }
    forall x, y | x in multiset(trends) - multiset(top) && y in top ensures Current(x) <= Current(y) {
      assert x in rest;
    }
  }
}
