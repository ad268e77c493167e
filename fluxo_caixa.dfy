/**
 * The cash-flow projection of src/hooks/useFluxoCaixa.ts: the current
 * balance is the signed sum of all items, and each of the next months
 * pays the recurring bills and receives nothing.
 *
 * The month key and month name of the month `k` months after today
 * (date-fns `addMonths`/`format` on the clock) are parameters.
 */
module FluxoCaixa {

  /** The fields of a `financial_items` row the balance reads. */
  datatype Item = Item(kind: string, amount: real)

  /** `item.type === 'receita' ? +amount : -amount`. */
  function Signed(item: Item): real
  {
    if item.kind == "receita" then item.amount else -item.amount
  }

  /** The current balance: the signed sum of the items, in order. */
  function CurrentBalance(items: seq<Item>): real
  {
    if items == [] then 0.0 else CurrentBalance(items[..|items| - 1]) + Signed(items[|items| - 1])
  }

  /** A 'receita' adds its amount to the balance; any other type subtracts it. */
  lemma CurrentBalanceAppend(items: seq<Item>, item: Item)
    ensures item.kind == "receita" ==> CurrentBalance(items + [item]) == CurrentBalance(items) + item.amount
    ensures item.kind != "receita" ==> CurrentBalance(items + [item]) == CurrentBalance(items) - item.amount
  {
    assert (items + [item])[..|items|] == items;
  }

  /** The balance of two lists of items adds up. */
  lemma {:induction false} CurrentBalanceConcat(a: seq<Item>, b: seq<Item>)
    ensures CurrentBalance(a + b) == CurrentBalance(a) + CurrentBalance(b)
  {
    if b == [] {
      assert a + b == a;
    } else {
      var n := |b| - 1;
      assert (a + b)[..|a + b| - 1] == a + b[..n];
      CurrentBalanceConcat(a, b[..n]);
    }
  }

  /** `recurringBills.reduce((sum, bill) => sum + Number(bill.amount), 0)`. */
  function BillsTotal(amounts: seq<real>): real
  {
    if amounts == [] then 0.0 else BillsTotal(amounts[..|amounts| - 1]) + amounts[|amounts| - 1]
  }

  /** One month of the projection. */
  datatype ProjectionMonth = ProjectionMonth(month: string, monthName: string, saldoInicial: real, receitas: real, despesas: real, saldoFinal: real)

  /** The month `k + 1` months ahead, starting from `saldo`. */
  function Month(k: int, saldo: real, despesas: real, monthKey: int -> string, monthName: int -> string): ProjectionMonth
  {
    ProjectionMonth(monthKey(k + 1), monthName(k + 1), saldo, 0.0, despesas, saldo + 0.0 - despesas)
  }

  /** The months `k + 1` to `n` ahead, the first starting from `saldo`, each next from the previous end. */
  function ProjectionFrom(saldo: real, despesas: real, k: int, n: int, monthKey: int -> string, monthName: int -> string): seq<ProjectionMonth>
    decreases n - k
  {
    if k >= n then []
    else [Month(k, saldo, despesas, monthKey, monthName)] + ProjectionFrom(saldo - despesas, despesas, k + 1, n, monthKey, monthName)
  }

  /**
   * The projection loop: month `i + 1` ahead starts from the balance
   * accumulated so far, receives nothing, pays the recurring bills, and
   * passes its end balance on.
   */
  method Projection(currentBalance: real, billAmounts: seq<real>, monthsAhead: int, monthKey: int -> string, monthName: int -> string)
    returns (projection: seq<ProjectionMonth>)
    ensures projection == ProjectionFrom(currentBalance, BillsTotal(billAmounts), 0, monthsAhead, monthKey, monthName)
  {
    projection := [];
    var saldoAcumulado := currentBalance;
    var i := 0;
    while i < monthsAhead
      invariant 0 <= i && (monthsAhead > 0 ==> i <= monthsAhead)
      invariant projection + ProjectionFrom(saldoAcumulado, BillsTotal(billAmounts), i, monthsAhead, monthKey, monthName) ==
        ProjectionFrom(currentBalance, BillsTotal(billAmounts), 0, monthsAhead, monthKey, monthName)
      decreases monthsAhead - i
    {
      var despesasContas := BillsTotal(billAmounts);
      var receitas := 0.0;
      var despesas := despesasContas;
      var saldoInicial := saldoAcumulado;
      var saldoFinal := saldoInicial + receitas - despesas;
      projection := projection + [ProjectionMonth(monthKey(i + 1), monthName(i + 1), saldoInicial, receitas, despesas, saldoFinal)];
      saldoAcumulado := saldoFinal;
      i := i + 1;
    }
  }

  /** `saldo` after `j` months of `despesas`. */
  function After(saldo: real, despesas: real, j: nat): real
  {
    if j == 0 then saldo else After(saldo, despesas, j - 1) - despesas
  }

  /** Paying the first month up front and then `j` months is paying `j + 1` months. */
  lemma {:induction false} AfterShift(saldo: real, despesas: real, j: nat)
    ensures After(saldo - despesas, despesas, j) == After(saldo, despesas, j + 1)
  {
    if j > 0 {
      AfterShift(saldo, despesas, j - 1);
    }
  }

  /** `j` months of bills take `j` times the bills off the balance. */
  lemma {:induction false} AfterClosedForm(saldo: real, despesas: real, j: nat)
    ensures After(saldo, despesas, j) == saldo - (j as real) * despesas
  {
    if j > 0 {
      AfterClosedForm(saldo, despesas, j - 1);
      assert (j as real) * despesas == ((j - 1) as real) * despesas + despesas;
    }
  }

  /**
   * There is one month per month ahead (none for a count below one); the
   * `j`-th starts after `j` months of bills.
   */
  lemma {:induction false} ProjectionFromSpec(saldo: real, despesas: real, k: int, n: int, monthKey: int -> string, monthName: int -> string)
    ensures |ProjectionFrom(saldo, despesas, k, n, monthKey, monthName)| == if n > k then n - k else 0
    ensures forall j: nat :: j < |ProjectionFrom(saldo, despesas, k, n, monthKey, monthName)| ==>
      ProjectionFrom(saldo, despesas, k, n, monthKey, monthName)[j] == Month(k + j, After(saldo, despesas, j), despesas, monthKey, monthName)
    decreases n - k
  {
    if k < n {
      var rest := ProjectionFrom(saldo - despesas, despesas, k + 1, n, monthKey, monthName);
      ProjectionFromSpec(saldo - despesas, despesas, k + 1, n, monthKey, monthName);
      forall j: nat | 1 <= j < n - k
        ensures ProjectionFrom(saldo, despesas, k, n, monthKey, monthName)[j] == Month(k + j, After(saldo, despesas, j), despesas, monthKey, monthName)
      {
        assert ProjectionFrom(saldo, despesas, k, n, monthKey, monthName)[j] == rest[j - 1];
        AfterShift(saldo, despesas, j - 1);
      }
    }
  }

  /**
   * The projection has `monthsAhead` months; the first starts from the
   * current balance, each later one from the previous month's end; each
   * month has no income, the bills as expenses, and ends at its start plus
   * income less expenses.
   */
  lemma ProjectionChain(currentBalance: real, despesas: real, monthsAhead: int, monthKey: int -> string, monthName: int -> string)
    ensures var p := ProjectionFrom(currentBalance, despesas, 0, monthsAhead, monthKey, monthName);
      |p| == (if monthsAhead > 0 then monthsAhead else 0) &&
      (|p| > 0 ==> p[0].saldoInicial == currentBalance) &&
      (forall i :: 0 < i < |p| ==> p[i].saldoInicial == p[i - 1].saldoFinal) &&
      (forall i :: 0 <= i < |p| ==>
        p[i].receitas == 0.0 && p[i].despesas == despesas && p[i].saldoFinal == p[i].saldoInicial + p[i].receitas - p[i].despesas) &&
      (forall i :: 0 <= i < |p| ==> p[i].month == monthKey(i + 1) && p[i].monthName == monthName(i + 1))
  {
    ProjectionFromSpec(currentBalance, despesas, 0, monthsAhead, monthKey, monthName);
  }

  /** The last month ends `monthsAhead` months of bills below the current balance. */
  lemma ProjectionLast(currentBalance: real, billAmounts: seq<real>, monthsAhead: int, monthKey: int -> string, monthName: int -> string)
    requires monthsAhead > 0
    ensures |ProjectionFrom(currentBalance, BillsTotal(billAmounts), 0, monthsAhead, monthKey, monthName)| == monthsAhead
    ensures ProjectionFrom(currentBalance, BillsTotal(billAmounts), 0, monthsAhead, monthKey, monthName)[monthsAhead - 1].saldoFinal ==
      currentBalance - (monthsAhead as real) * BillsTotal(billAmounts)
  {
    var d := BillsTotal(billAmounts);
    ProjectionFromSpec(currentBalance, d, 0, monthsAhead, monthKey, monthName);
    AfterClosedForm(currentBalance, d, monthsAhead);
  }
}
