/**
 * Bank balances and totals of the bills page
 * (src/hooks/contas/useContasCalculations.ts): each configured bank starts
 * from its initial balance at its baseline date and moves with the manual
 * items dated from the baseline up to today; the totals compare the bills
 * with the cash.
 *
 * Today's date, the accent stripping of `normalize('NFD')` and the outcome
 * of each database request are parameters.
 */
module ContasCalculations {
  import opened Wrappers
  import opened Strings
  import opened Records
  import Sorting
  import ContasBills

  /** A row of `bank_balances`. */
  datatype BankBalanceRow = BankBalanceRow(
    id: string, bankName: string, initialBalance: Option<real>,
    baselineDate: Option<string>, updatedAt: Option<string>)

  /** The fields of a `financial_items` row the balances read. */
  datatype Item = Item(bank: string, source: Option<string>, date: string, kind: Option<string>, amount: real)

  const Epoch := "1970-01-01"

  /** A string that is present and not empty (JavaScript truthiness). */
  predicate Truthy(s: Option<string>)
  {
    s.Some? && s.value != ""
  }

  /** `getBaselineDate`: the baseline date, else the date part of `updated_at`, else 1970-01-01. */
  function GetBaselineDate(row: BankBalanceRow): (r: string)
    ensures Truthy(row.baselineDate) ==> r == row.baselineDate.value
    ensures !Truthy(row.baselineDate) && !Truthy(row.updatedAt) ==> r == Epoch
  {
    if Truthy(row.baselineDate) then row.baselineDate.value
    else if Truthy(row.updatedAt) then
      var datePart := Split(row.updatedAt.value, 'T')[0];
      if datePart != "" then datePart else Epoch
    else Epoch
  }

  /** Without a baseline date, a timestamp `D` + "T" + time gives the day `D`. */
  lemma BaselineFromUpdatedAt(row: BankBalanceRow, day: string, time: string)
    requires !Truthy(row.baselineDate) && row.updatedAt == Some(day + "T" + time)
    requires day != "" && 'T' !in day
    ensures GetBaselineDate(row) == day
  {
    var s := day + "T" + time;
    IndexOfPrefix(day, time, 'T');
    assert s == day + ['T'] + time;
    assert s[..|day|] == day;
  }

  /** `!item.source || item.source === 'manual'`: items typed in by hand, not imported. */
  predicate IsManual(item: Item)
  {
    !Truthy(item.source) || item.source.value == "manual"
  }

  /** The item moves the balance of `bankName`: same bank, manual, dated from the baseline up to today. */
  predicate Qualifies(item: Item, bankName: string, baseline: string, today: string)
  {
    item.bank == bankName && IsManual(item) && Sorting.AtMost(baseline, item.date) && Sorting.AtMost(item.date, today)
  }

  /** The type lower-cased and with its accents stripped. */
  function SanitizedType(item: Item, strip: string -> string): string
  {
    strip(Lower(if item.kind.Some? then item.kind.value else ""))
  }

  /** The signed amount: incomes add, expenses subtract, any other type adds. */
  function SignedAmount(item: Item, strip: string -> string): real
  {
    var t := SanitizedType(item, strip);
    if t == "entrada" || t == "receita" then item.amount
    else if t == "saida" || t == "despesa" then -item.amount
    else item.amount
  }

  /** `allItems.filter(...).reduce(...)`: the signed amounts of the qualifying items. */
  function Movements(items: seq<Item>, bankName: string, baseline: string, today: string, strip: string -> string): real
  {
    if items == [] then 0.0
    else
      var last := items[|items| - 1];
      Movements(items[..|items| - 1], bankName, baseline, today, strip) +
        (if Qualifies(last, bankName, baseline, today) then SignedAmount(last, strip) else 0.0)
  }

  /** The movements of two lists of items add up. */
  lemma {:induction false} MovementsConcat(a: seq<Item>, b: seq<Item>, bankName: string, baseline: string, today: string, strip: string -> string)
    ensures Movements(a + b, bankName, baseline, today, strip) ==
      Movements(a, bankName, baseline, today, strip) + Movements(b, bankName, baseline, today, strip)
  {
    if b == [] {
      assert a + b == a;
    } else {
      var n := |b| - 1;
      assert (a + b)[..|a + b| - 1] == a + b[..n];
      MovementsConcat(a, b[..n], bankName, baseline, today, strip);
    }
  }

  /** Items of other banks, imported items, and items outside baseline..today move nothing. */
  lemma {:induction false} MovementsIgnore(items: seq<Item>, bankName: string, baseline: string, today: string, strip: string -> string)
    requires forall i :: 0 <= i < |items| ==> !Qualifies(items[i], bankName, baseline, today)
    ensures Movements(items, bankName, baseline, today, strip) == 0.0
  {
    if items != [] {
      var n := |items| - 1;
      assert forall i :: 0 <= i < n ==> items[..n][i] == items[i];
      MovementsIgnore(items[..n], bankName, baseline, today, strip);
    }
  }

  /**
   * The type is compared case-insensitively and, given an accent stripping
   * that maps "saída" to "saida", without accents: "SAÍDA" subtracts.
   */
  lemma SaidaAnyCase(item: Item, strip: string -> string)
    requires item.kind == Some("SAÍDA") && strip("saída") == "saida"
    ensures SignedAmount(item, strip) == -item.amount
  {
    assert Lower("SAÍDA") == "saída";
  }

  /** An unknown type adds its amount, as an income would. */
  lemma UnknownTypeAdds(item: Item, strip: string -> string)
    requires SanitizedType(item, strip) !in {"entrada", "receita", "saida", "despesa"}
    ensures SignedAmount(item, strip) == item.amount
  {
  }

  /** `Number(balance.initial_balance || 0)`. */
  function Initial(row: BankBalanceRow): real
  {
    if row.initialBalance.Some? then row.initialBalance.value else 0.0
  }

  /** The balance of one configured row. */
  function RowBalance(row: BankBalanceRow, items: seq<Item>, today: string, strip: string -> string): real
  {
    Initial(row) + Movements(items, row.bankName, GetBaselineDate(row), today, strip)
  }

  /** The record after the rows, in order; a later row of the same bank overwrites. */
  function BalancesOf(rows: seq<BankBalanceRow>, items: seq<Item>, today: string, strip: string -> string): Record
  {
    if rows == [] then Empty
    else
      var row := rows[|rows| - 1];
      Set(BalancesOf(rows[..|rows| - 1], items, today, strip), row.bankName, RowBalance(row, items, today, strip))
  }

  /** `calculateCurrentBalances`: `balances[bank_name] = initial + movements` for each configured row. */
  method CalculateCurrentBalances(rows: seq<BankBalanceRow>, items: seq<Item>, today: string, strip: string -> string) returns (balances: Record)
    ensures balances == BalancesOf(rows, items, today, strip)
    ensures Valid(balances)
    ensures forall k :: k in balances.values <==> exists i :: 0 <= i < |rows| && rows[i].bankName == k
    ensures forall i :: 0 <= i < |rows| && LastOfBank(rows, i) ==>
      balances.values[rows[i].bankName] == RowBalance(rows[i], items, today, strip)
  {
    balances := Empty;
    for i := 0 to |rows|
      invariant balances == BalancesOf(rows[..i], items, today, strip)
    {
      assert rows[..i + 1][..i] == rows[..i];
      var balance := rows[i];
      var baselineDate := GetBaselineDate(balance);
      var bankMovements := Movements(items, balance.bankName, baselineDate, today, strip);
      balances := Set(balances, balance.bankName, Initial(balance) + bankMovements);
    }
    assert rows[..|rows|] == rows;
    BalancesOfSpec(rows, items, today, strip);
  }

  /** No later row has the bank of row `i`. */
  predicate LastOfBank(rows: seq<BankBalanceRow>, i: nat)
    requires i < |rows|
  {
    forall j :: i < j < |rows| ==> rows[j].bankName != rows[i].bankName
  }

  /** The balances record lists each key once, exactly the keys with a balance. */
  lemma {:induction false} BalancesValid(rows: seq<BankBalanceRow>, items: seq<Item>, today: string, strip: string -> string)
    ensures Valid(BalancesOf(rows, items, today, strip))
  {
    if rows != [] {
      var n := |rows| - 1;
      BalancesValid(rows[..n], items, today, strip);
      SetValid(BalancesOf(rows[..n], items, today, strip), rows[n].bankName, RowBalance(rows[n], items, today, strip));
    }
  }

  /** There is a balance for a bank name iff some configured row has that name. */
  lemma {:induction false} BalancesKeys(rows: seq<BankBalanceRow>, items: seq<Item>, today: string, strip: string -> string)
    ensures forall k :: k in BalancesOf(rows, items, today, strip).values <==> exists i :: 0 <= i < |rows| && rows[i].bankName == k
  {
    if rows != [] {
      var n := |rows| - 1;
      var init := rows[..n];
      BalancesKeys(init, items, today, strip);
      assert forall i :: 0 <= i < n ==> init[i] == rows[i];
    }
  }

  /** The balance of a bank is that of the last row with its name. */
  lemma {:induction false} BalancesLast(rows: seq<BankBalanceRow>, items: seq<Item>, today: string, strip: string -> string)
    ensures forall i :: 0 <= i < |rows| && LastOfBank(rows, i) ==>
      rows[i].bankName in BalancesOf(rows, items, today, strip).values &&
      BalancesOf(rows, items, today, strip).values[rows[i].bankName] == RowBalance(rows[i], items, today, strip)
  {
    if rows != [] {
      var n := |rows| - 1;
      var init := rows[..n];
      var prev := BalancesOf(init, items, today, strip);
      var row := rows[n];
      assert BalancesOf(rows, items, today, strip) == Set(prev, row.bankName, RowBalance(row, items, today, strip));
      BalancesLast(init, items, today, strip);
      forall i | 0 <= i < |rows| && LastOfBank(rows, i)
        ensures rows[i].bankName in BalancesOf(rows, items, today, strip).values
        ensures BalancesOf(rows, items, today, strip).values[rows[i].bankName] == RowBalance(rows[i], items, today, strip)
      {
        if i < n {
          assert rows[n].bankName != rows[i].bankName;
          assert init[i] == rows[i];
          forall j | i < j < n ensures init[j].bankName != init[i].bankName {
            assert init[j] == rows[j];
          }
          assert LastOfBank(init, i);
        }
      }
    }
  }

  /**
   * One key per configured bank name, holding the balance of the last row
   * with that name.
   */
  lemma BalancesOfSpec(rows: seq<BankBalanceRow>, items: seq<Item>, today: string, strip: string -> string)
    ensures Valid(BalancesOf(rows, items, today, strip))
    ensures forall k :: k in BalancesOf(rows, items, today, strip).values <==> exists i :: 0 <= i < |rows| && rows[i].bankName == k
    ensures forall i :: 0 <= i < |rows| && LastOfBank(rows, i) ==>
      BalancesOf(rows, items, today, strip).values[rows[i].bankName] == RowBalance(rows[i], items, today, strip)
  {
    BalancesValid(rows, items, today, strip);
    BalancesKeys(rows, items, today, strip);
    BalancesLast(rows, items, today, strip);
  }

  /** With distinct bank names the last row of a bank is its only one, and it is not among the earlier rows' keys. */
  lemma NewBank(rows: seq<BankBalanceRow>, items: seq<Item>, today: string, strip: string -> string)
    requires rows != []
    requires forall i, j :: 0 <= i < j < |rows| ==> rows[i].bankName != rows[j].bankName
    ensures rows[|rows| - 1].bankName !in BalancesOf(rows[..|rows| - 1], items, today, strip).values
  {
    var n := |rows| - 1;
    BalancesKeys(rows[..n], items, today, strip);
    assert forall i :: 0 <= i < n ==> rows[..n][i] == rows[i];
  }

  /** With distinct bank names there is one balance per row, in row order. */
  lemma {:induction false} DistinctBanksOnePerRow(rows: seq<BankBalanceRow>, items: seq<Item>, today: string, strip: string -> string)
    requires forall i, j :: 0 <= i < j < |rows| ==> rows[i].bankName != rows[j].bankName
    ensures |BalancesOf(rows, items, today, strip).keys| == |rows|
    ensures forall i :: 0 <= i < |rows| ==> BalancesOf(rows, items, today, strip).keys[i] == rows[i].bankName
  {
    if rows != [] {
      var n := |rows| - 1;
      DistinctBanksOnePerRow(rows[..n], items, today, strip);
      NewBank(rows, items, today, strip);
    }
  }

  /** The totals card of the bills page. */
  datatype Totals = Totals(totalBills: real, paidBills: real, unpaidBills: real, totalCash: real, remainingCash: real)

  /** The sum of the current values of the bills, of the paid ones only when `paidOnly`. */
  function BillsSum(bills: seq<ContasBills.BillWithMonthlyData>, paidOnly: bool): real
  {
    if bills == [] then 0.0
    else
      var last := bills[|bills| - 1];
      BillsSum(bills[..|bills| - 1], paidOnly) + (if !paidOnly || last.paidThisMonth then last.currentValue else 0.0)
  }

  /** The sum of the current values of the bills not paid this month. */
  function UnpaidSum(bills: seq<ContasBills.BillWithMonthlyData>): real
  {
    if bills == [] then 0.0
    else
      var last := bills[|bills| - 1];
      UnpaidSum(bills[..|bills| - 1]) + (if last.paidThisMonth then 0.0 else last.currentValue)
  }

  /** `calculateTotals`. */
  function CalculateTotals(bills: seq<ContasBills.BillWithMonthlyData>, balances: Record): (r: Totals)
    ensures r.unpaidBills == UnpaidSum(bills)
    ensures r.remainingCash == r.totalCash - UnpaidSum(bills)
  {
    var totalBills := BillsSum(bills, false);
    var paidBills := BillsSum(bills, true);
    UnpaidIsDifference(bills);
    var totalCash := Total(balances);
    Totals(totalBills, paidBills, totalBills - paidBills, totalCash, totalCash - (totalBills - paidBills))
  }

  /** What is unpaid is the total less what is paid. */
  lemma {:induction false} UnpaidIsDifference(bills: seq<ContasBills.BillWithMonthlyData>)
    ensures BillsSum(bills, false) - BillsSum(bills, true) == UnpaidSum(bills)
  {
    if bills != [] {
      UnpaidIsDifference(bills[..|bills| - 1]);
    }
  }

  /** The cash is the sum over the configured banks of their balances. */
  lemma {:induction false} TotalCashSpec(rows: seq<BankBalanceRow>, items: seq<Item>, today: string, strip: string -> string)
    requires forall i, j :: 0 <= i < j < |rows| ==> rows[i].bankName != rows[j].bankName
    ensures Total(BalancesOf(rows, items, today, strip)) == RowsSum(rows, items, today, strip)
  {
    if rows != [] {
      var n := |rows| - 1;
      TotalCashSpec(rows[..n], items, today, strip);
      BalancesValid(rows[..n], items, today, strip);
      NewBank(rows, items, today, strip);
      SetTotal(BalancesOf(rows[..n], items, today, strip), rows[n].bankName, RowBalance(rows[n], items, today, strip));
    }
  }

  /** The sum of the row balances. */
  function RowsSum(rows: seq<BankBalanceRow>, items: seq<Item>, today: string, strip: string -> string): real
  {
    if rows == [] then 0.0 else RowsSum(rows[..|rows| - 1], items, today, strip) + RowBalance(rows[|rows| - 1], items, today, strip)
  }

  // ------------------------------------------------------- balance mutation

  /** A change to the bank balances as the user edited them; an `id` marks an existing row. */
  datatype BankBalanceUpdate = BankBalanceUpdate(id: Option<string>, bankName: string, initialBalance: real, baselineDate: string)

  /** The request sent for one update. */
  datatype Request =
    | UpdateRow(id: string, initialBalance: real, baselineDate: string, updatedAt: string)
    | InsertRow(userId: string, bankName: string, initialBalance: real, baselineDate: string, updatedAt: string)

  /** An update with an id updates that row; one without inserts a row for its bank. */
  function RequestFor(update: BankBalanceUpdate, userId: string, nowIso: string): (r: Request)
    ensures r.UpdateRow? <==> Truthy(update.id)
  {
    if Truthy(update.id) then UpdateRow(update.id.value, update.initialBalance, update.baselineDate, nowIso)
    else InsertRow(userId, update.bankName, update.initialBalance, update.baselineDate, nowIso)
  }

  /** The requests for the updates, one each, in order. */
  function RequestsFor(updates: seq<BankBalanceUpdate>, userId: string, nowIso: string): (r: seq<Request>)
    ensures |r| == |updates|
    ensures forall i :: 0 <= i < |updates| ==> r[i] == RequestFor(updates[i], userId, nowIso)
  {
    seq(|updates|, i requires 0 <= i < |updates| => RequestFor(updates[i], userId, nowIso))
  }

  /**
   * The mutation: without a user nothing is sent; otherwise the requests are
   * sent in order until one fails (`fails` is the database's answer), and
   * an empty list sends nothing.
   */
  method UpdateBankBalances(userId: Option<string>, updates: seq<BankBalanceUpdate>, nowIso: string, fails: Request -> bool)
    returns (sent: seq<Request>, r: Result<()>)
    ensures !Truthy(userId) ==> sent == [] && r.Err?
    ensures Truthy(userId) ==> sent <= RequestsFor(updates, userId.value, nowIso)
    ensures Truthy(userId) ==> forall i :: 0 <= i < |sent| - 1 ==> !fails(sent[i])
    ensures Truthy(userId) ==> (r.Ok? <==> sent == RequestsFor(updates, userId.value, nowIso) && forall i :: 0 <= i < |sent| ==> !fails(sent[i]))
    ensures r.Err? && Truthy(userId) ==> sent != [] && fails(sent[|sent| - 1])
    ensures updates == [] ==> sent == []
  {
    sent := [];
    if !Truthy(userId) {
      return [], Err("Usuário não autenticado");
    }
    if |updates| == 0 {
      return [], Ok(());
    }
    ghost var all := RequestsFor(updates, userId.value, nowIso);
    for i := 0 to |updates|
      invariant sent == all[..i]
      invariant forall j :: 0 <= j < i ==> !fails(sent[j])
    {
      var request := RequestFor(updates[i], userId.value, nowIso);
      sent := sent + [request];
      if fails(request) {
        return sent, Err("request failed");
      }
    }
    assert all[..|updates|] == all;
    r := Ok(());
  }
}
