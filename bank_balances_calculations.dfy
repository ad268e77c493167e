/**
 * The current balance of each available bank
 * (src/hooks/useBankBalancesCalculations.ts): the configured base balance
 * plus the signed amounts of the bank's manual items dated up to today.
 *
 * Today's date (`new Date().toISOString().split('T')[0]`) is a parameter.
 * The per-bank computation is shared with the period variant of
 * src/hooks/useBankBalances.ts, which differs only in which items move the
 * balance.
 */
module BankBalancesCalculations {
  import opened Wrappers
  import Sorting
  import opened ContasCalculations

  /** `bankBalances.find(b => b.bank_name === bank)`. */
  function FindConfig(rows: seq<BankBalanceRow>, bank: string): (r: Option<BankBalanceRow>)
    ensures r.Some? ==> r.value in rows && r.value.bankName == bank
    ensures r.None? <==> forall i :: 0 <= i < |rows| ==> rows[i].bankName != bank
  {
    if rows == [] then None
    else if rows[0].bankName == bank then Some(rows[0])
    else FindConfig(rows[1..], bank)
  }

  /** `bankConfig?.initial_balance || 0`. */
  function BaseBalance(rows: seq<BankBalanceRow>, bank: string): real
  {
    match FindConfig(rows, bank)
    case Some(row) => Initial(row)
    case None => 0.0
  }

  /** The base balance is that of the first row of the bank, and zero for an unconfigured bank. */
  lemma {:induction false} BaseBalanceSpec(rows: seq<BankBalanceRow>, bank: string, k: nat)
    requires k < |rows| && rows[k].bankName == bank
    requires forall j :: 0 <= j < k ==> rows[j].bankName != bank
    ensures BaseBalance(rows, bank) == Initial(rows[k])
  {
    if k > 0 {
      BaseBalanceSpec(rows[1..], bank, k - 1);
    }
  }

  /** An unconfigured bank starts from zero. */
  lemma UnconfiguredBaseZero(rows: seq<BankBalanceRow>, bank: string)
    requires forall i :: 0 <= i < |rows| ==> rows[i].bankName != bank
    ensures BaseBalance(rows, bank) == 0.0
  {
  }

  /** `item.type === 'entrada' ? item.amount : -item.amount`: only an exact 'entrada' adds. */
  function Signed(item: Item): real
  {
    if item.kind == Some("entrada") then item.amount else -item.amount
  }

  /** Which items move the balance of a bank. */
  type Qualifier = (Item, string) -> bool

  /** The signed sum of the items that qualify for `bank`, in list order. */
  function MovementsOf(items: seq<Item>, bank: string, qualifies: Qualifier): real
  {
    if items == [] then 0.0
    else
      var last := items[|items| - 1];
      MovementsOf(items[..|items| - 1], bank, qualifies) + (if qualifies(last, bank) then Signed(last) else 0.0)
  }

  /** A list with no qualifying item moves nothing. */
  lemma {:induction false} MovementsNone(items: seq<Item>, bank: string, qualifies: Qualifier)
    requires forall i :: 0 <= i < |items| ==> !qualifies(items[i], bank)
    ensures MovementsOf(items, bank, qualifies) == 0.0
  {
    if items != [] {
      var n := |items| - 1;
      assert forall i :: 0 <= i < n ==> items[..n][i] == items[i];
      MovementsNone(items[..n], bank, qualifies);
    }
  }

  /** The movements of two lists add up. */
  lemma {:induction false} MovementsAppend(a: seq<Item>, b: seq<Item>, bank: string, qualifies: Qualifier)
    ensures MovementsOf(a + b, bank, qualifies) == MovementsOf(a, bank, qualifies) + MovementsOf(b, bank, qualifies)
  {
    if b == [] {
      assert a + b == a;
    } else {
      var n := |b| - 1;
      assert (a + b)[..|a + b| - 1] == a + b[..n];
      MovementsAppend(a, b[..n], bank, qualifies);
    }
  }

  /** One bank's result. */
  datatype BankResult = BankResult(name: string, balance: real, previousBalance: real)

  /** `availableBanks.map(bank => ...)`: one result per bank, in order. */
  function BankResults(banks: seq<string>, rows: seq<BankBalanceRow>, items: seq<Item>, qualifies: Qualifier): (r: seq<BankResult>)
    ensures |r| == |banks|
    ensures forall i :: 0 <= i < |banks| ==> r[i].name == banks[i] && r[i].previousBalance == BaseBalance(rows, banks[i])
    ensures forall i :: 0 <= i < |banks| ==> r[i].balance - r[i].previousBalance == MovementsOf(items, banks[i], qualifies)
  {
    seq(|banks|, i requires 0 <= i < |banks| =>
      var baseBalance := BaseBalance(rows, banks[i]);
      BankResult(banks[i], baseBalance + MovementsOf(items, banks[i], qualifies), baseBalance))
  }

  /**
   * A new item changes only its own bank's balance, by its signed amount
   * when it qualifies, and no previous balance.
   */
  lemma NewItemEffect(banks: seq<string>, rows: seq<BankBalanceRow>, items: seq<Item>, item: Item, qualifies: Qualifier, i: nat)
    requires i < |banks|
    requires forall bank :: bank != item.bank ==> !qualifies(item, bank)
    ensures BankResults(banks, rows, items + [item], qualifies)[i].previousBalance == BankResults(banks, rows, items, qualifies)[i].previousBalance
    ensures BankResults(banks, rows, items + [item], qualifies)[i].balance ==
      BankResults(banks, rows, items, qualifies)[i].balance + (if qualifies(item, banks[i]) then Signed(item) else 0.0)
    ensures banks[i] != item.bank ==> BankResults(banks, rows, items + [item], qualifies)[i] == BankResults(banks, rows, items, qualifies)[i]
  {
    assert (items + [item])[..|items|] == items;
  }

  /** `item.bank === bank && (!item.source || item.source === 'manual') && item.date <= today`. */
  predicate UpToToday(today: string, item: Item, bank: string)
  {
    item.bank == bank && IsManual(item) && Sorting.AtMost(item.date, today)
  }

  /** The hook's result: each bank's base plus its manual movements up to today. */
  function CalculateBankBalances(banks: seq<string>, rows: seq<BankBalanceRow>, allItems: seq<Item>, today: string): (r: seq<BankResult>)
    ensures |r| == |banks|
    ensures forall i :: 0 <= i < |banks| ==> r[i].name == banks[i]
  {
    BankResults(banks, rows, allItems, (item, bank) => UpToToday(today, item, bank))
  }

  /**
   * Each result keeps the configured base as previous balance; the balance
   * moves from it by exactly the signed sum of the bank's manual items dated
   * up to today.
   */
  lemma CalculateBankBalancesSpec(banks: seq<string>, rows: seq<BankBalanceRow>, allItems: seq<Item>, today: string, i: nat)
    requires i < |banks|
    ensures CalculateBankBalances(banks, rows, allItems, today)[i].previousBalance == BaseBalance(rows, banks[i])
    ensures CalculateBankBalances(banks, rows, allItems, today)[i].balance - BaseBalance(rows, banks[i]) ==
      MovementsOf(allItems, banks[i], (item, bank) => UpToToday(today, item, bank))
  {
  }

  /** An item dated after today, or an imported one, changes no balance. */
  lemma FutureOrImportedIgnored(banks: seq<string>, rows: seq<BankBalanceRow>, allItems: seq<Item>, today: string, item: Item)
    requires !Sorting.AtMost(item.date, today) || !IsManual(item)
    ensures CalculateBankBalances(banks, rows, allItems + [item], today) == CalculateBankBalances(banks, rows, allItems, today)
  {
    var q := (it, bank) => UpToToday(today, it, bank);
    forall i | 0 <= i < |banks|
      ensures CalculateBankBalances(banks, rows, allItems + [item], today)[i] == CalculateBankBalances(banks, rows, allItems, today)[i]
    {
      NewItemEffect(banks, rows, allItems, item, q, i);
    }
  }

  /** A manual 'entrada' up to today raises its bank by its amount; any other type lowers it. */
  lemma ManualItemMoves(banks: seq<string>, rows: seq<BankBalanceRow>, allItems: seq<Item>, today: string, item: Item, i: nat)
    requires i < |banks| && banks[i] == item.bank
    requires IsManual(item) && Sorting.AtMost(item.date, today)
    ensures CalculateBankBalances(banks, rows, allItems + [item], today)[i].balance ==
      CalculateBankBalances(banks, rows, allItems, today)[i].balance + (if item.kind == Some("entrada") then item.amount else -item.amount)
  {
    NewItemEffect(banks, rows, allItems, item, (it, bank) => UpToToday(today, it, bank), i);
  }
}
