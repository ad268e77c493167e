/**
 * The older bills page logic (src/hooks/useContasLogic.ts): five fixed
 * banks, each starting from its configured balance and moved by the
 * month's items of that bank; bills take the legacy adjustment when there
 * is one.
 */
module ContasLogic {
  import opened Wrappers
  import opened Records
  import ContasBills
  import opened ContasCalculations
  import opened BankBalancesCalculations

  /** `BANKS`. */
  const Banks: seq<string> := ["CONTA SIMPLES", "BRADESCO", "C6 BANK", "ASAAS", "NOMAD"]

  /** The five bank names differ. */
  lemma BanksDistinct()
    ensures forall i, j :: 0 <= i < j < |Banks| ==> Banks[i] != Banks[j]
  {
    assert Banks[0][0] == 'C' && Banks[1][0] == 'B' && Banks[2][0] == 'C' && Banks[3][0] == 'A' && Banks[4][0] == 'N';
    assert Banks[0][1] == 'O' && Banks[2][1] == '6';
  }

  /** `getCurrentBillValue`: the first adjustment of the bill, else its own value. */
  function GetCurrentBillValue(bill: ContasBills.RecurringBill, adjustments: seq<ContasBills.BillAdjustment>): (r: real)
    ensures (forall i :: 0 <= i < |adjustments| ==> adjustments[i].billId != bill.id) ==> r == bill.value
    ensures (exists i :: 0 <= i < |adjustments| && adjustments[i].billId == bill.id) ==>
      exists i :: 0 <= i < |adjustments| && adjustments[i].billId == bill.id && r == adjustments[i].adjustedValue
  {
    match ContasBills.FindAdjustment(adjustments, bill.id)
    case Some(adjustment) =>
      assert adjustment in adjustments;
      adjustment.adjustedValue
    case None => bill.value
  }

  /** Of several adjustments of a bill, the first one in the list wins. */
  lemma CurrentValueFirstAdjustment(bill: ContasBills.RecurringBill, adjustments: seq<ContasBills.BillAdjustment>, k: nat)
    requires k < |adjustments| && adjustments[k].billId == bill.id
    requires forall j :: 0 <= j < k ==> adjustments[j].billId != bill.id
    ensures GetCurrentBillValue(bill, adjustments) == adjustments[k].adjustedValue
  {
    ContasBills.FindAdjustmentFirst(adjustments, bill.id, k);
  }

  /** Only the bank counts: every item of the bank moves its balance. */
  predicate SameBank(item: Item, bank: string)
  {
    item.bank == bank
  }

  /** `initialBalance + bankMovements` for one bank. */
  function BankBalance(bank: string, rows: seq<BankBalanceRow>, monthlyItems: seq<Item>): real
  {
    BaseBalance(rows, bank) + MovementsOf(monthlyItems, bank, SameBank)
  }

  /** The record after the banks, in order. */
  function BalancesOver(banks: seq<string>, rows: seq<BankBalanceRow>, monthlyItems: seq<Item>): Record
  {
    if banks == [] then Empty
    else
      var bank := banks[|banks| - 1];
      Set(BalancesOver(banks[..|banks| - 1], rows, monthlyItems), bank, BankBalance(bank, rows, monthlyItems))
  }

  /** `calculateCurrentBalances`: `balances[bank] = initialBalance + bankMovements` for each of the five banks. */
  method CalculateCurrentBalances(rows: seq<BankBalanceRow>, monthlyItems: seq<Item>) returns (balances: Record)
    ensures balances == BalancesOver(Banks, rows, monthlyItems)
    ensures Valid(balances) && balances.keys == Banks
    ensures forall i :: 0 <= i < |Banks| ==> Banks[i] in balances.values && balances.values[Banks[i]] == BankBalance(Banks[i], rows, monthlyItems)
  {
    balances := Empty;
    for i := 0 to |Banks|
      invariant balances == BalancesOver(Banks[..i], rows, monthlyItems)
    {
      assert Banks[..i + 1][..i] == Banks[..i];
      var bank := Banks[i];
      var initialBalance := BaseBalance(rows, bank);
      var bankMovements := MovementsOf(monthlyItems, bank, SameBank);
      balances := Set(balances, bank, initialBalance + bankMovements);
    }
    assert Banks[..|Banks|] == Banks;
    BanksDistinct();
    BalancesOverSpec(Banks, rows, monthlyItems);
  }

  /** Over distinct banks the record is valid and lists exactly those banks, in order. */
  lemma {:induction false} BalancesOverKeys(banks: seq<string>, rows: seq<BankBalanceRow>, monthlyItems: seq<Item>)
    requires forall i, j :: 0 <= i < j < |banks| ==> banks[i] != banks[j]
    ensures Valid(BalancesOver(banks, rows, monthlyItems))
    ensures BalancesOver(banks, rows, monthlyItems).keys == banks
  {
    if banks != [] {
      var n := |banks| - 1;
      var init := banks[..n];
      BalancesOverKeys(init, rows, monthlyItems);
      var prev := BalancesOver(init, rows, monthlyItems);
      SetValid(prev, banks[n], BankBalance(banks[n], rows, monthlyItems));
      assert Listed(prev, banks[n]);
      assert banks[n] !in prev.keys by {
        forall i | 0 <= i < n ensures init[i] != banks[n] {
          assert init[i] == banks[i];
        }
      }
      assert banks == init + [banks[n]];
    }
  }

  /** Over distinct banks each bank holds its own balance. */
  lemma {:induction false} BalancesOverValues(banks: seq<string>, rows: seq<BankBalanceRow>, monthlyItems: seq<Item>)
    requires forall i, j :: 0 <= i < j < |banks| ==> banks[i] != banks[j]
    ensures forall i :: 0 <= i < |banks| ==>
      banks[i] in BalancesOver(banks, rows, monthlyItems).values &&
      BalancesOver(banks, rows, monthlyItems).values[banks[i]] == BankBalance(banks[i], rows, monthlyItems)
  {
    if banks != [] {
      var n := |banks| - 1;
      var init := banks[..n];
      BalancesOverValues(init, rows, monthlyItems);
      forall i | 0 <= i < n
        ensures init[i] == banks[i] && banks[i] != banks[n]
      {
      }
    }
  }

  /** Over distinct banks the record lists exactly those banks, in order, each with its balance. */
  lemma BalancesOverSpec(banks: seq<string>, rows: seq<BankBalanceRow>, monthlyItems: seq<Item>)
    requires forall i, j :: 0 <= i < j < |banks| ==> banks[i] != banks[j]
    ensures Valid(BalancesOver(banks, rows, monthlyItems))
    ensures BalancesOver(banks, rows, monthlyItems).keys == banks
    ensures forall i :: 0 <= i < |banks| ==>
      banks[i] in BalancesOver(banks, rows, monthlyItems).values &&
      BalancesOver(banks, rows, monthlyItems).values[banks[i]] == BankBalance(banks[i], rows, monthlyItems)
  {
    BalancesOverKeys(banks, rows, monthlyItems);
    BalancesOverValues(banks, rows, monthlyItems);
  }

  /** A bank with no configuration row starts from zero: its balance is its movements. */
  lemma UnconfiguredBank(rows: seq<BankBalanceRow>, monthlyItems: seq<Item>, bank: string)
    requires forall i :: 0 <= i < |rows| ==> rows[i].bankName != bank
    ensures BankBalance(bank, rows, monthlyItems) == MovementsOf(monthlyItems, bank, SameBank)
  {
  }

  /** An item of the bank adds its amount when it is an 'entrada' and subtracts it otherwise. */
  lemma ItemMovesBalance(rows: seq<BankBalanceRow>, monthlyItems: seq<Item>, item: Item)
    ensures BankBalance(item.bank, rows, monthlyItems + [item]) ==
      BankBalance(item.bank, rows, monthlyItems) + (if item.kind == Some("entrada") then item.amount else -item.amount)
  {
    assert (monthlyItems + [item])[..|monthlyItems|] == monthlyItems;
  }

  /** The sum of the bills' current values, of the paid ones only when `paidOnly`. */
  function BillsSum(bills: seq<ContasBills.RecurringBill>, adjustments: seq<ContasBills.BillAdjustment>, paidOnly: bool): real
  {
    if bills == [] then 0.0
    else
      var last := bills[|bills| - 1];
      BillsSum(bills[..|bills| - 1], adjustments, paidOnly) +
        (if !paidOnly || last.paidThisMonth then GetCurrentBillValue(last, adjustments) else 0.0)
  }

  /** The sum of the current values of the bills not paid this month. */
  function UnpaidSum(bills: seq<ContasBills.RecurringBill>, adjustments: seq<ContasBills.BillAdjustment>): real
  {
    if bills == [] then 0.0
    else
      var last := bills[|bills| - 1];
      UnpaidSum(bills[..|bills| - 1], adjustments) + (if last.paidThisMonth then 0.0 else GetCurrentBillValue(last, adjustments))
  }

  /** What is unpaid is the total less what is paid. */
  lemma {:induction false} UnpaidIsDifference(bills: seq<ContasBills.RecurringBill>, adjustments: seq<ContasBills.BillAdjustment>)
    ensures BillsSum(bills, adjustments, false) - BillsSum(bills, adjustments, true) == UnpaidSum(bills, adjustments)
  {
    if bills != [] {
      UnpaidIsDifference(bills[..|bills| - 1], adjustments);
    }
  }

  /** The sum of the balances of the given banks. */
  function BanksSum(banks: seq<string>, rows: seq<BankBalanceRow>, monthlyItems: seq<Item>): real
  {
    if banks == [] then 0.0
    else BanksSum(banks[..|banks| - 1], rows, monthlyItems) + BankBalance(banks[|banks| - 1], rows, monthlyItems)
  }

  /** The total of the record over distinct banks is the sum of their balances. */
  lemma {:induction false} BalancesTotal(banks: seq<string>, rows: seq<BankBalanceRow>, monthlyItems: seq<Item>)
    requires forall i, j :: 0 <= i < j < |banks| ==> banks[i] != banks[j]
    ensures Total(BalancesOver(banks, rows, monthlyItems)) == BanksSum(banks, rows, monthlyItems)
  {
    if banks != [] {
      var n := |banks| - 1;
      var init := banks[..n];
      BalancesTotal(init, rows, monthlyItems);
      BalancesOverKeys(init, rows, monthlyItems);
      assert banks[n] !in BalancesOver(init, rows, monthlyItems).values by {
        assert Listed(BalancesOver(init, rows, monthlyItems), banks[n]);
        forall i | 0 <= i < n ensures init[i] != banks[n] {
          assert init[i] == banks[i];
        }
      }
      SetTotal(BalancesOver(init, rows, monthlyItems), banks[n], BankBalance(banks[n], rows, monthlyItems));
    }
  }

  /** `calculateTotals`, given the balances `calculateCurrentBalances` returns. */
  function CalculateTotals(bills: seq<ContasBills.RecurringBill>, adjustments: seq<ContasBills.BillAdjustment>, balances: Record): (r: Totals)
    ensures r.unpaidBills == UnpaidSum(bills, adjustments)
    ensures r.paidBills + r.unpaidBills == r.totalBills
    ensures r.remainingCash == r.totalCash - r.unpaidBills
  {
    var totalBills := BillsSum(bills, adjustments, false);
    var paidBills := BillsSum(bills, adjustments, true);
    UnpaidIsDifference(bills, adjustments);
    var totalCash := Total(balances);
    Totals(totalBills, paidBills, totalBills - paidBills, totalCash, totalCash - (totalBills - paidBills))
  }

  /** With the balances of the five banks, the cash is the sum of their balances. */
  lemma TotalCashSpec(bills: seq<ContasBills.RecurringBill>, adjustments: seq<ContasBills.BillAdjustment>, rows: seq<BankBalanceRow>, monthlyItems: seq<Item>)
    ensures CalculateTotals(bills, adjustments, BalancesOver(Banks, rows, monthlyItems)).totalCash == BanksSum(Banks, rows, monthlyItems)
  {
    BanksDistinct();
    BalancesTotal(Banks, rows, monthlyItems);
  }
}
