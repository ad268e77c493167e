/**
 * The bank list and the period balances of src/hooks/useBankBalances.ts.
 * The fetched `bank_balances` rows and the `bank` column of the user's
 * items are parameters; so is today's date.
 */
module BankBalances {
  import Lists
  import Sorting
  import opened ContasCalculations
  import opened BankBalancesCalculations

  /** `[...new Set(itemsBanks.map(item => item.bank))].filter(Boolean)`; a missing bank is the empty name. */
  function BanksFromItems(itemBanks: seq<string>): seq<string>
  {
    Lists.Filter(Lists.Dedup(itemBanks), (b: string) => b != "")
  }

  /** `bankBalances.map(balance => balance.bank_name)`. */
  function BanksFromBalances(rows: seq<BankBalanceRow>): (r: seq<string>)
    ensures |r| == |rows| && forall i :: 0 <= i < |rows| ==> r[i] == rows[i].bankName
  {
    seq(|rows|, i requires 0 <= i < |rows| => rows[i].bankName)
  }

  /** `availableBanks`: the item banks, then the configured names, each once. */
  function AvailableBanks(itemBanks: seq<string>, rows: seq<BankBalanceRow>): seq<string>
  {
    Lists.Dedup(BanksFromItems(itemBanks) + BanksFromBalances(rows))
  }

  /** The item banks are the distinct non-empty ones, and a name is among them iff it is a non-empty item bank. */
  lemma BanksFromItemsSpec(itemBanks: seq<string>)
    ensures Lists.Distinct(BanksFromItems(itemBanks))
    ensures forall b :: b in BanksFromItems(itemBanks) <==> b in itemBanks && b != ""
  {
    var p := (x: string) => x != "";
    Lists.DedupSpec(itemBanks);
    FilterDedupDistinct(Lists.Dedup(itemBanks), p);
    forall b ensures b in BanksFromItems(itemBanks) <==> b in itemBanks && b != "" {
      Lists.FilterMembers(Lists.Dedup(itemBanks), p, b);
    }
  }

  /** No bank is listed twice, and a name is listed iff it is a non-empty item bank or a configured name. */
  lemma AvailableBanksMembers(itemBanks: seq<string>, rows: seq<BankBalanceRow>, b: string)
    ensures Lists.Distinct(AvailableBanks(itemBanks, rows))
    ensures b in AvailableBanks(itemBanks, rows) <==> (b in itemBanks && b != "") || exists i :: 0 <= i < |rows| && rows[i].bankName == b
  {
    var fromRows := BanksFromBalances(rows);
    BanksFromItemsSpec(itemBanks);
    Lists.DedupSpec(BanksFromItems(itemBanks) + fromRows);
    if b in fromRows {
      var i :| 0 <= i < |fromRows| && fromRows[i] == b;
    }
  }

  /**
   * The list begins with the distinct non-empty item banks in the order
   * first seen; the configured names that are not item banks follow.
   */
  lemma AvailableBanksOrder(itemBanks: seq<string>, rows: seq<BankBalanceRow>)
    ensures BanksFromItems(itemBanks) <= AvailableBanks(itemBanks, rows)
    ensures forall i :: |BanksFromItems(itemBanks)| <= i < |AvailableBanks(itemBanks, rows)| ==>
      AvailableBanks(itemBanks, rows)[i] !in BanksFromItems(itemBanks) && AvailableBanks(itemBanks, rows)[i] in BanksFromBalances(rows)
  {
    BanksFromItemsSpec(itemBanks);
    Lists.DedupDistinct(BanksFromItems(itemBanks));
    Lists.DedupAppend(BanksFromItems(itemBanks), BanksFromBalances(rows));
  }

  /** Filtering keeps a list without repeats free of repeats. */
  lemma {:induction false} FilterDedupDistinct(xs: seq<string>, p: string -> bool)
    requires Lists.Distinct(xs)
    ensures Lists.Distinct(Lists.Filter(xs, p))
  {
    if xs != [] {
      FilterDedupDistinct(xs[1..], p);
      Lists.FilterMembers(xs[1..], p, xs[0]);
      assert xs[0] !in xs[1..] by {
        forall i | 0 <= i < |xs| - 1 ensures xs[1..][i] != xs[0] {
          assert xs[1..][i] == xs[i + 1];
        }
      }
    }
  }

  /** `item.bank === bank && (!item.source || item.source === 'manual') && item.date >= today`. */
  predicate FromToday(today: string, item: Item, bank: string)
  {
    item.bank == bank && IsManual(item) && Sorting.AtMost(today, item.date)
  }

  /** `useCalculatedBankBalances`: each bank's base plus its manual period items dated today or later. */
  function CalculatedBankBalances(banks: seq<string>, rows: seq<BankBalanceRow>, periodItems: seq<Item>, today: string): (r: seq<BankResult>)
    ensures |r| == |banks|
    ensures forall i :: 0 <= i < |banks| ==> r[i].name == banks[i]
  {
    BankResults(banks, rows, periodItems, (item, bank) => FromToday(today, item, bank))
  }

  /**
   * The previous balance is the configured base (0 for an unconfigured
   * bank), and the balance moves from it by the signed period items of
   * the bank dated today or later.
   */
  lemma CalculatedBankBalancesSpec(banks: seq<string>, rows: seq<BankBalanceRow>, periodItems: seq<Item>, today: string, i: nat)
    requires i < |banks|
    ensures CalculatedBankBalances(banks, rows, periodItems, today)[i].previousBalance == BaseBalance(rows, banks[i])
    ensures (forall j :: 0 <= j < |rows| ==> rows[j].bankName != banks[i]) ==>
      CalculatedBankBalances(banks, rows, periodItems, today)[i].previousBalance == 0.0
    ensures CalculatedBankBalances(banks, rows, periodItems, today)[i].balance - BaseBalance(rows, banks[i]) ==
      MovementsOf(periodItems, banks[i], (item, bank) => FromToday(today, item, bank))
  {
  }

  /** A period item dated before today, or an imported one, changes no balance. */
  lemma PastOrImportedIgnored(banks: seq<string>, rows: seq<BankBalanceRow>, periodItems: seq<Item>, today: string, item: Item)
    requires !Sorting.AtMost(today, item.date) || !IsManual(item)
    ensures CalculatedBankBalances(banks, rows, periodItems + [item], today) == CalculatedBankBalances(banks, rows, periodItems, today)
  {
    forall i | 0 <= i < |banks|
      ensures CalculatedBankBalances(banks, rows, periodItems + [item], today)[i] == CalculatedBankBalances(banks, rows, periodItems, today)[i]
    {
      NewItemEffect(banks, rows, periodItems, item, (it, bank) => FromToday(today, it, bank), i);
    }
  }
}
