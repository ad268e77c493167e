/**
 * The per-card totals of the credit-card charges for one month
 * (src/components/contas/CreditCardMonthlySummary.tsx): recurring charges
 * count in full every month, an installment charge counts one installment
 * in each month of its run, a single charge only in its creation month.
 *
 * `new Date(created_at)` read in local time is a parameter (`localMonth`);
 * the selected month is given as its local year and month.
 */
module CreditCardMonthlySummary {
  import opened Wrappers
  import opened Calendar
  import opened Records

  /** A row of `credit_card_charges`. */
  datatype Charge = Charge(
    id: string, description: string, card: string, value: real,
    kind: string, parcelas: Option<int>, ativo: bool, createdAt: string)

  /** `(selected year - start year) * 12 + (selected month - start month)`. */
  function MonthsDiff(start: YearMonth, selected: YearMonth): int
  {
    (selected.year - start.year) * 12 + (selected.month - start.month)
  }

  /** `charge.parcelas` is truthy: present and not zero. */
  predicate HasParcelas(c: Charge)
  {
    c.parcelas.Some? && c.parcelas.value != 0
  }

  /** What one active charge contributes to the selected month, before the `> 0` check. */
  function MonthlyValue(c: Charge, selected: YearMonth, localMonth: string -> YearMonth): real
  {
    if c.kind == "recorrente" then c.value
    else if c.kind == "parcelado" && HasParcelas(c) then
      var diff := MonthsDiff(localMonth(c.createdAt), selected);
      if 0 <= diff < c.parcelas.value then c.value / (c.parcelas.value as real) else 0.0
    else if c.kind == "avulso" then
      (if localMonth(c.createdAt) == selected then c.value else 0.0)
    else 0.0
  }

  /** The rules of each charge type. */
  lemma MonthlyValueCases(c: Charge, selected: YearMonth, localMonth: string -> YearMonth)
    ensures c.kind == "recorrente" ==> MonthlyValue(c, selected, localMonth) == c.value
    ensures c.kind == "parcelado" && HasParcelas(c) ==>
      var diff := MonthsDiff(localMonth(c.createdAt), selected);
      MonthlyValue(c, selected, localMonth) == if 0 <= diff < c.parcelas.value then c.value / (c.parcelas.value as real) else 0.0
    ensures c.kind == "parcelado" && !HasParcelas(c) ==> MonthlyValue(c, selected, localMonth) == 0.0
    ensures c.kind == "avulso" ==>
      MonthlyValue(c, selected, localMonth) == if localMonth(c.createdAt) == selected then c.value else 0.0
    ensures c.kind !in {"recorrente", "parcelado", "avulso"} ==> MonthlyValue(c, selected, localMonth) == 0.0
  {
  }

  /**
   * An installment charge of `n` installments counts in exactly `n`
   * consecutive months starting with its creation month: the month `k`
   * months later gets `value / n` iff `0 <= k < n`.
   */
  lemma InstallmentMonths(c: Charge, localMonth: string -> YearMonth, k: int)
    requires c.kind == "parcelado" && c.parcelas.Some? && c.parcelas.value > 0
    requires ValidMonth(localMonth(c.createdAt))
    ensures MonthlyValue(c, AddMonths(localMonth(c.createdAt), k), localMonth) ==
      if 0 <= k < c.parcelas.value then c.value / (c.parcelas.value as real) else 0.0
  {
    var start := localMonth(c.createdAt);
    var month := AddMonths(start, k);
    assert MonthsDiff(start, month) == MonthIndex(month) - MonthIndex(start);
  }

  /** `if (!totals[card]) totals[card] = 0; totals[card] += value`, only for a value above zero. */
  function AddCharge(t: Record, card: string, value: real): Record
  {
    if value > 0.0 then
      var base := if card in t.values && t.values[card] != 0.0 then t.values[card] else 0.0;
      Set(t, card, base + value)
    else t
  }

  /** The totals after the charges, in order; inactive charges are skipped. */
  function TotalsOf(charges: seq<Charge>, selected: YearMonth, localMonth: string -> YearMonth): Record
  {
    if charges == [] then Empty
    else
      var c := charges[|charges| - 1];
      var t := TotalsOf(charges[..|charges| - 1], selected, localMonth);
      if c.ativo then AddCharge(t, c.card, MonthlyValue(c, selected, localMonth)) else t
  }

  /** `calculateMonthlyTotals`: the filter on `ativo` and the `forEach` over the rest. */
  method CalculateMonthlyTotals(charges: seq<Charge>, selected: YearMonth, localMonth: string -> YearMonth) returns (totals: Record)
    ensures totals == TotalsOf(charges, selected, localMonth)
    ensures forall k :: k in totals.values <==> exists i :: 0 <= i < |charges| && Counts(charges[i], k, selected, localMonth)
    ensures forall k :: k in totals.values ==> totals.values[k] == CardTotal(charges, k, selected, localMonth) && totals.values[k] > 0.0
  {
    totals := Empty;
    for i := 0 to |charges|
      invariant totals == TotalsOf(charges[..i], selected, localMonth)
    {
      assert charges[..i + 1][..i] == charges[..i];
      var charge := charges[i];
      if !charge.ativo {
        continue;
      }
      var monthlyValue := MonthlyValue(charge, selected, localMonth);
      if monthlyValue > 0.0 {
        if !(charge.card in totals.values && totals.values[charge.card] != 0.0) {
          totals := Set(totals, charge.card, 0.0);
        }
        totals := Set(totals, charge.card, totals.values[charge.card] + monthlyValue);
      }
    }
    assert charges[..|charges|] == charges;
    TotalsSpec(charges, selected, localMonth);
  }

  /** An active charge of card `k` that adds a positive value this month. */
  predicate Counts(c: Charge, k: string, selected: YearMonth, localMonth: string -> YearMonth)
  {
    c.ativo && c.card == k && MonthlyValue(c, selected, localMonth) > 0.0
  }

  /** What a charge adds to card `k`: its monthly value when it counts, else nothing. */
  function Contribution(c: Charge, k: string, selected: YearMonth, localMonth: string -> YearMonth): real
  {
    if Counts(c, k, selected, localMonth) then MonthlyValue(c, selected, localMonth) else 0.0
  }

  /** The sum of the contributions of the charges to card `k`. */
  function CardTotal(charges: seq<Charge>, k: string, selected: YearMonth, localMonth: string -> YearMonth): real
  {
    if charges == [] then 0.0
    else CardTotal(charges[..|charges| - 1], k, selected, localMonth) + Contribution(charges[|charges| - 1], k, selected, localMonth)
  }

  /** What an active charge adds to the grand total: its monthly value when above zero. */
  function PositivePart(c: Charge, selected: YearMonth, localMonth: string -> YearMonth): real
  {
    if c.ativo && MonthlyValue(c, selected, localMonth) > 0.0 then MonthlyValue(c, selected, localMonth) else 0.0
  }

  /** The sum over every charge of what it adds. */
  function AllCharges(charges: seq<Charge>, selected: YearMonth, localMonth: string -> YearMonth): real
  {
    if charges == [] then 0.0
    else AllCharges(charges[..|charges| - 1], selected, localMonth) + PositivePart(charges[|charges| - 1], selected, localMonth)
  }

  /**
   * A card is a key iff some active charge of it adds a positive value;
   * its total is the sum of those values, and so it is above zero.
   */
  lemma TotalsSpec(charges: seq<Charge>, selected: YearMonth, localMonth: string -> YearMonth)
    ensures Valid(TotalsOf(charges, selected, localMonth))
    ensures forall k :: k in TotalsOf(charges, selected, localMonth).values <==>
      exists i :: 0 <= i < |charges| && Counts(charges[i], k, selected, localMonth)
    ensures forall k :: k in TotalsOf(charges, selected, localMonth).values ==>
      TotalsOf(charges, selected, localMonth).values[k] == CardTotal(charges, k, selected, localMonth) &&
      TotalsOf(charges, selected, localMonth).values[k] > 0.0
  {
    TotalsValid(charges, selected, localMonth);
    TotalsKeys(charges, selected, localMonth);
    TotalsValues(charges, selected, localMonth);
  }

  /** Every card in the totals is listed once. */
  lemma {:induction false} TotalsValid(charges: seq<Charge>, selected: YearMonth, localMonth: string -> YearMonth)
    ensures Valid(TotalsOf(charges, selected, localMonth))
  {
    if charges != [] {
      var n := |charges| - 1;
      var c := charges[n];
      var t := TotalsOf(charges[..n], selected, localMonth);
      TotalsValid(charges[..n], selected, localMonth);
      if c.ativo {
        var v := MonthlyValue(c, selected, localMonth);
        var base := if c.card in t.values && t.values[c.card] != 0.0 then t.values[c.card] else 0.0;
        if v > 0.0 {
          SetValid(t, c.card, base + v);
        }
      }
    }
  }

  /** A card is a key iff some charge counts for it. */
  lemma {:induction false} TotalsKeys(charges: seq<Charge>, selected: YearMonth, localMonth: string -> YearMonth)
    ensures forall k :: k in TotalsOf(charges, selected, localMonth).values <==>
      exists i :: 0 <= i < |charges| && Counts(charges[i], k, selected, localMonth)
  {
    if charges != [] {
      var n := |charges| - 1;
      var init := charges[..n];
      TotalsKeys(init, selected, localMonth);
      assert charges == init + [charges[n]];
      forall k ensures k in TotalsOf(charges, selected, localMonth).values <==>
        exists i :: 0 <= i < |charges| && Counts(charges[i], k, selected, localMonth)
      {
        SomeCountsSnoc(init, charges[n], k, selected, localMonth);
      }
    }
  }

  /** Some charge of `init + [c]` counts for `k` iff one of `init` does or `c` does. */
  lemma SomeCountsSnoc(init: seq<Charge>, c: Charge, k: string, selected: YearMonth, localMonth: string -> YearMonth)
    ensures (exists i :: 0 <= i < |init + [c]| && Counts((init + [c])[i], k, selected, localMonth)) <==>
      (exists i :: 0 <= i < |init| && Counts(init[i], k, selected, localMonth)) || Counts(c, k, selected, localMonth)
  {
    var charges := init + [c];
    if exists i :: 0 <= i < |init| && Counts(init[i], k, selected, localMonth) {
      var i :| 0 <= i < |init| && Counts(init[i], k, selected, localMonth);
      assert charges[i] == init[i];
    }
    if Counts(c, k, selected, localMonth) {
      assert charges[|init|] == c;
    }
    if exists i :: 0 <= i < |charges| && Counts(charges[i], k, selected, localMonth) {
      var i :| 0 <= i < |charges| && Counts(charges[i], k, selected, localMonth);
      if i < |init| {
        assert init[i] == charges[i];
      }
    }
  }

  /** The total of a card is the sum of what its charges add, and above zero. */
  lemma {:induction false} TotalsValues(charges: seq<Charge>, selected: YearMonth, localMonth: string -> YearMonth)
    ensures forall k :: k in TotalsOf(charges, selected, localMonth).values ==>
      TotalsOf(charges, selected, localMonth).values[k] == CardTotal(charges, k, selected, localMonth) &&
      TotalsOf(charges, selected, localMonth).values[k] > 0.0
  {
    if charges != [] {
      var n := |charges| - 1;
      var init := charges[..n];
      var t := TotalsOf(init, selected, localMonth);
      TotalsValues(init, selected, localMonth);
      TotalsKeys(init, selected, localMonth);
      forall k | k in TotalsOf(charges, selected, localMonth).values
        ensures TotalsOf(charges, selected, localMonth).values[k] == CardTotal(charges, k, selected, localMonth)
      {
        if k !in t.values {
          NoCountZero(init, k, selected, localMonth);
        }
      }
    }
  }

  /** A card no charge counts for has a zero sum. */
  lemma {:induction false} NoCountZero(charges: seq<Charge>, k: string, selected: YearMonth, localMonth: string -> YearMonth)
    requires forall i :: 0 <= i < |charges| ==> !Counts(charges[i], k, selected, localMonth)
    ensures CardTotal(charges, k, selected, localMonth) == 0.0
  {
    if charges != [] {
      var n := |charges| - 1;
      assert forall i :: 0 <= i < n ==> charges[..n][i] == charges[i];
      NoCountZero(charges[..n], k, selected, localMonth);
    }
  }

  /** `grandTotal`: the sum of the card totals. */
  function GrandTotal(t: Record): real
  {
    Total(t)
  }

  /** One charge adds its positive value to the grand total. */
  lemma AddChargeTotal(t: Record, card: string, v: real)
    requires Valid(t) && forall k :: k in t.values ==> t.values[k] > 0.0
    ensures GrandTotal(AddCharge(t, card, v)) == GrandTotal(t) + (if v > 0.0 then v else 0.0)
  {
    if v > 0.0 {
      SetTotal(t, card, Get(t, card) + v);
    }
  }

  /** The grand total is the sum over every active charge of its positive monthly value. */
  lemma {:induction false} GrandTotalSpec(charges: seq<Charge>, selected: YearMonth, localMonth: string -> YearMonth)
    ensures GrandTotal(TotalsOf(charges, selected, localMonth)) == AllCharges(charges, selected, localMonth)
  {
    if charges != [] {
      var n := |charges| - 1;
      var c := charges[n];
      GrandTotalSpec(charges[..n], selected, localMonth);
      TotalsSpec(charges[..n], selected, localMonth);
      if c.ativo {
        AddChargeTotal(TotalsOf(charges[..n], selected, localMonth), c.card, MonthlyValue(c, selected, localMonth));
      }
    }
  }

  /**
   * The card list is empty exactly when no active charge adds a positive
   * value this month, and then there is nothing to show and the grand total
   * is zero.
   */
  lemma NoCardsZero(charges: seq<Charge>, selected: YearMonth, localMonth: string -> YearMonth)
    ensures TotalsOf(charges, selected, localMonth).keys == [] <==>
      forall i :: 0 <= i < |charges| ==> PositivePart(charges[i], selected, localMonth) == 0.0
    ensures TotalsOf(charges, selected, localMonth).keys == [] ==> GrandTotal(TotalsOf(charges, selected, localMonth)) == 0.0
  {
    var t := TotalsOf(charges, selected, localMonth);
    TotalsSpec(charges, selected, localMonth);
    if t.keys == [] {
      forall i | 0 <= i < |charges|
        ensures PositivePart(charges[i], selected, localMonth) == 0.0
      {
        assert Listed(t, charges[i].card);
        assert !Counts(charges[i], charges[i].card, selected, localMonth);
      }
    } else {
      var k := t.keys[0];
      assert Listed(t, k);
      var i :| 0 <= i < |charges| && Counts(charges[i], k, selected, localMonth);
      assert PositivePart(charges[i], selected, localMonth) > 0.0;
    }
  }
}
