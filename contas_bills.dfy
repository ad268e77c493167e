/**
 * The monthly view of the recurring bills (src/hooks/contas/useContasBills.ts):
 * which value a bill has this month, whether it is paid, and the list of
 * banks offered for bills. The fetched rows are parameters.
 */
module ContasBills {
  import opened Wrappers
  import Lists
  import Sorting

  /** A row of `recurring_bills`. */
  datatype RecurringBill = RecurringBill(
    id: string, name: string, value: real, dueDate: int, category: string,
    bank: string, recurring: bool, paidThisMonth: bool)

  /** A row of `recurring_bills_instances` for the selected month. */
  datatype BillInstance = BillInstance(id: string, billId: string, monthReference: string, valorAjustado: Option<real>, pago: bool)

  /** A row of the older `bill_adjustments` table. */
  datatype BillAdjustment = BillAdjustment(id: string, billId: string, month: string, adjustedValue: real)

  /** A bill with `paid_this_month` overwritten and `current_value` added. */
  datatype BillWithMonthlyData = BillWithMonthlyData(
    id: string, name: string, value: real, dueDate: int, category: string,
    bank: string, recurring: bool, paidThisMonth: bool, currentValue: real)

  /** `billInstances.find(inst => inst.bill_id === billId)`. */
  function FindInstance(instances: seq<BillInstance>, billId: string): (r: Option<BillInstance>)
    ensures r.Some? ==> r.value in instances && r.value.billId == billId
    ensures r.None? <==> forall i :: 0 <= i < |instances| ==> instances[i].billId != billId
  {
    if instances == [] then None
    else if instances[0].billId == billId then Some(instances[0])
    else FindInstance(instances[1..], billId)
  }

  /** `billAdjustments.find(adj => adj.bill_id === billId)`. */
  function FindAdjustment(adjustments: seq<BillAdjustment>, billId: string): (r: Option<BillAdjustment>)
    ensures r.Some? ==> r.value in adjustments && r.value.billId == billId
    ensures r.None? <==> forall i :: 0 <= i < |adjustments| ==> adjustments[i].billId != billId
  {
    if adjustments == [] then None
    else if adjustments[0].billId == billId then Some(adjustments[0])
    else FindAdjustment(adjustments[1..], billId)
  }

  /** The first match is the one at the first index with the bill's id. */
  lemma {:induction false} FindInstanceFirst(instances: seq<BillInstance>, billId: string, k: nat)
    requires k < |instances| && instances[k].billId == billId
    requires forall j :: 0 <= j < k ==> instances[j].billId != billId
    ensures FindInstance(instances, billId) == Some(instances[k])
  {
    if k > 0 {
      FindInstanceFirst(instances[1..], billId, k - 1);
    }
  }

  /** The value without the instance: the first legacy adjustment, else the bill's own value. */
  function LegacyValue(bill: RecurringBill, adjustments: seq<BillAdjustment>): real
  {
    match FindAdjustment(adjustments, bill.id)
    case Some(adjustment) => adjustment.adjustedValue
    case None => bill.value
  }

  /** `getCurrentBillValue`: the instance's adjusted value, else the legacy adjustment, else the bill's value. */
  function GetCurrentBillValue(bill: RecurringBill, instances: seq<BillInstance>, adjustments: seq<BillAdjustment>): real
  {
    match FindInstance(instances, bill.id)
    case Some(instance) => if instance.valorAjustado.Some? then instance.valorAjustado.value else LegacyValue(bill, adjustments)
    case None => LegacyValue(bill, adjustments)
  }

  /**
   * Only the first instance of the bill is consulted: its adjusted value
   * wins when present, and a null one falls through to the legacy
   * adjustment or the bill's value whatever later instances hold.
   */
  lemma CurrentValueFirstInstance(bill: RecurringBill, instances: seq<BillInstance>, adjustments: seq<BillAdjustment>, k: nat)
    requires k < |instances| && instances[k].billId == bill.id
    requires forall j :: 0 <= j < k ==> instances[j].billId != bill.id
    ensures instances[k].valorAjustado.Some? ==> GetCurrentBillValue(bill, instances, adjustments) == instances[k].valorAjustado.value
    ensures instances[k].valorAjustado.None? ==> GetCurrentBillValue(bill, instances, adjustments) == LegacyValue(bill, adjustments)
  {
    FindInstanceFirst(instances, bill.id, k);
  }

  /** Without an instance or an adjustment, the bill's own value is used. */
  lemma CurrentValueDefault(bill: RecurringBill, instances: seq<BillInstance>, adjustments: seq<BillAdjustment>)
    requires forall i :: 0 <= i < |instances| ==> instances[i].billId != bill.id
    requires forall i :: 0 <= i < |adjustments| ==> adjustments[i].billId != bill.id
    ensures GetCurrentBillValue(bill, instances, adjustments) == bill.value
  {
  }

  /** With no adjusted instance value, the first legacy adjustment wins. */
  lemma CurrentValueLegacy(bill: RecurringBill, instances: seq<BillInstance>, adjustments: seq<BillAdjustment>, k: nat)
    requires forall i :: 0 <= i < |instances| ==> instances[i].billId != bill.id
    requires k < |adjustments| && adjustments[k].billId == bill.id
    requires forall j :: 0 <= j < k ==> adjustments[j].billId != bill.id
    ensures GetCurrentBillValue(bill, instances, adjustments) == adjustments[k].adjustedValue
  {
    FindAdjustmentFirst(adjustments, bill.id, k);
  }

  lemma {:induction false} FindAdjustmentFirst(adjustments: seq<BillAdjustment>, billId: string, k: nat)
    requires k < |adjustments| && adjustments[k].billId == billId
    requires forall j :: 0 <= j < k ==> adjustments[j].billId != billId
    ensures FindAdjustment(adjustments, billId) == Some(adjustments[k])
  {
    if k > 0 {
      FindAdjustmentFirst(adjustments[1..], billId, k - 1);
    }
  }

  /** `isBillPaidThisMonth`: the first instance's `pago`, false without one. */
  function IsBillPaidThisMonth(billId: string, instances: seq<BillInstance>): (r: bool)
    ensures r <==> exists k :: 0 <= k < |instances| && instances[k].billId == billId && instances[k].pago &&
                                forall j :: 0 <= j < k ==> instances[j].billId != billId
  {
    match FindInstance(instances, billId)
    case Some(instance) =>
      FindInstanceIndex(instances, billId);
      instance.pago
    case None => false
  }

  /** The found instance sits at the first index with the id. */
  lemma FindInstanceIndex(instances: seq<BillInstance>, billId: string)
    ensures FindInstance(instances, billId).Some? ==>
      exists k :: 0 <= k < |instances| && instances[k] == FindInstance(instances, billId).value &&
                  forall j :: 0 <= j < k ==> instances[j].billId != billId
    ensures forall k :: 0 <= k < |instances| && instances[k].billId == billId &&
                        (forall j :: 0 <= j < k ==> instances[j].billId != billId) ==>
                        FindInstance(instances, billId) == Some(instances[k])
  {
    if FindInstance(instances, billId).Some? {
      FindInstanceFound(instances, billId);
    }
    forall k | 0 <= k < |instances| && instances[k].billId == billId && (forall j :: 0 <= j < k ==> instances[j].billId != billId)
      ensures FindInstance(instances, billId) == Some(instances[k])
    {
      FindInstanceFirst(instances, billId, k);
    }
  }

  lemma {:induction false} FindInstanceFound(instances: seq<BillInstance>, billId: string)
    requires FindInstance(instances, billId).Some?
    ensures exists k :: 0 <= k < |instances| && instances[k] == FindInstance(instances, billId).value &&
                        forall j :: 0 <= j < k ==> instances[j].billId != billId
  {
    if instances[0].billId == billId {
      assert instances[0] == FindInstance(instances, billId).value;
    } else {
      var rest := instances[1..];
      FindInstanceFound(rest, billId);
      var k :| 0 <= k < |rest| && rest[k] == FindInstance(rest, billId).value &&
               forall j :: 0 <= j < k ==> rest[j].billId != billId;
      assert instances[k + 1] == rest[k];
      forall j | 0 <= j < k + 1 ensures instances[j].billId != billId {
        if j > 0 {
          assert instances[j] == rest[j - 1];
        }
      }
    }
  }

  /** One bill with its monthly data. */
  function WithMonthlyData(bill: RecurringBill, instances: seq<BillInstance>, adjustments: seq<BillAdjustment>): BillWithMonthlyData
  {
    BillWithMonthlyData(bill.id, bill.name, bill.value, bill.dueDate, bill.category, bill.bank, bill.recurring,
                        IsBillPaidThisMonth(bill.id, instances), GetCurrentBillValue(bill, instances, adjustments))
  }

  /**
   * `getBillsWithMonthlyData`: one entry per bill, in order, every bill
   * field kept except `paid_this_month`, plus `current_value`.
   */
  function GetBillsWithMonthlyData(bills: seq<RecurringBill>, instances: seq<BillInstance>, adjustments: seq<BillAdjustment>): (r: seq<BillWithMonthlyData>)
    ensures |r| == |bills|
    ensures forall i :: 0 <= i < |bills| ==>
      r[i].id == bills[i].id && r[i].name == bills[i].name && r[i].value == bills[i].value &&
      r[i].dueDate == bills[i].dueDate && r[i].category == bills[i].category && r[i].bank == bills[i].bank &&
      r[i].recurring == bills[i].recurring &&
      r[i].paidThisMonth == IsBillPaidThisMonth(bills[i].id, instances) &&
      r[i].currentValue == GetCurrentBillValue(bills[i], instances, adjustments)
  {
    seq(|bills|, i requires 0 <= i < |bills| => WithMonthlyData(bills[i], instances, adjustments))
  }

  /** `.filter(Boolean)` on bank names: the empty name (and a missing one) is dropped. */
  function NonEmpty(banks: seq<string>): seq<string>
  {
    Lists.Filter(banks, (b: string) => b != "")
  }

  /**
   * `userBanks`: the configured names and the distinct non-empty names used
   * by transactions, each once, in JavaScript's default string order.
   */
  function UserBanks(configuredBanks: seq<string>, transactionBanks: seq<string>): seq<string>
  {
    Sorting.Sort(Lists.Dedup(configuredBanks + NonEmpty(Lists.Dedup(transactionBanks))))
  }

  /**
   * The bank list is sorted, has no repeats, and holds exactly the
   * configured names (even an empty one) and the non-empty transaction banks.
   */
  lemma UserBanksSpec(configuredBanks: seq<string>, transactionBanks: seq<string>, b: string)
    ensures Sorting.Sorted(UserBanks(configuredBanks, transactionBanks))
    ensures Lists.Distinct(UserBanks(configuredBanks, transactionBanks))
    ensures b in UserBanks(configuredBanks, transactionBanks) <==> b in configuredBanks || (b in transactionBanks && b != "")
  {
    var tx := Lists.Dedup(transactionBanks);
    Lists.DedupSpec(transactionBanks);
    Lists.FilterMembers(tx, (x: string) => x != "", b);
    var all := configuredBanks + NonEmpty(tx);
    Lists.DedupSpec(all);
    Sorting.SortSorted(Lists.Dedup(all));
    Sorting.SortDistinct(Lists.Dedup(all));
  }
}
