/**
 * The budget logic of src/hooks/useOrcamentos.ts: each stored budget row is
 * tied to a business unit (by id, else by name), the month's expenses are
 * added up per unit, a new budget is checked before it is stored, and an
 * update sends only the fields it was given.
 *
 * The accent-sensitive `localeCompare(…) === 0` of unit names is the
 * parameter `sameName`; the `localeCompare` of the final sort is the
 * code-unit order of `Sorting.Below`.
 */
module Orcamentos {
  import opened Wrappers
  import Records
  import Sorting

  /** `BudgetRow`: a stored budget; `category` holds a unit id or, in older rows, a unit name. */
  datatype BudgetRow = BudgetRow(id: string, category: string, limitAmount: real, month: string, alertThreshold: Option<real>)

  /** `BusinessUnit`, the fields read here. */
  datatype BusinessUnit = BusinessUnit(id: string, name: string)

  /** A budget as the page shows it. */
  datatype Budget = Budget(id: string, businessUnitId: string, businessUnitName: string, limitAmount: real, month: string, alertThreshold: real)

  const DefaultThreshold := 80.0

  // ------------------------------------------------------------ resolution

  /**
   * `unitMap.get(id)` on `new Map(units.map(u => [u.id, u]))`: when two
   * units share an id, the later one is in the map.
   */
  function UnitById(units: seq<BusinessUnit>, id: string): (r: Option<BusinessUnit>)
    ensures r.None? <==> forall i :: 0 <= i < |units| ==> units[i].id != id
    ensures r.Some? ==> r.value in units && r.value.id == id
  {
    if units == [] then None
    else if units[|units| - 1].id == id then Some(units[|units| - 1])
    else UnitById(units[..|units| - 1], id)
  }

  /** The map holds the last unit with the id. */
  lemma {:induction false} UnitByIdLast(units: seq<BusinessUnit>, id: string, i: nat)
    requires i < |units| && units[i].id == id
    requires forall j :: i < j < |units| ==> units[j].id != id
    ensures UnitById(units, id) == Some(units[i])
  {
    if i < |units| - 1 {
      UnitByIdLast(units[..|units| - 1], id, i);
    }
  }

  /** `businessUnits.find(...)` from position `k` on: the first unit whose name is the same as `name`. */
  function FindByNameFrom(units: seq<BusinessUnit>, name: string, sameName: (string, string) -> bool, k: nat): (r: Option<BusinessUnit>)
    requires k <= |units|
    ensures r.None? <==> forall i :: k <= i < |units| ==> !sameName(units[i].name, name)
    ensures r.Some? ==> exists i: nat :: k <= i < |units| && units[i] == r.value && FirstNamed(units, name, sameName, k, i)
    decreases |units| - k
  {
    if k == |units| then None
    else if sameName(units[k].name, name) then Some(units[k])
    else FindByNameFrom(units, name, sameName, k + 1)
  }

  /** Unit `i` is the first from position `k` on whose name is the same as `name`. */
  ghost predicate FirstNamed(units: seq<BusinessUnit>, name: string, sameName: (string, string) -> bool, k: nat, i: nat)
  {
    k <= i < |units| && sameName(units[i].name, name) &&
    forall j :: k <= j < i ==> !sameName(units[j].name, name)
  }

  /** `findUnitByName`. */
  function FindUnitByName(units: seq<BusinessUnit>, name: string, sameName: (string, string) -> bool): Option<BusinessUnit>
  {
    FindByNameFrom(units, name, sameName, 0)
  }

  /** One raw budget as shown: the unit it names, its threshold defaulted. */
  function Resolve(budget: BudgetRow, units: seq<BusinessUnit>, sameName: (string, string) -> bool): Budget
  {
    var byId := UnitById(units, budget.category);
    var byName := if byId.None? then FindUnitByName(units, budget.category, sameName) else None;
    var resolvedUnitId := if byName.Some? then byName.value.id else budget.category;
    var unit := if byId.Some? then byId else byName;
    Budget(budget.id, resolvedUnitId, if unit.Some? then unit.value.name else budget.category,
      budget.limitAmount, budget.month, budget.alertThreshold.GetOr(DefaultThreshold))
  }

  /** A `category` that is a unit id keeps that id and shows the name of a unit with that id. */
  lemma ResolveById(budget: BudgetRow, units: seq<BusinessUnit>, sameName: (string, string) -> bool)
    requires exists i :: 0 <= i < |units| && units[i].id == budget.category
    ensures Resolve(budget, units, sameName).businessUnitId == budget.category
    ensures exists i :: 0 <= i < |units| && units[i].id == budget.category && units[i].name == Resolve(budget, units, sameName).businessUnitName
  {
  }

  /** A `category` that is no unit id but is a unit's name takes the first unit with that name. */
  lemma ResolveByName(budget: BudgetRow, units: seq<BusinessUnit>, sameName: (string, string) -> bool)
    requires forall i :: 0 <= i < |units| ==> units[i].id != budget.category
    requires exists i :: 0 <= i < |units| && sameName(units[i].name, budget.category)
    ensures exists i: nat :: (FirstNamed(units, budget.category, sameName, 0, i) &&
      Resolve(budget, units, sameName).businessUnitId == units[i].id &&
      Resolve(budget, units, sameName).businessUnitName == units[i].name)
  {
    var m := FindUnitByName(units, budget.category, sameName);
    var i :| 0 <= i < |units| && units[i] == m.value && FirstNamed(units, budget.category, sameName, 0, i);
    assert Resolve(budget, units, sameName).businessUnitId == units[i].id;
  }

  /** A `category` that names no unit is kept as both the unit id and the unit name. */
  lemma ResolveUnknown(budget: BudgetRow, units: seq<BusinessUnit>, sameName: (string, string) -> bool)
    requires forall i :: 0 <= i < |units| ==> units[i].id != budget.category && !sameName(units[i].name, budget.category)
    ensures Resolve(budget, units, sameName).businessUnitId == budget.category
    ensures Resolve(budget, units, sameName).businessUnitName == budget.category
  {
  }

  /** The id, limit and month are copied; a missing threshold becomes 80, a given one (0 included) is kept. */
  lemma ResolveCopies(budget: BudgetRow, units: seq<BusinessUnit>, sameName: (string, string) -> bool)
    ensures var b := Resolve(budget, units, sameName);
      b.id == budget.id && b.limitAmount == budget.limitAmount && b.month == budget.month &&
      (budget.alertThreshold.None? ==> b.alertThreshold == DefaultThreshold) &&
      (budget.alertThreshold.Some? ==> b.alertThreshold == budget.alertThreshold.value)
  {
  }

  /** `rawBudgets.map(...)`. */
  function ResolveAll(raw: seq<BudgetRow>, units: seq<BusinessUnit>, sameName: (string, string) -> bool): (r: seq<Budget>)
    ensures |r| == |raw|
    ensures forall i :: 0 <= i < |raw| ==> r[i] == Resolve(raw[i], units, sameName)
  {
    if raw == [] then [] else ResolveAll(raw[..|raw| - 1], units, sameName) + [Resolve(raw[|raw| - 1], units, sameName)]
  }

  /** The unit name a budget is sorted by. */
  function NameOf(b: Budget): string
  {
    b.businessUnitName
  }

  /** `budgets`: the resolved budgets, by unit name. */
  function Budgets(raw: seq<BudgetRow>, units: seq<BusinessUnit>, sameName: (string, string) -> bool): seq<Budget>
  {
    Sorting.SortBy(ResolveAll(raw, units, sameName), NameOf)
  }

  /** There is one budget per raw row, each a resolved row, in order of unit name. */
  lemma BudgetsSpec(raw: seq<BudgetRow>, units: seq<BusinessUnit>, sameName: (string, string) -> bool)
    ensures |Budgets(raw, units, sameName)| == |raw|
    ensures multiset(Budgets(raw, units, sameName)) == multiset(ResolveAll(raw, units, sameName))
    ensures Sorting.SortedBy(Budgets(raw, units, sameName), NameOf)
  {
    Sorting.SortBySorted(ResolveAll(raw, units, sameName), NameOf);
  }

  // ------------------------------------------------------------ spend per unit

  /** The fields of an expense row the spend reads; a null unit is None. */
  datatype Expense = Expense(amount: real, businessUnitId: Option<string>)

  const NoUnit := "sem-unidade"

  /** `item.business_unit_id || 'sem-unidade'`. */
  function UnitKey(item: Expense): string
  {
    if item.businessUnitId.None? || item.businessUnitId.value == "" then NoUnit else item.businessUnitId.value
  }

  /** The record the `reduce` has built after the given rows. */
  function Spend(items: seq<Expense>): Records.Record
  {
    if items == [] then Records.Empty
    else
      var last := items[|items| - 1];
      var acc := Spend(items[..|items| - 1]);
      Records.Set(acc, UnitKey(last), Records.Get(acc, UnitKey(last)) + last.amount)
  }

  /** The `reduce` that builds `gastosPorUnidade`. */
  method GastosPorUnidade(items: seq<Expense>) returns (gastos: Records.Record)
    ensures gastos == Spend(items)
  {
    gastos := Records.Empty;
    var i := 0;
    while i < |items|
      invariant 0 <= i <= |items|
      invariant gastos == Spend(items[..i])
    {
      var unitId := UnitKey(items[i]);
      gastos := Records.Set(gastos, unitId, Records.Get(gastos, unitId) + items[i].amount);
      assert items[..i + 1][..i] == items[..i];
      i := i + 1;
    }
    assert items[..i] == items;
  }

  /** The sum of the amounts of the rows whose unit key is `k`. */
  function SpentOn(items: seq<Expense>, k: string): real
  {
    if items == [] then 0.0
    else SpentOn(items[..|items| - 1], k) + (if UnitKey(items[|items| - 1]) == k then items[|items| - 1].amount else 0.0)
  }

  /** The sum of all amounts. */
  function TotalSpent(items: seq<Expense>): real
  {
    if items == [] then 0.0 else TotalSpent(items[..|items| - 1]) + items[|items| - 1].amount
  }

  lemma {:induction false} SpendValid(items: seq<Expense>)
    ensures Records.Valid(Spend(items))
  {
    if items != [] {
      var last := items[|items| - 1];
      var acc := Spend(items[..|items| - 1]);
      var v := Records.Get(acc, UnitKey(last)) + last.amount;
      assert Spend(items) == Records.Set(acc, UnitKey(last), v);
      SpendValid(items[..|items| - 1]);
      Records.SetValid(acc, UnitKey(last), v);
    }
  }

  /** A unit has an entry iff some row is under it; rows without a unit are under 'sem-unidade'. */
  lemma {:induction false} SpendKeys(items: seq<Expense>)
    ensures forall k :: k in Spend(items).values <==> exists i :: 0 <= i < |items| && UnitKey(items[i]) == k
  {
    if items != [] {
      var n := |items| - 1;
      SpendKeys(items[..n]);
      assert forall i :: 0 <= i < n ==> items[..n][i] == items[i];
    }
  }

  /** Each unit's entry is the sum of the amounts of its rows (zero for a unit without rows). */
  lemma {:induction false} SpendValues(items: seq<Expense>, k: string)
    ensures Records.Get(Spend(items), k) == SpentOn(items, k)
  {
    if items != [] {
      SpendValues(items[..|items| - 1], k);
    }
  }

  /** The entries add up to the sum of all amounts. */
  lemma {:induction false} SpendTotal(items: seq<Expense>)
    ensures Records.Total(Spend(items)) == TotalSpent(items)
  {
    if items != [] {
      var n := |items| - 1;
      var acc, key, amount := Spend(items[..n]), UnitKey(items[n]), items[n].amount;
      assert Spend(items) == Records.Set(acc, key, Records.Get(acc, key) + amount);
      assert TotalSpent(items) == TotalSpent(items[..n]) + amount;
      SpendTotal(items[..n]);
      SpendValid(items[..n]);
      Records.AddTotal(acc, key, amount);
    }
  }

  // ------------------------------------------------------------ create

  /** `CreateBudgetPayload`. */
  datatype CreatePayload = CreatePayload(businessUnitId: string, limitAmount: real, alertThreshold: real)

  /** The row the insert writes. */
  datatype BudgetInsert = BudgetInsert(category: string, limitAmount: real, alertThreshold: real, month: string, userId: string)

  const NotAuthenticated := "User not authenticated"
  const UnitRequired := "Selecione uma unidade de negócio"

  /** The validations of `createOrcamentoMutation` and the row it inserts; a signed-out user is None. */
  function Create(userId: Option<string>, data: CreatePayload, monthKey: string): (r: Result<BudgetInsert>)
    ensures r.Ok? <==> userId.Some? && data.businessUnitId != ""
    ensures userId.None? ==> r == Err(NotAuthenticated)
    ensures userId.Some? && data.businessUnitId == "" ==> r == Err(UnitRequired)
  {
    if userId.None? then Err(NotAuthenticated)
    else if data.businessUnitId == "" then Err(UnitRequired)
    else Ok(BudgetInsert(data.businessUnitId, data.limitAmount, data.alertThreshold, monthKey, userId.value))
  }

  /** The inserted row read back as a budget row. */
  function Stored(id: string, row: BudgetInsert): BudgetRow
  {
    BudgetRow(id, row.category, row.limitAmount, row.month, Some(row.alertThreshold))
  }

  /**
   * A created budget for an existing unit is shown under that unit, in the
   * selected month, with the given limit and threshold.
   */
  lemma CreateThenResolve(userId: Option<string>, data: CreatePayload, monthKey: string, id: string,
                          units: seq<BusinessUnit>, sameName: (string, string) -> bool)
    requires Create(userId, data, monthKey).Ok?
    requires exists i :: 0 <= i < |units| && units[i].id == data.businessUnitId
    ensures var b := Resolve(Stored(id, Create(userId, data, monthKey).value), units, sameName);
      b.businessUnitId == data.businessUnitId && b.month == monthKey &&
      b.limitAmount == data.limitAmount && b.alertThreshold == data.alertThreshold
  {
    var row := Stored(id, Create(userId, data, monthKey).value);
    ResolveById(row, units, sameName);
  }

  // ------------------------------------------------------------ update

  /** `UpdateBudgetPayload.data`: each field may be absent. */
  datatype UpdateData = UpdateData(businessUnitId: Option<string>, limitAmount: Option<real>, alertThreshold: Option<real>)

  /** The `payload` object: the columns to write. */
  datatype Patch = Patch(category: Option<string>, limitAmount: Option<real>, alertThreshold: Option<real>)

  /**
   * `updateOrcamentoMutation`'s payload, built field by field; None when it
   * has no key, in which case no request is sent.
   */
  method UpdatePayload(data: UpdateData) returns (request: Option<Patch>)
    ensures request.None? <==> (data.businessUnitId.None? || data.businessUnitId.value == "") && data.limitAmount.None? && data.alertThreshold.None?
    ensures request.Some? ==> request.value.limitAmount == data.limitAmount && request.value.alertThreshold == data.alertThreshold
    ensures request.Some? ==> request.value.category == (if data.businessUnitId.Some? && data.businessUnitId.value != "" then data.businessUnitId else None)
  {
    var payload := Patch(None, None, None);
    if data.businessUnitId.Some? && data.businessUnitId.value != "" {
      payload := payload.(category := data.businessUnitId);
    }
    if data.limitAmount.Some? {
      payload := payload.(limitAmount := data.limitAmount);
    }
    if data.alertThreshold.Some? {
      payload := payload.(alertThreshold := data.alertThreshold);
    }
    if payload == Patch(None, None, None) {
      return None;
    }
    request := Some(payload);
  }

  /** The row after the database writes the patch's columns. */
  function Apply(row: BudgetRow, patch: Patch): BudgetRow
  {
    row.(category := patch.category.GetOr(row.category),
         limitAmount := patch.limitAmount.GetOr(row.limitAmount),
         alertThreshold := if patch.alertThreshold.Some? then patch.alertThreshold else row.alertThreshold)
  }

  /**
   * An update changes exactly the fields it was given (an empty unit id
   * counts as not given); the id and the month are never changed.
   */
  lemma UpdateChangesGiven(row: BudgetRow, data: UpdateData, patch: Patch)
    requires patch.limitAmount == data.limitAmount && patch.alertThreshold == data.alertThreshold
    requires patch.category == (if data.businessUnitId.Some? && data.businessUnitId.value != "" then data.businessUnitId else None)
    ensures var after := Apply(row, patch);
      after.id == row.id && after.month == row.month &&
      after.category == (if data.businessUnitId.Some? && data.businessUnitId.value != "" then data.businessUnitId.value else row.category) &&
      after.limitAmount == (if data.limitAmount.Some? then data.limitAmount.value else row.limitAmount) &&
      after.alertThreshold == (if data.alertThreshold.Some? then data.alertThreshold else row.alertThreshold)
  {
  }
}
