/**
 * The filter and selection state of the entries page
 * (src/hooks/useLancamentosState.ts): five filters, the selected ids, and
 * the filter that picks the visible items. The selected month is kept as
 * the date string the page shows; modal flags are left to the view.
 */
module LancamentosState {
  import opened Wrappers
  import opened Strings
  import Lists

  /** The fields of a `FinancialItem` the filter reads. */
  datatype Item = Item(id: string, description: string, category: string, kind: string, bank: string, businessUnitId: Option<string>)

  const All := "all"

  /**
   * The item passes: its description contains the search term ignoring
   * case, and each filter is either "all" (null for the unit) or equal to
   * the item's field.
   */
  predicate Passes(item: Item, searchTerm: string, filterType: string, filterCategory: string, filterBank: string, filterBusinessUnit: Option<string>)
  {
    Contains(Lower(item.description), Lower(searchTerm)) &&
    (filterCategory == All || item.category == filterCategory) &&
    (filterType == All || item.kind == filterType) &&
    (filterBank == All || item.bank == filterBank) &&
    (filterBusinessUnit.None? || item.businessUnitId == filterBusinessUnit)
  }

  /** `getFilteredItems`: the passing items, in order. */
  function FilterItems(items: seq<Item>, searchTerm: string, filterType: string, filterCategory: string, filterBank: string, filterBusinessUnit: Option<string>): seq<Item>
  {
    Lists.Filter(items, (item: Item) => Passes(item, searchTerm, filterType, filterCategory, filterBank, filterBusinessUnit))
  }

  /** The visible items are a subsequence of the items, and an item is visible iff it passes. */
  lemma FilterItemsSpec(items: seq<Item>, searchTerm: string, filterType: string, filterCategory: string, filterBank: string, filterBusinessUnit: Option<string>, x: Item)
    ensures Lists.IsSubsequence(FilterItems(items, searchTerm, filterType, filterCategory, filterBank, filterBusinessUnit), items)
    ensures x in FilterItems(items, searchTerm, filterType, filterCategory, filterBank, filterBusinessUnit) <==>
      x in items && Passes(x, searchTerm, filterType, filterCategory, filterBank, filterBusinessUnit)
  {
    var p := (item: Item) => Passes(item, searchTerm, filterType, filterCategory, filterBank, filterBusinessUnit);
    Lists.FilterSubsequence(items, p);
    Lists.FilterMembers(items, p, x);
  }

  /** With the initial filters (empty search, "all" three times, no unit) every item is visible. */
  lemma DefaultFiltersKeepAll(items: seq<Item>)
    ensures FilterItems(items, "", All, All, All, None) == items
  {
    var p := (item: Item) => Passes(item, "", All, All, All, None);
    forall i | 0 <= i < |items| ensures p(items[i]) {
      assert OccursAt(Lower(items[i].description), "", 0);
    }
    Lists.FilterAll(items, p);
  }

  /** The ids of the items, in order. */
  function Ids(items: seq<Item>): (r: seq<string>)
    ensures |r| == |items| && forall i :: 0 <= i < |items| ==> r[i] == items[i].id
  {
    seq(|items|, i requires 0 <= i < |items| => items[i].id)
  }

  /** The state the hook keeps. */
  class State {
    var searchTerm: string
    var filterType: string
    var filterCategory: string
    var filterBank: string
    var filterBusinessUnit: Option<string>
    var selectedMonth: string
    var periodType: string
    var selectedItems: seq<string>

    /** The initial state: no search, every filter "all", nothing selected, the period a month. */
    constructor(today: string)
      ensures searchTerm == "" && filterType == All && filterCategory == All && filterBank == All && filterBusinessUnit == None
      ensures selectedMonth == today && periodType == "month" && selectedItems == []
    {
      searchTerm := "";
      filterType := All;
      filterCategory := All;
      filterBank := All;
      filterBusinessUnit := None;
      selectedMonth := today;
      periodType := "month";
      selectedItems := [];
    }

    /** `getFilteredItems` under the current filters. */
    function GetFilteredItems(items: seq<Item>): (r: seq<Item>)
      reads this
      ensures Lists.IsSubsequence(r, items)
      ensures forall x :: x in r <==> x in items && Passes(x, searchTerm, filterType, filterCategory, filterBank, filterBusinessUnit)
    {
      FilterItemsSpecAll(items, searchTerm, filterType, filterCategory, filterBank, filterBusinessUnit);
      FilterItems(items, searchTerm, filterType, filterCategory, filterBank, filterBusinessUnit)
    }

    /** `handleClearFilters`: the five filters go back to their initial values; nothing else changes. */
    method ClearFilters()
      modifies this
      ensures searchTerm == "" && filterType == All && filterCategory == All && filterBank == All && filterBusinessUnit == None
      ensures selectedMonth == old(selectedMonth) && periodType == old(periodType) && selectedItems == old(selectedItems)
    {
      searchTerm := "";
      filterType := All;
      filterCategory := All;
      filterBank := All;
      filterBusinessUnit := None;
    }

    /** `handleSelectItem`: checking appends the id (even when already there); unchecking removes all its occurrences. */
    method SelectItem(itemId: string, checked: bool)
      modifies this
      ensures checked ==> selectedItems == old(selectedItems) + [itemId]
      ensures !checked ==> selectedItems == Lists.Filter(old(selectedItems), (id: string) => id != itemId)
      ensures searchTerm == old(searchTerm) && filterType == old(filterType) && filterCategory == old(filterCategory)
      ensures filterBank == old(filterBank) && filterBusinessUnit == old(filterBusinessUnit)
      ensures selectedMonth == old(selectedMonth) && periodType == old(periodType)
    {
      if checked {
        selectedItems := selectedItems + [itemId];
      } else {
        selectedItems := Lists.Filter(selectedItems, (id: string) => id != itemId);
      }
    }

    /** `handleSelectAll` and `handleSelectAllComplete`: the ids of the given items, or nothing. */
    method SelectAll(items: seq<Item>, checked: bool)
      modifies this
      ensures selectedItems == if checked then Ids(items) else []
      ensures searchTerm == old(searchTerm) && filterType == old(filterType) && filterCategory == old(filterCategory)
      ensures filterBank == old(filterBank) && filterBusinessUnit == old(filterBusinessUnit)
      ensures selectedMonth == old(selectedMonth) && periodType == old(periodType)
    {
      if checked {
        selectedItems := Ids(items);
      } else {
        selectedItems := [];
      }
    }

    /** `setSearchTerm`. */
    method SetSearchTerm(term: string)
      modifies this
      ensures searchTerm == term
      ensures filterType == old(filterType) && filterCategory == old(filterCategory) && filterBank == old(filterBank)
      ensures filterBusinessUnit == old(filterBusinessUnit) && selectedItems == old(selectedItems)
      ensures selectedMonth == old(selectedMonth) && periodType == old(periodType)
    {
      searchTerm := term;
    }

    /** `setFilterBusinessUnit`. */
    method SetFilterBusinessUnit(unit: Option<string>)
      modifies this
      ensures filterBusinessUnit == unit
      ensures searchTerm == old(searchTerm) && filterType == old(filterType) && filterCategory == old(filterCategory)
      ensures filterBank == old(filterBank) && selectedItems == old(selectedItems)
      ensures selectedMonth == old(selectedMonth) && periodType == old(periodType)
    {
      filterBusinessUnit := unit;
    }
  }

  /** The visible items, for every item at once. */
  lemma FilterItemsSpecAll(items: seq<Item>, searchTerm: string, filterType: string, filterCategory: string, filterBank: string, filterBusinessUnit: Option<string>)
    ensures Lists.IsSubsequence(FilterItems(items, searchTerm, filterType, filterCategory, filterBank, filterBusinessUnit), items)
    ensures forall x :: x in FilterItems(items, searchTerm, filterType, filterCategory, filterBank, filterBusinessUnit) <==>
      x in items && Passes(x, searchTerm, filterType, filterCategory, filterBank, filterBusinessUnit)
  {
    forall x ensures x in FilterItems(items, searchTerm, filterType, filterCategory, filterBank, filterBusinessUnit) <==>
      x in items && Passes(x, searchTerm, filterType, filterCategory, filterBank, filterBusinessUnit)
    {
      FilterItemsSpec(items, searchTerm, filterType, filterCategory, filterBank, filterBusinessUnit, x);
    }
    Lists.FilterSubsequence(items, (item: Item) => Passes(item, searchTerm, filterType, filterCategory, filterBank, filterBusinessUnit));
  }

  /** Unchecking removes every occurrence of the id and keeps the others, in order. */
  lemma UncheckRemovesAll(selected: seq<string>, itemId: string, x: string)
    ensures itemId !in Lists.Filter(selected, (id: string) => id != itemId)
    ensures Lists.IsSubsequence(Lists.Filter(selected, (id: string) => id != itemId), selected)
    ensures x != itemId ==> (x in Lists.Filter(selected, (id: string) => id != itemId) <==> x in selected)
  {
    var p := (id: string) => id != itemId;
    Lists.FilterMembers(selected, p, itemId);
    Lists.FilterMembers(selected, p, x);
    Lists.FilterSubsequence(selected, p);
  }
}
