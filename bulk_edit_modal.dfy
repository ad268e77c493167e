/**
 * The bulk-edit dialog of src/components/BulkEditModal.tsx: the user picks
 * a business unit and a category for the selected entries; the category
 * list starts from a table by entry type and unit name and can be added
 * to, renamed in and removed from before one is picked.
 *
 * The table `CATEGORIES_BY_TYPE_AND_UNIT` is the parameter `table`; the
 * business units and the entries' type, which the dialog fetches, are set
 * by `SetBusinessUnits` and `SetItemsType`.
 */
module BulkEditModal {
  import opened Wrappers
  import Lists
  import Strings

  /** The fields of a business unit the dialog reads. */
  datatype Unit = Unit(id: string, name: string)

  /** `units.find(u => u.id === id)`: the first unit with the id. */
  function FindUnit(units: seq<Unit>, id: string): (r: Option<Unit>)
    ensures r.None? <==> forall i :: 0 <= i < |units| ==> units[i].id != id
    ensures r.Some? ==> r.value.id == id && r.value in units
  {
    if units == [] then None
    else if units[0].id == id then Some(units[0])
    else FindUnit(units[1..], id)
  }

  /** `CATEGORIES_BY_TYPE_AND_UNIT[kind]?.[unitName] || []`. */
  function DefaultsFor(table: map<string, map<string, seq<string>>>, kind: string, unitName: string): seq<string>
  {
    if kind in table && unitName in table[kind] then table[kind][unitName] else []
  }

  /** The update `handleSubmit` sends for the selected entries. */
  datatype BulkUpdate = BulkUpdate(ids: seq<string>, businessUnitId: string, category: string)

  const UnitRequired := "Selecione uma unidade de negócio"
  const CategoryRequired := "Selecione uma categoria"

  /** Renaming every `from` to `to` and then every `to` back to `from` gives the list back when `to` was not listed. */
  lemma RenameBack(categories: seq<string>, from: string, to: string)
    requires to !in categories
    ensures Lists.ReplaceValue(Lists.ReplaceValue(categories, from, to), to, from) == categories
  {
  }

  /** After a rename to a new name, the old name is gone and the new one is there iff the old one was. */
  lemma RenameMoves(categories: seq<string>, from: string, to: string)
    requires from != to
    ensures from !in Lists.ReplaceValue(categories, from, to)
    ensures to in Lists.ReplaceValue(categories, from, to) <==> (from in categories || to in categories)
  {
    var r := Lists.ReplaceValue(categories, from, to);
    if from in categories {
      var i :| 0 <= i < |categories| && categories[i] == from;
      assert r[i] == to;
    }
    if to in categories {
      var i :| 0 <= i < |categories| && categories[i] == to;
      assert r[i] == to;
    }
  }

  /** A rename keeps every other name and puts the new name where the old one was. */
  lemma RenameKeeps(categories: seq<string>, from: string, to: string)
    ensures forall x :: x in categories && x != from ==> x in Lists.ReplaceValue(categories, from, to)
    ensures from in categories ==> to in Lists.ReplaceValue(categories, from, to)
  {
    var r := Lists.ReplaceValue(categories, from, to);
    forall x | x in categories && x != from ensures x in r {
      var i :| 0 <= i < |categories| && categories[i] == x;
      assert r[i] == x;
    }
    if from in categories {
      var i :| 0 <= i < |categories| && categories[i] == from;
      assert r[i] == to;
    }
  }

  /** The dialog's state. */
  class Modal {
    var businessUnitId: string
    var category: string
    var businessUnits: seq<Unit>
    var categories: seq<string>
    var selectedItemsType: string
    var newCategory: string
    var editingCategory: Option<string>
    var editedCategoryName: string
    var showAddCategory: bool
    var showManageCategories: bool

    /**
     * The picked category, if any, is one of the listed categories; none
     * is picked without a unit; nothing is listed or picked before the
     * entries' type is known.
     */
    predicate Valid()
      reads this
    {
      (category == "" || category in categories) &&
      (businessUnitId == "" ==> category == "") &&
      (selectedItemsType == "" ==> categories == [] && category == "")
    }

    /** `showCategoriesSection`: the category controls are on screen. */
    predicate CategoriesShown()
      reads this
    {
      businessUnitId != "" && |categories| > 0
    }

    /** Nothing picked, nothing listed, nothing being edited. */
    constructor()
      ensures Valid()
      ensures businessUnitId == "" && category == "" && businessUnits == [] && categories == []
      ensures selectedItemsType == "" && newCategory == "" && editingCategory == None && editedCategoryName == "" && !showAddCategory
      ensures !showManageCategories
    {
      businessUnitId := "";
      category := "";
      businessUnits := [];
      categories := [];
      selectedItemsType := "";
      newCategory := "";
      editingCategory := None;
      editedCategoryName := "";
      showAddCategory := false;
      showManageCategories := false;
    }

    /**
     * The effect on type, unit and units: with a type and a unit chosen
     * and the unit known, the list becomes that unit's defaults for the
     * type and the picked category is cleared; with the unit unknown
     * nothing changes; without a type or a unit the list is emptied.
     */
    method SyncCategories(table: map<string, map<string, seq<string>>>)
      modifies this
      ensures showManageCategories == old(showManageCategories)
      ensures selectedItemsType != "" && businessUnitId != "" && FindUnit(businessUnits, businessUnitId).Some? ==>
        categories == DefaultsFor(table, selectedItemsType, FindUnit(businessUnits, businessUnitId).value.name) && category == ""
      ensures selectedItemsType != "" && businessUnitId != "" && FindUnit(businessUnits, businessUnitId).None? ==>
        categories == old(categories) && category == old(category)
      ensures selectedItemsType == "" || businessUnitId == "" ==> categories == [] && category == old(category)
      ensures businessUnitId == old(businessUnitId) && businessUnits == old(businessUnits) && selectedItemsType == old(selectedItemsType)
      ensures newCategory == old(newCategory) && editingCategory == old(editingCategory)
      ensures editedCategoryName == old(editedCategoryName) && showAddCategory == old(showAddCategory)
    {
      if selectedItemsType != "" && businessUnitId != "" {
        var selectedUnit := FindUnit(businessUnits, businessUnitId);
        if selectedUnit.Some? {
          categories := DefaultsFor(table, selectedItemsType, selectedUnit.value.name);
          category := "";
        }
      } else {
        categories := [];
      }
    }

    /** The unit select: the unit is set, the category cleared, and the list follows the unit. */
    method ChangeUnit(id: string, table: map<string, map<string, seq<string>>>)
      modifies this
      ensures showManageCategories == old(showManageCategories)
      ensures Valid()
      ensures businessUnitId == id && category == ""
      ensures selectedItemsType != "" && id != "" && FindUnit(businessUnits, id).Some? ==>
        categories == DefaultsFor(table, selectedItemsType, FindUnit(businessUnits, id).value.name)
      ensures businessUnits == old(businessUnits) && selectedItemsType == old(selectedItemsType)
    {
      businessUnitId := id;
      category := "";
      SyncCategories(table);
    }

    /** The fetched entry type arrives; the list follows. */
    method SetItemsType(kind: string, table: map<string, map<string, seq<string>>>)
      modifies this
      ensures showManageCategories == old(showManageCategories)
      requires Valid()
      ensures kind != "" ==> Valid()
      ensures selectedItemsType == kind && businessUnitId == old(businessUnitId) && businessUnits == old(businessUnits)
    {
      selectedItemsType := kind;
      SyncCategories(table);
    }

    /** The fetched business units arrive; the list follows. */
    method SetBusinessUnits(units: seq<Unit>, table: map<string, map<string, seq<string>>>)
      modifies this
      ensures showManageCategories == old(showManageCategories)
      requires Valid()
      ensures Valid()
      ensures businessUnits == units && businessUnitId == old(businessUnitId) && selectedItemsType == old(selectedItemsType)
    {
      businessUnits := units;
      SyncCategories(table);
    }

    /** The category select picks one of the listed categories. */
    method SetCategory(c: string)
      modifies this
      ensures showManageCategories == old(showManageCategories)
      requires Valid() && CategoriesShown()
      requires c in categories
      ensures Valid()
      ensures category == c && categories == old(categories) && businessUnitId == old(businessUnitId)
    {
      category := c;
    }

    /** Typing a new category name. */
    method SetNewCategory(text: string)
      modifies this
      ensures showManageCategories == old(showManageCategories)
      requires Valid() && CategoriesShown()
      ensures Valid()
      ensures newCategory == text && categories == old(categories) && category == old(category)
    {
      newCategory := text;
    }

    /**
     * `handleAddCategory`: a typed name that is not blank and not listed
     * is appended trimmed, the box is cleared and closed; otherwise
     * nothing changes.
     */
    method AddCategory()
      modifies this
      ensures showManageCategories == old(showManageCategories)
      requires Valid() && CategoriesShown()
      ensures Valid()
      ensures var name := Strings.Trim(old(newCategory));
        if Strings.IsBlank(old(newCategory)) || name in old(categories) then
          categories == old(categories) && newCategory == old(newCategory) && showAddCategory == old(showAddCategory)
        else
          categories == old(categories) + [name] && newCategory == "" && !showAddCategory
      ensures category == old(category) && businessUnitId == old(businessUnitId) && editingCategory == old(editingCategory)
    {
      Strings.TrimEmpty(newCategory);
      if Strings.Trim(newCategory) != "" && Strings.Trim(newCategory) !in categories {
        categories := categories + [Strings.Trim(newCategory)];
        newCategory := "";
        showAddCategory := false;
      }
    }

    /** `handleStartEditCategory`: the category is being edited, its name in the box. */
    method StartEditCategory(c: string)
      modifies this
      ensures showManageCategories == old(showManageCategories)
      requires Valid() && CategoriesShown()
      ensures Valid()
      ensures editingCategory == Some(c) && editedCategoryName == c
      ensures categories == old(categories) && category == old(category)
    {
      editingCategory := Some(c);
      editedCategoryName := c;
    }

    /** Typing the edited name. */
    method SetEditedCategoryName(text: string)
      modifies this
      ensures showManageCategories == old(showManageCategories)
      requires Valid() && CategoriesShown()
      ensures Valid()
      ensures editedCategoryName == text && editingCategory == old(editingCategory)
      ensures categories == old(categories) && category == old(category)
    {
      editedCategoryName := text;
    }

    /**
     * `handleSaveEditCategory`: with a non-blank new name and a category
     * being edited (the empty name counts as none), every occurrence of
     * that category becomes the trimmed new name, the picked category
     * moves with it, and the edit ends; otherwise nothing changes.
     */
    method SaveEditCategory()
      modifies this
      ensures showManageCategories == old(showManageCategories)
      requires Valid() && CategoriesShown()
      ensures Valid()
      ensures var name := Strings.Trim(old(editedCategoryName));
        if Strings.IsBlank(old(editedCategoryName)) || old(editingCategory).None? || old(editingCategory).value == "" then
          categories == old(categories) && category == old(category) &&
          editingCategory == old(editingCategory) && editedCategoryName == old(editedCategoryName)
        else
          categories == Lists.ReplaceValue(old(categories), old(editingCategory).value, name) &&
          category == (if old(category) == old(editingCategory).value then name else old(category)) &&
          editingCategory == None && editedCategoryName == ""
      ensures businessUnitId == old(businessUnitId)
    {
      Strings.TrimEmpty(editedCategoryName);
      if Strings.Trim(editedCategoryName) != "" && editingCategory.Some? && editingCategory.value != "" {
        var name := Strings.Trim(editedCategoryName);
        var editing := editingCategory.value;
        RenameKeeps(categories, editing, name);
        categories := Lists.ReplaceValue(categories, editing, name);
        if category == editing {
          category := name;
        }
        editingCategory := None;
        editedCategoryName := "";
      }
    }

    /** `handleRemoveCategory`: every occurrence goes; a picked category that goes is unpicked. */
    method RemoveCategory(c: string)
      modifies this
      ensures showManageCategories == old(showManageCategories)
      requires Valid() && CategoriesShown()
      ensures Valid()
      ensures categories == Lists.Remove(old(categories), c)
      ensures category == (if old(category) == c then "" else old(category))
      ensures businessUnitId == old(businessUnitId) && editingCategory == old(editingCategory)
    {
      categories := Lists.Remove(categories, c);
      if category == c {
        category := "";
      }
    }

    /** The pencil button opens or closes the manage-categories panel and changes nothing else. */
    method ToggleManageCategories()
      modifies this
      ensures showManageCategories == !old(showManageCategories)
      ensures showAddCategory == old(showAddCategory)
      ensures businessUnitId == old(businessUnitId) && category == old(category) && businessUnits == old(businessUnits)
      ensures categories == old(categories) && selectedItemsType == old(selectedItemsType) && newCategory == old(newCategory)
      ensures editingCategory == old(editingCategory) && editedCategoryName == old(editedCategoryName)
    {
      showManageCategories := !showManageCategories;
    }

    /** The plus button opens or closes the add-category panel and changes nothing else. */
    method ToggleAddCategory()
      modifies this
      ensures showAddCategory == !old(showAddCategory)
      ensures showManageCategories == old(showManageCategories)
      ensures businessUnitId == old(businessUnitId) && category == old(category) && businessUnits == old(businessUnits)
      ensures categories == old(categories) && selectedItemsType == old(selectedItemsType) && newCategory == old(newCategory)
      ensures editingCategory == old(editingCategory) && editedCategoryName == old(editedCategoryName)
    {
      showAddCategory := !showAddCategory;
    }

    /**
     * `handleSubmit`: an error while no unit or no category is picked;
     * otherwise the update of the selected entries to the unit and the
     * category. The state does not change.
     */
    method Submit(selectedItemIds: seq<string>) returns (r: Result<BulkUpdate>)
      ensures businessUnitId == "" ==> r == Err(UnitRequired)
      ensures businessUnitId != "" && category == "" ==> r == Err(CategoryRequired)
      ensures r.Ok? <==> businessUnitId != "" && category != ""
      ensures r.Ok? ==> r.value == BulkUpdate(selectedItemIds, businessUnitId, category)
    {
      if businessUnitId == "" {
        return Err(UnitRequired);
      }
      if category == "" {
        return Err(CategoryRequired);
      }
      r := Ok(BulkUpdate(selectedItemIds, businessUnitId, category));
    }

    /** `resetForm`, run when the dialog closes. */
    method Reset()
      modifies this
      ensures Valid()
      ensures businessUnitId == "" && category == "" && categories == [] && selectedItemsType == "" && !showAddCategory
      ensures !showManageCategories
      ensures businessUnits == old(businessUnits) && newCategory == old(newCategory)
      ensures editingCategory == old(editingCategory) && editedCategoryName == old(editedCategoryName)
    {
      businessUnitId := "";
      category := "";
      categories := [];
      showAddCategory := false;
      showManageCategories := false;
      selectedItemsType := "";
    }
  }
}
