/**
 * The credit-card charges page of
 * src/components/contas/CreditCardChargesSection.tsx: the card, type and
 * status filters over the charges, and the page state (the open form, the
 * charge being edited, the filters, the month) with the requests its
 * handlers send.
 *
 * `parseFloat` is the parameter `parseFloat`, None standing for NaN; the
 * starting month (`new Date()`) is the parameter `today`.
 */
module CreditCardChargesSection {
  import opened Wrappers
  import Lists

  /** A credit-card charge, the fields the page reads. */
  datatype Charge = Charge(id: string, description: string, card: string, kind: string, value: real, ativo: bool)

  /** The three filters; each is "all" or a value. */
  datatype Filters = Filters(card: string, kind: string, status: string)

  const All := "all"
  const AllFilters := Filters(All, All, All)

  /** The filter callback of `filteredCharges`. */
  predicate Keep(charge: Charge, filters: Filters)
  {
    if filters.card != All && charge.card != filters.card then false
    else if filters.kind != All && charge.kind != filters.kind then false
    else if filters.status != All && filters.status == "ativo" && !charge.ativo then false
    else if filters.status != All && filters.status == "inativo" && charge.ativo then false
    else true
  }

  /** `filteredCharges`. */
  function FilteredCharges(charges: seq<Charge>, filters: Filters): seq<Charge>
  {
    Lists.Filter(charges, (c: Charge) => Keep(c, filters))
  }

  /**
   * The shown charges are the charges with some left out, in order; a
   * charge is shown iff its card and type equal the chosen ones (or "all"
   * is chosen), it is active under "ativo" and inactive under "inativo";
   * any other status keeps every charge.
   */
  lemma FilteredChargesSpec(charges: seq<Charge>, filters: Filters, x: Charge)
    ensures Lists.IsSubsequence(FilteredCharges(charges, filters), charges)
    ensures x in FilteredCharges(charges, filters) <==> (x in charges &&
      (filters.card == All || x.card == filters.card) &&
      (filters.kind == All || x.kind == filters.kind) &&
      (filters.status == "ativo" ==> x.ativo) &&
      (filters.status == "inativo" ==> !x.ativo))
  {
    Lists.FilterSubsequence(charges, (c: Charge) => Keep(c, filters));
    Lists.FilterMembers(charges, (c: Charge) => Keep(c, filters), x);
  }

  /** With every filter on "all", every charge is shown. */
  lemma AllFiltersKeepAll(charges: seq<Charge>)
    ensures FilteredCharges(charges, AllFilters) == charges
  {
    Lists.FilterAll(charges, (c: Charge) => Keep(c, AllFilters));
  }

  /** The form's data as submitted: the value is still text. */
  datatype ChargeForm = ChargeForm(description: string, card: string, value: string, kind: string, parcelas: Option<int>, observacao: string)

  /** The data sent to the database: the value parsed. */
  datatype ChargeData = ChargeData(description: string, card: string, value: Option<real>, kind: string, parcelas: Option<int>, observacao: string)

  /** The mutation a handler starts. */
  datatype Request =
    | UpdateCharge(id: string, data: ChargeData)
    | CreateCharge(data: ChargeData)

  /** `{ ...data, value: parseFloat(data.value) }`. */
  function Parsed(data: ChargeForm, parseFloat: string -> Option<real>): (d: ChargeData)
    ensures d.value == parseFloat(data.value)
    ensures d.description == data.description && d.card == data.card && d.kind == data.kind
    ensures d.parcelas == data.parcelas && d.observacao == data.observacao
  {
    ChargeData(data.description, data.card, parseFloat(data.value), data.kind, data.parcelas, data.observacao)
  }

  /** The state of the page. */
  class Section {
    var showModal: bool
    var editingCharge: Option<Charge>
    var selectedMonth: string
    var filters: Filters

    /** The form closed, nothing being edited, the current month, every filter on "all". */
    constructor(today: string)
      ensures !showModal && editingCharge == None && selectedMonth == today && filters == AllFilters
    {
      showModal := false;
      editingCharge := None;
      selectedMonth := today;
      filters := AllFilters;
    }

    /** The charges shown under the current filters. */
    function Shown(charges: seq<Charge>): (r: seq<Charge>)
      reads this
      ensures Lists.IsSubsequence(r, charges)
    {
      var f := filters;
      Lists.FilterSubsequence(charges, (c: Charge) => Keep(c, f));
      FilteredCharges(charges, f)
    }

    /**
     * `handleSubmit`: while a charge is being edited, an update of that
     * charge with the parsed value; otherwise a new charge with the parsed
     * value. The state does not change.
     */
    method HandleSubmit(data: ChargeForm, parseFloat: string -> Option<real>) returns (request: Request)
      ensures editingCharge.Some? ==> request == UpdateCharge(editingCharge.value.id, Parsed(data, parseFloat))
      ensures editingCharge.None? ==> request == CreateCharge(Parsed(data, parseFloat))
    {
      if editingCharge.Some? {
        request := UpdateCharge(editingCharge.value.id, Parsed(data, parseFloat));
      } else {
        request := CreateCharge(Parsed(data, parseFloat));
      }
    }

    /** `handleEdit`: the charge is being edited and the form opens. */
    method HandleEdit(charge: Charge)
      modifies this
      ensures editingCharge == Some(charge) && showModal
      ensures selectedMonth == old(selectedMonth) && filters == old(filters)
    {
      editingCharge := Some(charge);
      showModal := true;
    }

    /** `handleCloseModal`: the form closes and nothing is being edited. */
    method HandleCloseModal()
      modifies this
      ensures editingCharge == None && !showModal
      ensures selectedMonth == old(selectedMonth) && filters == old(filters)
    {
      showModal := false;
      editingCharge := None;
    }

    /** "Nova Cobrança": the form opens; the edited charge is left as it is. */
    method OpenNew()
      modifies this
      ensures showModal
      ensures editingCharge == old(editingCharge) && selectedMonth == old(selectedMonth) && filters == old(filters)
    {
      showModal := true;
    }

    /** `setFilters` from the filter bar. */
    method SetFilters(f: Filters)
      modifies this
      ensures filters == f
      ensures showModal == old(showModal) && editingCharge == old(editingCharge) && selectedMonth == old(selectedMonth)
    {
      filters := f;
    }

    /** `setSelectedMonth` from the month selector. */
    method SetSelectedMonth(month: string)
      modifies this
      ensures selectedMonth == month
      ensures showModal == old(showModal) && editingCharge == old(editingCharge) && filters == old(filters)
    {
      selectedMonth := month;
    }
  }

  /**
   * After closing the form a submit creates a new charge; after choosing a
   * charge to edit, a submit updates that charge.
   */
  method SubmitAfterEditOrClose(charge: Charge, data: ChargeForm, parseFloat: string -> Option<real>, today: string)
    returns (afterEdit: Request, afterClose: Request)
    ensures afterEdit == UpdateCharge(charge.id, Parsed(data, parseFloat))
    ensures afterClose == CreateCharge(Parsed(data, parseFloat))
  {
    var section := new Section(today);
    section.HandleEdit(charge);
    afterEdit := section.HandleSubmit(data, parseFloat);
    section.HandleCloseModal();
    afterClose := section.HandleSubmit(data, parseFloat);
  }
}
