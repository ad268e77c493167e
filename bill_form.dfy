/**
 * The recurring-bill form state of src/components/contas/useBillForm.ts:
 * the fields start from the bill being edited (or from defaults), change
 * one at a time, and are handed on only when the required ones are filled.
 *
 * The select for the bank cannot hold "", so an empty bank is shown as
 * "NONE" and turned back into "" on submit.
 *
 * `toString()` of the bill's value and due day are the parameters
 * `showValue` and `showDay`.
 */
module BillForm {
  import opened Wrappers

  /** The fields of a `RecurringBill` the form reads. */
  datatype RecurringBill = RecurringBill(name: string, value: real, dueDate: int, category: string, bank: string, recurring: bool)

  /** `BillFormData`: every field is text except `recurring`. */
  datatype BillFormData = BillFormData(name: string, value: string, dueDate: string, category: string, bank: string, recurring: bool)

  /** The text fields `handleInputChange` can name. */
  datatype TextField = Name | Value | DueDate | Category | Bank

  const NoBank := "NONE"

  /** The select value of a bank: "" becomes "NONE". */
  function SafeBank(bank: string): string
  {
    if bank == "" then NoBank else bank
  }

  /** The bank as submitted: "NONE" becomes "". */
  function SubmittedBank(bank: string): string
  {
    if bank == NoBank then "" else bank
  }

  /** A bank other than "NONE" survives being shown and submitted; the empty bank does too. */
  lemma BankRoundTrip(bank: string)
    ensures bank != NoBank ==> SubmittedBank(SafeBank(bank)) == bank
    ensures SafeBank(bank) != ""
  {
  }

  /** The initial form: the edited bill's fields, or empty text, no bank and recurring for a new bill. */
  function Initial(editingBill: Option<RecurringBill>, showValue: real -> string, showDay: int -> string): (f: BillFormData)
    ensures editingBill.None? ==> f == BillFormData("", "", "", "", NoBank, true)
    ensures editingBill.Some? ==> (f.name == editingBill.value.name && f.category == editingBill.value.category &&
      f.value == showValue(editingBill.value.value) && f.dueDate == showDay(editingBill.value.dueDate) &&
      f.bank == SafeBank(editingBill.value.bank) && f.recurring == editingBill.value.recurring)
  {
    match editingBill
    case None => BillFormData("", "", "", "", SafeBank(""), true)
    case Some(bill) =>
      BillFormData(bill.name, showValue(bill.value), showDay(bill.dueDate), bill.category, SafeBank(bill.bank), bill.recurring)
  }

  /** The fields `handleSubmit` requires. */
  predicate Complete(f: BillFormData)
  {
    f.name != "" && f.value != "" && f.dueDate != "" && f.category != ""
  }

  /** The hook's state. */
  class Form {
    var formData: BillFormData

    /** `useState(() => ...)`. */
    constructor(editingBill: Option<RecurringBill>, showValue: real -> string, showDay: int -> string)
      ensures formData == Initial(editingBill, showValue, showDay)
    {
      formData := Initial(editingBill, showValue, showDay);
    }

    /**
     * `handleSubmit`: None (the "Campos obrigatórios" toast, `onSubmit` not
     * called) unless name, value, due date and category are all filled;
     * otherwise the form data with "NONE" as bank turned into "".
     */
    method HandleSubmit() returns (submitted: Option<BillFormData>)
      ensures submitted.Some? <==> Complete(formData)
      ensures submitted.Some? ==> submitted.value == formData.(bank := SubmittedBank(formData.bank))
    {
      if formData.name == "" || formData.value == "" || formData.dueDate == "" || formData.category == "" {
        return None;
      }
      var submitData := formData.(bank := if formData.bank == NoBank then "" else formData.bank);
      submitted := Some(submitData);
    }

    /** `handleInputChange` on a text field: that field takes the value, every other keeps its own. */
    method HandleInputChange(field: TextField, value: string)
      modifies this
      ensures formData == Updated(old(formData), field, value)
    {
      formData := match field
        case Name => formData.(name := value)
        case Value => formData.(value := value)
        case DueDate => formData.(dueDate := value)
        case Category => formData.(category := value)
        case Bank => formData.(bank := value);
    }

    /** `handleInputChange("recurring", value)`. */
    method HandleRecurringChange(value: bool)
      modifies this
      ensures formData == old(formData).(recurring := value)
    {
      formData := formData.(recurring := value);
    }
  }

  /** The form after one text field changes. */
  function Updated(f: BillFormData, field: TextField, value: string): BillFormData
  {
    match field
    case Name => f.(name := value)
    case Value => f.(value := value)
    case DueDate => f.(dueDate := value)
    case Category => f.(category := value)
    case Bank => f.(bank := value)
  }

  /** The text of a field. */
  function Get(f: BillFormData, field: TextField): string
  {
    match field
    case Name => f.name
    case Value => f.value
    case DueDate => f.dueDate
    case Category => f.category
    case Bank => f.bank
  }

  /** A change sets the named field and leaves every other field, `recurring` included, as it was. */
  lemma UpdatedOnlyField(f: BillFormData, field: TextField, value: string, other: TextField)
    ensures Get(Updated(f, field, value), field) == value
    ensures other != field ==> Get(Updated(f, field, value), other) == Get(f, other)
    ensures Updated(f, field, value).recurring == f.recurring
  {
  }

  /**
   * Editing a bill and submitting it unchanged hands on the bill's own
   * fields, its bank included unless that bank is literally "NONE".
   */
  method EditAndSubmit(bill: RecurringBill, showValue: real -> string, showDay: int -> string) returns (submitted: Option<BillFormData>)
    ensures bill.name != "" && bill.category != "" && showValue(bill.value) != "" && showDay(bill.dueDate) != "" ==> submitted.Some?
    ensures submitted.Some? ==> (submitted.value.name == bill.name && submitted.value.category == bill.category &&
      submitted.value.recurring == bill.recurring && (bill.bank != NoBank ==> submitted.value.bank == bill.bank))
  {
    var form := new Form(Some(bill), showValue, showDay);
    submitted := form.HandleSubmit();
  }

  /** A new form is never submitted as it starts: the name is empty. */
  method NewFormRejected(showValue: real -> string, showDay: int -> string) returns (submitted: Option<BillFormData>)
    ensures submitted == None
  {
    var form := new Form(None, showValue, showDay);
    submitted := form.HandleSubmit();
  }
}
