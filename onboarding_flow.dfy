/**
 * The three-step onboarding of src/components/onboarding/OnboardingFlow.tsx:
 * a step counter moved by "next" and "back", the data gathered on the way
 * (a display name, the chosen business units, the chosen categories), the
 * rule that lets each step go on, and what finishing sends.
 */
module OnboardingFlow {
  import opened Wrappers
  import Strings
  import OnboardingSteps

  const TotalSteps := 3

  /** The data the steps fill in. */
  datatype FormData = FormData(displayName: string, selectedUnits: seq<string>, selectedCategories: seq<string>)

  /** `updateFormData(field, value)`, one constructor per field. */
  datatype FieldUpdate =
    | DisplayName(name: string)
    | SelectedUnits(units: seq<string>)
    | SelectedCategories(categories: seq<string>)

  /** `{ ...prev, [field]: value }`. */
  function Applied(data: FormData, update: FieldUpdate): FormData
  {
    match update
    case DisplayName(name) => data.(displayName := name)
    case SelectedUnits(units) => data.(selectedUnits := units)
    case SelectedCategories(categories) => data.(selectedCategories := categories)
  }

  /** An update sets its own field and leaves the other two as they were. */
  lemma AppliedOnlyField(data: FormData, update: FieldUpdate)
    ensures update.DisplayName? ==> Applied(data, update) == FormData(update.name, data.selectedUnits, data.selectedCategories)
    ensures update.SelectedUnits? ==> Applied(data, update) == FormData(data.displayName, update.units, data.selectedCategories)
    ensures update.SelectedCategories? ==> Applied(data, update) == FormData(data.displayName, data.selectedUnits, update.categories)
  {
  }

  /** `canProceed()` for a step and the data so far. */
  function CanProceed(step: int, data: FormData): bool
  {
    match step
    case 1 => |Strings.Trim(data.displayName)| > 0
    case 2 => |data.selectedUnits| > 0
    case 3 => |data.selectedCategories| > 0
    case _ => false
  }

  /**
   * Step 1 goes on iff the name is not blank, step 2 iff a unit is chosen,
   * step 3 iff a category is chosen; no other step ever goes on.
   */
  lemma CanProceedSpec(step: int, data: FormData)
    ensures step == 1 ==> (CanProceed(step, data) <==> !Strings.IsBlank(data.displayName))
    ensures step == 2 ==> (CanProceed(step, data) <==> data.selectedUnits != [])
    ensures step == 3 ==> (CanProceed(step, data) <==> data.selectedCategories != [])
    ensures step !in {1, 2, 3} ==> !CanProceed(step, data)
  {
    Strings.TrimEmpty(data.displayName);
  }

  /** What `handleComplete` sends: the profile's new display name, then the end of the onboarding. */
  datatype Completion = Completion(displayName: string, completeOnboarding: bool)

  /** The flow's state. */
  class Flow {
    var currentStep: int
    var formData: FormData

    /** The step is one of the three. */
    predicate Valid()
      reads this
    {
      1 <= currentStep <= TotalSteps
    }

    /** Step 1, nothing filled in. */
    constructor()
      ensures Valid()
      ensures currentStep == 1 && formData == FormData("", [], [])
    {
      currentStep := 1;
      formData := FormData("", [], []);
    }

    /** `progress`: the share of the steps reached, in percent. */
    function Progress(): (p: real)
      reads this
      requires Valid()
      ensures 0.0 < p <= 100.0
      ensures p == 100.0 <==> currentStep == TotalSteps
      ensures p * 3.0 == (currentStep as real) * 100.0
    {
      (currentStep as real) / (TotalSteps as real) * 100.0
    }

    /** `handleNext`: one step on, except from the last. */
    method HandleNext()
      modifies this
      requires Valid()
      ensures Valid()
      ensures currentStep == if old(currentStep) < TotalSteps then old(currentStep) + 1 else old(currentStep)
      ensures formData == old(formData)
    {
      if currentStep < TotalSteps {
        currentStep := currentStep + 1;
      }
    }

    /** `handleBack`: one step back, except from the first. */
    method HandleBack()
      modifies this
      requires Valid()
      ensures Valid()
      ensures currentStep == if old(currentStep) > 1 then old(currentStep) - 1 else old(currentStep)
      ensures formData == old(formData)
    {
      if currentStep > 1 {
        currentStep := currentStep - 1;
      }
    }

    /** The "Próximo" button, disabled while the step cannot go on. */
    method ClickNext()
      modifies this
      requires Valid()
      ensures Valid()
      ensures CanProceed(old(currentStep), old(formData)) ==> currentStep == if old(currentStep) < TotalSteps then old(currentStep) + 1 else old(currentStep)
      ensures !CanProceed(old(currentStep), old(formData)) ==> currentStep == old(currentStep)
      ensures formData == old(formData)
    {
      if CanProceed(currentStep, formData) {
        HandleNext();
      }
    }

    /** `updateFormData`: the named field changes, nothing else does. */
    method UpdateFormData(update: FieldUpdate)
      modifies this
      ensures formData == Applied(old(formData), update)
      ensures currentStep == old(currentStep)
    {
      match update {
        case DisplayName(name) => formData := formData.(displayName := name);
        case SelectedUnits(units) => formData := formData.(selectedUnits := units);
        case SelectedCategories(categories) => formData := formData.(selectedCategories := categories);
      }
    }

    /** A unit clicked on step 2: the units picker toggles it in the chosen units. */
    method ToggleUnit(name: string)
      modifies this
      ensures formData == old(formData).(selectedUnits := OnboardingSteps.Toggle(old(formData.selectedUnits), name))
      ensures currentStep == old(currentStep)
    {
      UpdateFormData(SelectedUnits(OnboardingSteps.Toggle(formData.selectedUnits, name)));
    }

    /** A category clicked on step 3: the categories picker toggles it in the chosen categories. */
    method ToggleCategory(name: string)
      modifies this
      ensures formData == old(formData).(selectedCategories := OnboardingSteps.Toggle(old(formData.selectedCategories), name))
      ensures currentStep == old(currentStep)
    {
      UpdateFormData(SelectedCategories(OnboardingSteps.Toggle(formData.selectedCategories, name)));
    }

    /** "Adicionar" on step 2: a new unit typed into the picker joins the chosen units. */
    method AddCustomUnit(picker: OnboardingSteps.Picker)
      modifies this, picker
      ensures var name := Strings.Trim(old(picker.custom));
        if Strings.IsBlank(old(picker.custom)) || name in old(formData.selectedUnits) then
          formData == old(formData) && picker.customs == old(picker.customs)
        else
          formData == old(formData).(selectedUnits := old(formData.selectedUnits) + [name]) &&
          picker.customs == old(picker.customs) + [name] && picker.custom == ""
      ensures currentStep == old(currentStep)
    {
      var next := picker.AddCustom(formData.selectedUnits);
      if next.Some? {
        UpdateFormData(SelectedUnits(next.value));
      }
    }

    /** "Adicionar" on step 3: a new category typed into the picker joins the chosen categories. */
    method AddCustomCategory(picker: OnboardingSteps.Picker)
      modifies this, picker
      ensures var name := Strings.Trim(old(picker.custom));
        if Strings.IsBlank(old(picker.custom)) || name in old(formData.selectedCategories) then
          formData == old(formData) && picker.customs == old(picker.customs)
        else
          formData == old(formData).(selectedCategories := old(formData.selectedCategories) + [name]) &&
          picker.customs == old(picker.customs) + [name] && picker.custom == ""
      ensures currentStep == old(currentStep)
    {
      var next := picker.AddCustom(formData.selectedCategories);
      if next.Some? {
        UpdateFormData(SelectedCategories(next.value));
      }
    }

    /** `handleComplete`: the display name as typed (not trimmed), then the onboarding marked complete. */
    method HandleComplete() returns (sent: Completion)
      ensures sent == Completion(formData.displayName, true)
    {
      sent := Completion(formData.displayName, true);
    }
  }

  /**
   * Clicking "Próximo" any number of times from the start never leaves
   * the three steps, and never passes step 1 while the name is blank.
   */
  method ClickNextFromStart(clicks: nat) returns (step: int)
    ensures step == 1
  {
    var flow := new Flow();
    var i := 0;
    while i < clicks
      invariant flow.Valid() && flow.currentStep == 1 && flow.formData == FormData("", [], [])
    {
      CanProceedSpec(1, flow.formData);
      flow.ClickNext();
      i := i + 1;
    }
    step := flow.currentStep;
  }
}
