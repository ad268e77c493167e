/**
 * The two pickers of the onboarding, src/components/onboarding/UnitsStep.tsx
 * and src/components/onboarding/CategoriesStep.tsx: both keep the text typed
 * into the "add" box and the names added through it, toggle a name in the
 * selected list the parent owns, and add a typed name to that list. The
 * two components run the same handlers on different lists, so one class
 * serves both.
 *
 * The selected list is a prop: a handler returns the list it passes to
 * `onUnitsChange` / `onCategoriesChange`, or None when it calls neither.
 */
module OnboardingSteps {
  import opened Wrappers
  import Lists
  import Strings

  /** `toggleUnit` / `toggleCategory`: the list passed to the change callback. */
  function Toggle(selected: seq<string>, name: string): (next: seq<string>)
    ensures name !in selected ==> next == selected + [name]
    ensures name in selected ==> name !in next && |next| < |selected|
    ensures name in selected ==> forall x :: x in next <==> x in selected && x != name
  {
    RemoveKeepsOthers(selected, name);
    Lists.Toggled(selected, name)
  }

  /** Removing a name keeps every other name and shortens the list. */
  lemma {:induction false} RemoveKeepsOthers(xs: seq<string>, name: string)
    ensures forall x :: x in Lists.Remove(xs, name) <==> x in xs && x != name
    ensures name in xs ==> |Lists.Remove(xs, name)| < |xs|
  {
    if xs != [] {
      RemoveKeepsOthers(xs[1..], name);
      assert forall x :: x in xs <==> x == xs[0] || x in xs[1..];
    }
  }

  /** Toggling a name that is not selected twice gives the list back. */
  lemma ToggleTwice(selected: seq<string>, name: string)
    requires name !in selected
    ensures Toggle(Toggle(selected, name), name) == selected
  {
    Lists.ToggleTwice(selected, name);
  }

  /** The state of one picker. */
  class Picker {
    var custom: string
    var customs: seq<string>

    /** An empty box, nothing added yet. */
    constructor()
      ensures custom == "" && customs == []
    {
      custom := "";
      customs := [];
    }

    /** Typing into the box. */
    method SetCustom(text: string)
      modifies this
      ensures custom == text && customs == old(customs)
    {
      custom := text;
    }

    /**
     * `addCustomUnit` / `addCustomCategory`: a typed name that is not blank
     * and not yet selected, trimmed, is added to the picker's own names and
     * to the selected list, and the box is cleared; otherwise nothing
     * changes and no callback runs.
     */
    method AddCustom(selected: seq<string>) returns (next: Option<seq<string>>)
      modifies this
      ensures var name := Strings.Trim(old(custom));
        if Strings.IsBlank(old(custom)) || name in selected then
          next == None && custom == old(custom) && customs == old(customs)
        else
          next == Some(selected + [name]) && customs == old(customs) + [name] && custom == ""
    {
      Strings.TrimEmpty(custom);
      if Strings.Trim(custom) != "" && Strings.Trim(custom) !in selected {
        var newName := Strings.Trim(custom);
        customs := customs + [newName];
        next := Some(selected + [newName]);
        custom := "";
      } else {
        next := None;
      }
    }
  }
}
