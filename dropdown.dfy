/** The generic dropdown (components/Dropdown.tsx): single or multiple
    selection over a list of options, the text shown on its button, and the
    rules that open and close its menu. The selected value is a prop owned by
    the parent; a click reports the new value, which the parent passes back. */
module Dropdown {
  import opened Options
  import opened JsStrings
  import opened JsValues
  import opened Seqs

  /** An option; its value is a string or a number. */
  datatype DropdownOption = DropdownOption(value: Js, caption: string, disabled: bool)

  /** `Array.isArray(value) ? value : []`. */
  function CurrentValues(value: Js): seq<Js>
  {
    if value.Arr? then value.items else []
  }

  /** `isSelected`: membership in the array in multiple mode, equality otherwise. */
  predicate IsSelected(multiple: bool, value: Js, optionValue: Js)
  {
    if multiple then value.Arr? && optionValue in value.items else value == optionValue
  }

  /** `values.filter(v => v !== x)`. */
  function RemoveAll(values: seq<Js>, x: Js): (r: seq<Js>)
    ensures x !in r
    ensures forall y :: y != x ==> (y in r <==> y in values)
    ensures |r| <= |values|
    ensures multiset(r) == multiset(values)[x := 0]
    ensures IsSubsequence(r, values)
  {
    if |values| == 0 then []
    else
      assert values == [values[0]] + values[1..];
      if values[0] == x then RemoveAll(values[1..], x)
      else
        var rest := RemoveAll(values[1..], x);
        assert ([values[0]] + rest)[1..] == rest;
        [values[0]] + rest
  }

  /** The new selection after a click on `x` in multiple mode: a selected
      value is removed (every copy of it), another one is appended. */
  function Toggle(values: seq<Js>, x: Js): (r: seq<Js>)
    ensures x in values ==> x !in r && forall y :: y != x ==> (y in r <==> y in values)
    ensures x in values ==> multiset(r) == multiset(values)[x := 0] && IsSubsequence(r, values)
    ensures x !in values ==> r == values + [x]
  {
    if x in values then RemoveAll(values, x) else values + [x]
  }

  /** Removing a value that is not there changes nothing. */
  lemma {:induction false} RemoveAllAbsent(values: seq<Js>, x: Js)
    requires x !in values
    ensures RemoveAll(values, x) == values
  {
    if |values| > 0 {
      RemoveAllAbsent(values[1..], x);
    }
  }

  /** Clicking an option twice restores a selection that did not hold it. */
  lemma ToggleTwice(values: seq<Js>, x: Js)
    requires x !in values
    ensures Toggle(Toggle(values, x), x) == values
  {
    RemoveAllAppended(values, x);
  }

  lemma {:induction false} RemoveAllAppended(values: seq<Js>, x: Js)
    requires x !in values
    ensures RemoveAll(values + [x], x) == values
  {
    if |values| == 0 {
      assert RemoveAll([x], x) == RemoveAll([x][1..], x);
    } else {
      RemoveAllAppended(values[1..], x);
      assert (values + [x])[1..] == values[1..] + [x];
    }
  }

  /** The labels of the options whose value is selected, in options order. */
  function SelectedLabels(options: seq<DropdownOption>, selected: seq<Js>): (r: seq<string>)
    ensures |r| <= |options|
  {
    if |options| == 0 then []
    else (if options[0].value in selected then [options[0].caption] else []) + SelectedLabels(options[1..], selected)
  }

  /** Every label shown belongs to an option whose value is selected, and each
      such option contributes its label. */
  lemma {:induction false} SelectedLabelsSpec(options: seq<DropdownOption>, selected: seq<Js>)
    ensures forall l :: l in SelectedLabels(options, selected) ==>
      exists i :: 0 <= i < |options| && options[i].caption == l && options[i].value in selected
    ensures forall i :: 0 <= i < |options| && options[i].value in selected ==> options[i].caption in SelectedLabels(options, selected)
    ensures |SelectedLabels(options, selected)| == 0 <==> forall i :: 0 <= i < |options| ==> options[i].value !in selected
  {
    if |options| > 0 {
      SelectedLabelsSpec(options[1..], selected);
      var rest := SelectedLabels(options[1..], selected);
      forall l | l in SelectedLabels(options, selected)
        ensures exists i :: 0 <= i < |options| && options[i].caption == l && options[i].value in selected
      {
        if !(options[0].value in selected && l == options[0].caption) {
          assert l in rest;
          var i :| 0 <= i < |options[1..]| && options[1..][i].caption == l && options[1..][i].value in selected;
          assert options[i + 1] == options[1..][i];
        }
      }
      forall i | 0 <= i < |options| && options[i].value in selected
        ensures options[i].caption in SelectedLabels(options, selected)
      {
        if i > 0 {
          assert options[1..][i - 1] == options[i];
        }
      }
      if |SelectedLabels(options, selected)| == 0 {
        forall i | 0 <= i < |options|
          ensures options[i].value !in selected
        {
          if i > 0 {
            assert options[1..][i - 1] == options[i];
          }
        }
      }
    }
  }

  /** `options.filter(opt => selected.includes(opt.value))`. */
  function SelectedOptions(options: seq<DropdownOption>, selected: seq<Js>): seq<DropdownOption>
  {
    Keep(options, (o: DropdownOption) => o.value in selected)
  }

  /** The label list is the filtered options mapped to their captions: one
      label per selected option, in options order, repeats included. */
  lemma {:induction false} SelectedLabelsInOptionOrder(options: seq<DropdownOption>, selected: seq<Js>)
    ensures |SelectedLabels(options, selected)| == |SelectedOptions(options, selected)|
    ensures forall k :: 0 <= k < |SelectedLabels(options, selected)| ==>
      SelectedLabels(options, selected)[k] == SelectedOptions(options, selected)[k].caption
  {
    if |options| > 0 {
      SelectedLabelsInOptionOrder(options[1..], selected);
      var labels, rest := SelectedLabels(options, selected), SelectedLabels(options[1..], selected);
      var chosen, restChosen := SelectedOptions(options, selected), SelectedOptions(options[1..], selected);
      if options[0].value in selected {
        assert labels == [options[0].caption] + rest;
        assert chosen == [options[0]] + restChosen;
        forall k | 0 < k < |labels| ensures labels[k] == chosen[k].caption {
          assert labels[k] == rest[k - 1] && chosen[k] == restChosen[k - 1];
        }
      } else {
        assert labels == rest;
        assert chosen == restChosen;
      }
    }
  }

  /** The button text in multiple mode: the placeholder for an empty
      selection, "N selected" for more than two matching labels, else the
      labels joined with ", " (empty when no option matches). */
  function MultiDisplay(options: seq<DropdownOption>, value: Js, placeholder: string): (r: string)
    ensures |CurrentValues(value)| == 0 ==> r == placeholder
    ensures |CurrentValues(value)| > 0 && |SelectedLabels(options, CurrentValues(value))| > 2 ==>
      r == NatToString(|SelectedLabels(options, CurrentValues(value))|) + " selected"
    ensures |CurrentValues(value)| > 0 && |SelectedLabels(options, CurrentValues(value))| == 0 ==> r == ""
    ensures |CurrentValues(value)| > 0 && |SelectedLabels(options, CurrentValues(value))| == 1 ==>
      r == SelectedLabels(options, CurrentValues(value))[0]
    ensures |CurrentValues(value)| > 0 && |SelectedLabels(options, CurrentValues(value))| == 2 ==>
      r == SelectedLabels(options, CurrentValues(value))[0] + ", " + SelectedLabels(options, CurrentValues(value))[1]
  {
    var selected := CurrentValues(value);
    if |selected| == 0 then placeholder
    else
      var labels := SelectedLabels(options, selected);
      if |labels| > 2 then NatToString(|labels|) + " selected"
      else
        assert |labels| == 2 ==> JoinWith(labels[1..], ", ") == labels[1];
        JoinWith(labels, ", ")
  }

  /** `options.find(opt => opt.value === value)`. */
  function FindOption(options: seq<DropdownOption>, value: Js): (r: Option<nat>)
    ensures r.None? <==> forall i :: 0 <= i < |options| ==> options[i].value != value
    ensures r.Some? ==>
      (r.value < |options| && options[r.value].value == value
       && forall i :: 0 <= i < r.value ==> options[i].value != value)
  {
    if |options| == 0 then None
    else if options[0].value == value then Some(0)
    else
      var rest := FindOption(options[1..], value);
      assert forall i :: 1 <= i < |options| ==> options[i] == options[1..][i - 1];
      if rest.None? then None else Some(rest.value + 1)
  }

  /** The button text in single mode: the label of the first option with the
      value, else the placeholder. */
  function SingleDisplay(options: seq<DropdownOption>, value: Js, placeholder: string): string
  {
    match FindOption(options, value)
    case None => placeholder
    case Some(i) => options[i].caption
  }

  /** `getDisplayValue`. */
  function DisplayValue(options: seq<DropdownOption>, value: Js, placeholder: string, multiple: bool): string
  {
    if multiple then MultiDisplay(options, value, placeholder) else SingleDisplay(options, value, placeholder)
  }

  /** The component state: whether the menu is open, and the props it reads. */
  class DropdownMenu {
    const options: seq<DropdownOption>
    const multiple: bool
    const disabled: bool
    const placeholder: string
    var value: Js
    var isOpen: bool

    constructor (options: seq<DropdownOption>, value: Js, placeholder: string, multiple: bool, disabled: bool)
      ensures this.options == options && this.value == value && this.placeholder == placeholder
      ensures this.multiple == multiple && this.disabled == disabled
      ensures !isOpen
    {
      this.options := options;
      this.value := value;
      this.placeholder := placeholder;
      this.multiple := multiple;
      this.disabled := disabled;
      isOpen := false;
    }

    function Display(): string
      reads this
    {
      DisplayValue(options, value, placeholder, multiple)
    }

    /** The button: toggles the menu unless the dropdown is disabled. */
    method ClickButton()
      modifies this`isOpen
      ensures isOpen == if disabled then old(isOpen) else !old(isOpen)
    {
      if !disabled {
        isOpen := !isOpen;
      }
    }

    /** `handleOptionClick`: the value reported to `onChange`, if any. */
    method ClickOption(option: DropdownOption) returns (change: Option<Js>)
      modifies this`isOpen
      ensures option.disabled ==> change.None? && isOpen == old(isOpen)
      ensures !option.disabled && multiple ==>
        change == Some(Arr(Toggle(CurrentValues(value), option.value))) && isOpen == old(isOpen)
      ensures !option.disabled && !multiple ==> change == Some(option.value) && !isOpen
    {
      if option.disabled {
        return None;
      }
      if multiple {
        var current := CurrentValues(value);
        change := Some(Arr(Toggle(current, option.value)));
      } else {
        change := Some(option.value);
        isOpen := false;
      }
    }

    /** The parent re-renders with the value it was given. */
    method Receive(v: Js)
      modifies this`value
      ensures value == v
    {
      value := v;
    }

    /** A mouse press anywhere in the document. */
    method MouseDown(inside: bool)
      modifies this`isOpen
      ensures isOpen == (old(isOpen) && inside)
    {
      if !inside {
        isOpen := false;
      }
    }

    /** A key press: Enter and Escape close an open multiple-selection menu. */
    method KeyDown(key: string)
      modifies this`isOpen
      ensures isOpen == (old(isOpen) && !(multiple && (key == "Enter" || key == "Escape")))
    {
      if isOpen && multiple && (key == "Enter" || key == "Escape") {
        isOpen := false;
      }
    }

    /** The "Done" button of the multiple-selection menu. */
    method ClickDone()
      requires multiple
      modifies this`isOpen
      ensures !isOpen
    {
      isOpen := false;
    }
  }
}
