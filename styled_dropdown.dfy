/** The searchable dropdown (components/StyledDropdown.tsx): the options
    narrowed by a search term, the text on its button, and the menu state
    (open flag and search term) that selecting and clicking outside reset. */
module StyledDropdown {
  import opened Options
  import opened JsStrings
  import opened Seqs

  /** An option: a string value and the label shown for it. */
  datatype Opt = Opt(value: string, caption: string)

  /** The search test of one option: its lowercased label or value contains
      the lowercased term. */
  predicate Matches(o: Opt, term: string)
  {
    Includes(LowerStr(o.caption), LowerStr(term)) || Includes(LowerStr(o.value), LowerStr(term))
  }

  /** `filteredOptions`: the options that match the term when the dropdown is
      searchable and the term is not empty, all of them otherwise. */
  function FilteredOptions(options: seq<Opt>, searchable: bool, term: string): (r: seq<Opt>)
    ensures !searchable || term == "" ==> r == options
    ensures |r| <= |options|
  {
    if searchable && term != "" then Keep(options, o => Matches(o, term)) else options
  }

  /** With a search term, an option is listed exactly when it matches, and the
      listed options keep the order of `options`. */
  lemma FilteredOptionsSpec(options: seq<Opt>, term: string)
    requires term != ""
    ensures forall o :: o in options ==> (o in FilteredOptions(options, true, term) <==> Matches(o, term))
    ensures forall o :: o in FilteredOptions(options, true, term) ==> o in options
    ensures IsSubsequence(FilteredOptions(options, true, term), options)
  {
    var p := o => Matches(o, term);
    forall o | o in options
      ensures o in Keep(options, p) <==> Matches(o, term)
    {
      KeepMember(options, p, o);
    }
    KeepIsSubsequence(options, p);
  }

  /** The index of the first option with the given value (`options.find`). */
  function FindValue(options: seq<Opt>, value: Option<string>): (r: Option<nat>)
    ensures r.None? <==> forall i :: 0 <= i < |options| ==> Some(options[i].value) != value
    ensures r.Some? ==>
      (r.value < |options| && Some(options[r.value].value) == value
       && forall i :: 0 <= i < r.value ==> Some(options[i].value) != value)
  {
    if |options| == 0 then None
    else if Some(options[0].value) == value then Some(0)
    else
      var rest := FindValue(options[1..], value);
      assert forall i :: 1 <= i < |options| ==> options[i] == options[1..][i - 1];
      if rest.None? then None else Some(rest.value + 1)
  }

  /** `selectedOption?.label || placeholder`. */
  function ButtonText(options: seq<Opt>, value: Option<string>, placeholder: string): string
  {
    match FindValue(options, value)
    case None => placeholder
    case Some(i) => if options[i].caption != "" then options[i].caption else placeholder
  }

  /** The button shows the label of the first option holding the value; with
      no such option (a null value included), or an empty label, it shows the
      placeholder. */
  lemma ButtonTextSpec(options: seq<Opt>, value: Option<string>, placeholder: string, i: nat)
    requires i < |options| && Some(options[i].value) == value
    requires forall j :: 0 <= j < i ==> options[j].value != options[i].value
    ensures ButtonText(options, value, placeholder) == if options[i].caption != "" then options[i].caption else placeholder
    ensures ButtonText(options, None, placeholder) == placeholder
  {
    assert FindValue(options, value) == Some(i);
  }

  /** The component state: the props it reads, whether its menu is open and
      the search term typed into it. */
  class StyledDropdownMenu {
    const options: seq<Opt>
    const searchable: bool
    const placeholder: string
    var value: Option<string>
    var isOpen: bool
    var searchTerm: string

    constructor (options: seq<Opt>, value: Option<string>, placeholder: string, searchable: bool)
      ensures this.options == options && this.value == value
      ensures this.placeholder == placeholder && this.searchable == searchable
      ensures !isOpen && searchTerm == ""
    {
      this.options := options;
      this.value := value;
      this.placeholder := placeholder;
      this.searchable := searchable;
      isOpen := false;
      searchTerm := "";
    }

    /** The options listed in the open menu. */
    function Listed(): seq<Opt>
      reads this
    {
      FilteredOptions(options, searchable, searchTerm)
    }

    /** The text on the button. */
    function Caption(): string
      reads this
    {
      ButtonText(options, value, placeholder)
    }

    /** The button toggles the menu. */
    method ClickButton()
      modifies this`isOpen
      ensures isOpen == !old(isOpen)
    {
      isOpen := !isOpen;
    }

    /** Typing into the search box. */
    method Search(term: string)
      modifies this`searchTerm
      ensures searchTerm == term
    {
      searchTerm := term;
    }

    /** `handleSelect`: reports the value, closes the menu and clears the
        search term, so that every option is listed again. */
    method Select(optionValue: string) returns (change: string)
      modifies this`isOpen, this`searchTerm
      ensures change == optionValue
      ensures !isOpen && searchTerm == ""
      ensures Listed() == options
    {
      change := optionValue;
      isOpen := false;
      searchTerm := "";
    }

    /** A mouse press in the document: outside both the button and the menu it
        closes the menu and clears the search; inside it changes nothing. */
    method MouseDown(insideButton: bool, insideMenu: bool)
      modifies this`isOpen, this`searchTerm
      ensures !insideButton && !insideMenu ==> !isOpen && searchTerm == "" && Listed() == options
      ensures insideButton || insideMenu ==> isOpen == old(isOpen) && searchTerm == old(searchTerm)
    {
      if !insideButton && !insideMenu {
        isOpen := false;
        searchTerm := "";
      }
    }

    /** The parent re-renders with the value it was given. */
    method Receive(v: Option<string>)
      modifies this`value
      ensures value == v
    {
      value := v;
    }
  }
}
