/** The task-status dropdown (components/StatusDropdown.tsx): a fixed table
    of the four task statuses, the text on its button, and the menu state. */
module StatusDropdown {
  import opened Options

  /** The four task statuses. */
  datatype TaskStatus = Todo | InProgress | Blocked | Done

  /** The value a status is stored and reported as. */
  function Code(s: TaskStatus): string
  {
    match s
    case Todo => "todo"
    case InProgress => "in_progress"
    case Blocked => "blocked"
    case Done => "done"
  }

  /** The label shown for a status. */
  function Caption(s: TaskStatus): string
  {
    match s
    case Todo => "To Do"
    case InProgress => "In Progress"
    case Blocked => "Blocked"
    case Done => "Done"
  }

  /** `statusOptions`, in menu order. */
  const StatusOptions: seq<TaskStatus> := [Todo, InProgress, Blocked, Done]

  /** The menu lists every status exactly once, and their codes and labels are
      pairwise distinct. */
  lemma StatusOptionsComplete()
    ensures forall s: TaskStatus :: s in StatusOptions
    ensures forall i, j :: 0 <= i < j < |StatusOptions| ==>
      Code(StatusOptions[i]) != Code(StatusOptions[j]) && Caption(StatusOptions[i]) != Caption(StatusOptions[j])
  {
    forall s: TaskStatus
      ensures s in StatusOptions
    {
      match s
      case Todo => assert StatusOptions[0] == s;
      case InProgress => assert StatusOptions[1] == s;
      case Blocked => assert StatusOptions[2] == s;
      case Done => assert StatusOptions[3] == s;
    }
    forall i, j | 0 <= i < j < |StatusOptions|
      ensures Code(StatusOptions[i]) != Code(StatusOptions[j])
    {
      assert Code(StatusOptions[i])[0] != Code(StatusOptions[j])[0] || |Code(StatusOptions[i])| != |Code(StatusOptions[j])|;
    }
  }

  /** The first status in the table whose code is `value`. */
  function FindStatus(table: seq<TaskStatus>, value: string): (r: Option<TaskStatus>)
    ensures r.Some? ==> r.value in table && Code(r.value) == value
    ensures r.None? ==> forall s :: s in table ==> Code(s) != value
  {
    if |table| == 0 then None
    else if Code(table[0]) == value then Some(table[0])
    else FindStatus(table[1..], value)
  }

  /** `getDisplayValue`: the placeholder for an empty value; otherwise the
      label of the status with that code, or the placeholder when no status
      has it. */
  function DisplayValue(value: string, placeholder: string): string
  {
    if value == "" then placeholder
    else
      match FindStatus(StatusOptions, value)
      case Some(s) => Caption(s)
      case None => placeholder
  }

  /** Every status shows its own label, and a value that is no status code
      shows the placeholder. */
  lemma DisplayValueSpec(value: string, placeholder: string)
    ensures forall s :: DisplayValue(Code(s), placeholder) == Caption(s)
    ensures (forall s :: Code(s) != value) ==> DisplayValue(value, placeholder) == placeholder
  {
    forall s
      ensures DisplayValue(Code(s), placeholder) == Caption(s)
    {
      var f := FindStatus(StatusOptions, Code(s));
      StatusOptionsComplete();
      assert f.Some?;
      CodeInjective(f.value, s);
    }
  }

  /** Distinct statuses have distinct codes. */
  lemma CodeInjective(s: TaskStatus, t: TaskStatus)
    requires Code(s) == Code(t)
    ensures s == t
  {
    assert Code(s)[0] == Code(t)[0];
    assert |Code(s)| == |Code(t)|;
  }

  /** The component state: whether the menu is open and the value shown. */
  class StatusMenu {
    const placeholder: string
    var value: string
    var isOpen: bool

    constructor (value: string, placeholder: string)
      ensures this.value == value && this.placeholder == placeholder && !isOpen
    {
      this.value := value;
      this.placeholder := placeholder;
      isOpen := false;
    }

    /** The text on the button. */
    function Text(): string
      reads this
    {
      DisplayValue(value, placeholder)
    }

    /** The button toggles the menu. */
    method ClickButton()
      modifies this`isOpen
      ensures isOpen == !old(isOpen)
    {
      isOpen := !isOpen;
    }

    /** `handleOptionClick`: reports the status's code and closes the menu. */
    method ClickOption(s: TaskStatus) returns (change: string)
      modifies this`isOpen
      ensures change == Code(s) && !isOpen
    {
      change := Code(s);
      isOpen := false;
    }

    /** A mouse press while the menu is open: outside the button and the menu
        it closes the menu. */
    method MouseDown(insideButton: bool, insideMenu: bool)
      modifies this`isOpen
      ensures isOpen == (old(isOpen) && (insideButton || insideMenu))
    {
      if isOpen && !insideButton && !insideMenu {
        isOpen := false;
      }
    }

    /** The parent re-renders with the value it was given. */
    method Receive(v: string)
      modifies this`value
      ensures value == v
    {
      value := v;
    }
  }
}
