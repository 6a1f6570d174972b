/** The side navigation (components/SideNav.tsx): the icon drawn for a
    navigation item's icon name, the rail's size toggle and open flag, and
    the key a section is rendered under. */
module SideNav {
  import opened Options
  import opened JsStrings

  /** The icons of `iconMap`. */
  datatype Icon = LayoutGrid | ListChecks | FileText | Users | Shield | Settings
                | FolderOpen | BookOpenText | ClipboardList

  /** `iconMap`: lower-case names to icons. */
  const IconMap: map<string, Icon> := map[
    "layout-grid" := LayoutGrid, "list-checks" := ListChecks, "file-text" := FileText,
    "users" := Users, "shield" := Shield, "settings" := Settings,
    "folder" := FolderOpen, "folder-open" := FolderOpen,
    "clipboard-list" := ClipboardList, "book" := BookOpenText]

  /** The names that every object literal inherits from `Object.prototype`
      and that a lower-cased string can spell: `constructor` (the `Object`
      function) and `__proto__` (the prototype itself). */
  const InheritedNames: set<string> := {"constructor", "__proto__"}

  /** What `iconMap[key]` yields on the object literal: one of its own icons,
      or an inherited member that is not an icon component. */
  datatype Lookup = Component(icon: Icon) | Inherited(member: string)

  /** `resolveIcon` as written: an own property of the literal is found, an
      inherited one is found as well (and is not nullish, so `??` keeps it),
      anything else falls back to `LayoutGrid`. */
  function ResolveIconAsWritten(name: Option<string>): (r: Lookup)
    ensures r.Inherited? ==> name.Some? && r.member in InheritedNames && r.member == LowerStr(name.value)
  {
    if name.None? || name.value == "" then Component(LayoutGrid)
    else
      var key := LowerStr(name.value);
      if key in IconMap then Component(IconMap[key])
      else if key in InheritedNames then Inherited(key)
      else Component(LayoutGrid)
  }

  /** `resolveIcon` with the lookup restricted to the map's own names: a null
      or empty name, or one that names no icon in any letter case, gives
      `LayoutGrid`. */
  function ResolveIcon(name: Option<string>): (r: Icon)
    ensures name.None? || name.value == "" ==> r == LayoutGrid
    ensures name.Some? && LowerStr(name.value) !in IconMap ==> r == LayoutGrid
    ensures name.Some? && LowerStr(name.value) in IconMap ==> r == IconMap[LowerStr(name.value)]
  {
    if name.None? || name.value == "" then LayoutGrid
    else
      var key := LowerStr(name.value);
      if key in IconMap then IconMap[key] else LayoutGrid
  }

  /** An item whose icon name is `Constructor` (or `constructor`) gets the
      inherited `Object` function from the literal instead of an icon, where
      the fallback `LayoutGrid` was meant. */
  lemma ConstructorIsNoIcon()
    ensures ResolveIconAsWritten(Some("Constructor")) == Inherited("constructor")
    ensures ResolveIconAsWritten(Some("__proto__")) == Inherited("__proto__")
    ensures ResolveIcon(Some("Constructor")) == LayoutGrid
  {
    assert LowerStr("Constructor") == "constructor";
    assert LowerStr("__proto__") == "__proto__";
  }

  /** Apart from the two inherited names, the lookup as written and the
      corrected one agree. */
  lemma ResolveIconAgrees(name: Option<string>)
    requires name.None? || LowerStr(name.value) !in InheritedNames
    ensures ResolveIconAsWritten(name) == Component(ResolveIcon(name))
  {
  }

  /** The lookup ignores letter case, and `folder` and `folder-open` draw the
      same icon. */
  lemma ResolveIconCaseInsensitive(s: string)
    ensures ResolveIcon(Some(s)) == ResolveIcon(Some(LowerStr(s)))
    ensures ResolveIcon(Some("folder")) == ResolveIcon(Some("Folder-Open")) == FolderOpen
  {
    LowerStrIdempotent(s);
    assert LowerStr("folder") == "folder";
    assert LowerStr("Folder-Open") == "folder-open";
  }

  /** The rail's width. */
  datatype Mode = Mobile | Min | Full

  /** The size button: full becomes min, any other mode becomes full. */
  function ToggleSize(m: Mode): (r: Mode)
    ensures r != m
    ensures r == Min <==> m == Full
  {
    if m == Full then Min else Full
  }

  /** `section.id ?? 'uncategorised'`. */
  function SectionKey(id: Option<string>): (r: string)
    ensures id.Some? ==> r == id.value
    ensures id.None? ==> r == "uncategorised"
  {
    match id
    case Some(s) => s
    case None => "uncategorised"
  }

  /** The rail's state: its width and whether it is open on small screens. */
  class NavRail {
    var mode: Mode
    var open: bool

    constructor ()
      ensures mode == Full && !open
    {
      mode := Full;
      open := false;
    }

    /** The size button. */
    method ClickSize()
      modifies this`mode
      ensures mode == ToggleSize(old(mode))
    {
      mode := if mode == Full then Min else Full;
    }

    /** The menu button. */
    method ClickMenu()
      modifies this`open
      ensures open == !old(open)
    {
      open := !open;
    }
  }

  /** Two clicks on the size button return to the starting width, except from
      the mobile width, which the button never produces. */
  lemma ToggleSizeTwice(m: Mode)
    ensures m != Mobile ==> ToggleSize(ToggleSize(m)) == m
    ensures ToggleSize(ToggleSize(Mobile)) == Min
  {
  }
}
