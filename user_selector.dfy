/** The user picker (components/UserSelectorModal.tsx): the search over the
    fetched users, the selected ids in single and multiple mode, and what
    confirming hands back. The list of users the modal fetches on opening is
    a parameter. */
module UserSelector {
  import opened Options
  import opened JsStrings
  import opened Seqs

  /** A user as the modal reads it; a null display name is `None`. */
  datatype User = User(id: string, email: string, displayName: Option<string>)

  /** The search test: the lowercased email, or the lowercased display name
      when there is one, contains the lowercased term. */
  predicate MatchesSearch(u: User, term: string)
  {
    Includes(LowerStr(u.email), LowerStr(term))
    || (u.displayName.Some? && Includes(LowerStr(u.displayName.value), LowerStr(term)))
  }

  /** `filteredUsers`. */
  function FilteredUsers(users: seq<User>, term: string): (r: seq<User>)
    ensures |r| <= |users|
  {
    Keep(users, u => MatchesSearch(u, term))
  }

  /** A user is listed exactly when the search matches them, in the order of
      the fetched list; the empty term lists everybody. */
  lemma FilteredUsersSpec(users: seq<User>, term: string)
    ensures forall u :: u in users ==> (u in FilteredUsers(users, term) <==> MatchesSearch(u, term))
    ensures forall u :: u in FilteredUsers(users, term) ==> u in users
    ensures IsSubsequence(FilteredUsers(users, term), users)
    ensures term == "" ==> FilteredUsers(users, term) == users
  {
    var p := u => MatchesSearch(u, term);
    forall u | u in users
      ensures u in Keep(users, p) <==> MatchesSearch(u, term)
    {
      KeepMember(users, p, u);
    }
    KeepIsSubsequence(users, p);
    if term == "" {
      forall u | u in users
        ensures p(u)
      {
        IncludesEmpty(LowerStr(u.email));
      }
      KeepAll(users, p);
    }
  }

  /** The users handed back on confirm: those whose id is selected. */
  function SelectedUsers(users: seq<User>, selected: set<string>): (r: seq<User>)
    ensures |r| <= |users|
  {
    Keep(users, (u: User) => u.id in selected)
  }

  /** Confirm hands back exactly the fetched users whose id is selected, in
      the order of the fetched list. */
  lemma SelectedUsersSpec(users: seq<User>, selected: set<string>)
    ensures forall u :: u in users ==> (u in SelectedUsers(users, selected) <==> u.id in selected)
    ensures forall u :: u in SelectedUsers(users, selected) ==> u in users
    ensures IsSubsequence(SelectedUsers(users, selected), users)
    ensures selected == {} ==> SelectedUsers(users, selected) == []
  {
    var p := (u: User) => u.id in selected;
    forall u | u in users
      ensures u in Keep(users, p) <==> u.id in selected
    {
      KeepMember(users, p, u);
    }
    KeepIsSubsequence(users, p);
    if selected == {} {
      KeepNone(users, p);
    }
  }

  /** The modal's state: whether it is open, the fetched users, the search
      term and the set of selected ids. */
  class UserSelectorModal {
    const multiple: bool
    var isOpen: bool
    var users: seq<User>
    var searchTerm: string
    var selected: set<string>

    constructor (multiple: bool, selectedUserIds: seq<string>)
      ensures this.multiple == multiple && !isOpen
      ensures users == [] && searchTerm == "" && selected == set id | id in selectedUserIds
    {
      this.multiple := multiple;
      isOpen := false;
      users := [];
      searchTerm := "";
      selected := set id | id in selectedUserIds;
    }

    /** New `isOpen` or `selectedUserIds` props, which run the effect: while
        the modal is open (when it opens, and again whenever new ids arrive)
        the selection is reset to `selectedUserIds` and the fetched users
        replace the list (a failed fetch leaves it as it was); while it is
        closed nothing else changes. */
    method PropsChanged(open: bool, selectedUserIds: seq<string>, fetched: Option<seq<User>>)
      modifies this`isOpen, this`users, this`selected
      ensures isOpen == open
      ensures open ==> selected == set id | id in selectedUserIds
      ensures open ==> users == if fetched.Some? then fetched.value else old(users)
      ensures !open ==> selected == old(selected) && users == old(users)
    {
      isOpen := open;
      if open {
        selected := set id | id in selectedUserIds;
        if fetched.Some? {
          users := fetched.value;
        }
      }
    }

    /** Typing into the search box. */
    method Search(term: string)
      modifies this`searchTerm
      ensures searchTerm == term
    {
      searchTerm := term;
    }

    /** The users listed under the search box. */
    function Listed(): seq<User>
      reads this
    {
      FilteredUsers(users, searchTerm)
    }

    /** `handleToggleUser`: a selected id is removed; an unselected one is
        added in multiple mode and replaces the selection in single mode, so
        a single-mode selection never grows past one id. */
    method ToggleUser(id: string)
      modifies this`selected
      ensures id in old(selected) ==> selected == old(selected) - {id}
      ensures id !in old(selected) && multiple ==> selected == old(selected) + {id}
      ensures id !in old(selected) && !multiple ==> selected == {id}
      ensures !multiple && |old(selected)| <= 1 ==> |selected| <= 1
    {
      if id in selected {
        selected := selected - {id};
      } else if multiple {
        selected := selected + {id};
      } else {
        selected := {id};
      }
    }

    /** `handleClear`. */
    method Clear()
      modifies this`selected
      ensures selected == {}
    {
      selected := {};
    }

    /** The confirm button is enabled exactly when some id is selected. */
    predicate ConfirmEnabled()
      reads this
    {
      |selected| != 0
    }

    /** `handleConfirm`: the users passed to `onSelect`. */
    method Confirm() returns (chosen: seq<User>)
      ensures chosen == SelectedUsers(users, selected)
      ensures !ConfirmEnabled() ==> chosen == []
    {
      SelectedUsersSpec(users, selected);
      chosen := SelectedUsers(users, selected);
    }
  }
}
