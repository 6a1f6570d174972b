/** The home page (app/page.tsx): whether the signed-in user may see the
    dashboard page, and which of the three views is rendered. The four
    database answers are parameters; each is only consulted when the source
    would have asked for it. */
module HomePage {
  import opened Options
  import opened JsValues

  type Fields = map<string, Js>

  datatype Session = Session(email: Js)

  /** `rows.map(r => r.group_id)`. */
  function GroupIds(rows: seq<Fields>): (r: seq<Js>)
    ensures |r| == |rows| && forall i :: 0 <= i < |rows| ==> r[i] == Prop(Obj(rows[i]), "group_id")
  {
    if |rows| == 0 then [] else [Prop(Obj(rows[0]), "group_id")] + GroupIds(rows[1..])
  }

  /** `pageGroups.some(pg => userGroupIds.includes(pg.group_id))`. */
  function SharesGroup(pageGroups: seq<Fields>, userGroupIds: seq<Js>): (r: bool)
    ensures r <==> exists i :: 0 <= i < |pageGroups| && Prop(Obj(pageGroups[i]), "group_id") in userGroupIds
  {
    if |pageGroups| == 0 then false
    else if Prop(Obj(pageGroups[0]), "group_id") in userGroupIds then true
    else
      var rest := SharesGroup(pageGroups[1..], userGroupIds);
      assert forall i :: 1 <= i < |pageGroups| ==> pageGroups[i] == pageGroups[1..][i - 1];
      rest
  }

  /** `hasDashboardAccess` (lines 23-50). `page` is the dashboard page row,
      `pageGroups` the rows of its group restrictions, `user` the user row
      found for the session's email and `userGroups` that user's group rows
      (`None` where a query returned no data). */
  function HasDashboardAccess(page: Option<Fields>, session: Option<Session>, pageGroups: Option<seq<Fields>>,
                              user: Option<Fields>, userGroups: Option<seq<Fields>>): bool
  {
    if page.None? || session.None? || !Truthy(session.value.email) then true
    else if pageGroups.None? || |pageGroups.value| == 0 then true
    else if user.None? then false
    else
      var ids := if userGroups.Some? then GroupIds(userGroups.value) else [];
      SharesGroup(pageGroups.value, ids)
  }

  /** Access is granted to everyone when there is no dashboard page, no
      signed-in email, or no group restriction on the page; to a restricted
      page it is granted exactly when the user's record exists and one of the
      page's groups is among the user's groups. */
  lemma HasDashboardAccessSpec(page: Option<Fields>, session: Option<Session>, pageGroups: Option<seq<Fields>>,
                               user: Option<Fields>, userGroups: Option<seq<Fields>>)
    ensures page.None? || session.None? || !Truthy(session.value.email) ==>
      HasDashboardAccess(page, session, pageGroups, user, userGroups)
    ensures pageGroups.None? || pageGroups.value == [] ==> HasDashboardAccess(page, session, pageGroups, user, userGroups)
    ensures (page.Some? && session.Some? && Truthy(session.value.email) && pageGroups.Some? && |pageGroups.value| > 0) ==>
      (HasDashboardAccess(page, session, pageGroups, user, userGroups) <==>
        user.Some? && userGroups.Some?
        && exists i, j :: 0 <= i < |pageGroups.value| && 0 <= j < |userGroups.value|
             && Prop(Obj(pageGroups.value[i]), "group_id") == Prop(Obj(userGroups.value[j]), "group_id"))
  {
    if page.Some? && session.Some? && Truthy(session.value.email) && pageGroups.Some? && |pageGroups.value| > 0 && user.Some? {
      var pgs := pageGroups.value;
      if userGroups.Some? {
        var ugs := userGroups.value;
        var ids := GroupIds(ugs);
        if SharesGroup(pgs, ids) {
          var i :| 0 <= i < |pgs| && Prop(Obj(pgs[i]), "group_id") in ids;
          var j :| 0 <= j < |ids| && ids[j] == Prop(Obj(pgs[i]), "group_id");
          assert Prop(Obj(pgs[i]), "group_id") == Prop(Obj(ugs[j]), "group_id");
        }
        if exists i, j :: 0 <= i < |pgs| && 0 <= j < |ugs| && Prop(Obj(pgs[i]), "group_id") == Prop(Obj(ugs[j]), "group_id") {
          var i, j :| 0 <= i < |pgs| && 0 <= j < |ugs| && Prop(Obj(pgs[i]), "group_id") == Prop(Obj(ugs[j]), "group_id");
          assert ids[j] == Prop(Obj(pgs[i]), "group_id");
        }
      }
    }
  }

  /** The three things the page can render. */
  datatype View = PageContent(title: Js, content: Js) | SignInWelcome | Links

  /** The view (lines 58-116): the page's content when it exists and access
      is granted; otherwise the sign-in welcome without a session and the
      links with one. */
  function ChooseView(page: Option<Fields>, session: Option<Session>, access: bool): (v: View)
    ensures v.PageContent? <==> page.Some? && access
    ensures v.PageContent? ==> v == PageContent(Prop(Obj(page.value), "title"), Prop(Obj(page.value), "content_mdx"))
    ensures v == SignInWelcome <==> !(page.Some? && access) && session.None?
    ensures v == Links <==> !(page.Some? && access) && session.Some?
  {
    if page.Some? && access then PageContent(Prop(Obj(page.value), "title"), Prop(Obj(page.value), "content_mdx"))
    else if session.None? then SignInWelcome
    else Links
  }

  /** Without a session the dashboard page, when it exists, is always shown:
      access is only restricted for a signed-in email. */
  lemma AnonymousSeesPublicPage(page: Option<Fields>, pageGroups: Option<seq<Fields>>,
                                user: Option<Fields>, userGroups: Option<seq<Fields>>)
    requires page.Some?
    ensures ChooseView(page, None, HasDashboardAccess(page, None, pageGroups, user, userGroups)).PageContent?
  {
  }
}
