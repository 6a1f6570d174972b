/** The sign-up hook (edge-functions/onAuthSignup/index.ts): from the new
    user's record it derives the e-mail domain, finds the group of that
    domain or creates one, and makes the user a member of it. The groups
    table and the membership table are fields of a store object; whether
    the create request stores a group (and under which id), what its answer
    holds, and whether the membership insert is stored, are parameters. The
    create request does not ask for the stored row back, so storing the
    group and answering with it are independent. */
module SignupHook {
  import opened Options
  import opened JsStrings
  import opened JsValues

  /** A row of the groups table; `name` and `domain` are `None` where the
      insert omitted them. */
  datatype GroupRow = GroupRow(id: Js, name: Option<string>, kind: string, domain: Option<string>)

  /** A row of the membership table. */
  datatype Membership = Membership(userId: Js, groupId: Js)

  /** `email.split('@')[1]?.toLowerCase()`: the lowercased text between the
      first and the second `@`, none when there is no `@`. */
  function EmailDomain(email: string): (r: Option<string>)
    ensures var i := IndexOf(email, '@');
      (r.Some? <==> i < |email|)
      && (r.Some? ==> r.value == LowerStr(email[i + 1..][..IndexOf(email[i + 1..], '@')]))
  {
    var parts := Split(email, '@');
    SplitSecondPiece(email, '@');
    if |parts| > 1 then Some(LowerStr(parts[1])) else None
  }

  /** The value compared with the `domain` column: the domain, or the text
      `undefined` that the query string gets when there is none. */
  function LookupKey(domain: Option<string>): string
  {
    domain.GetOr("undefined")
  }

  /** The first row whose domain equals the key (`group?.[0]`). */
  function FindGroup(groups: seq<GroupRow>, key: string): (r: Option<nat>)
    ensures r.None? <==> forall i :: 0 <= i < |groups| ==> groups[i].domain != Some(key)
    ensures r.Some? ==>
      (r.value < |groups| && groups[r.value].domain == Some(key)
       && forall i :: 0 <= i < r.value ==> groups[i].domain != Some(key))
  {
    if |groups| == 0 then None
    else if groups[0].domain == Some(key) then Some(0)
    else
      var rest := FindGroup(groups[1..], key);
      assert forall i :: 1 <= i < |groups| ==> groups[i] == groups[1..][i - 1];
      if rest.None? then None else Some(rest.value + 1)
  }

  /** `group?.[0]?.id`. */
  function ExistingGroupId(groups: seq<GroupRow>, domain: Option<string>): Js
  {
    match FindGroup(groups, LookupKey(domain))
    case Some(i) => groups[i].id
    case None => Undefined
  }

  /** The group created for a domain: `{name: domain, type: 'domain', domain}`
      under the id the store assigned. */
  function NewGroup(id: Js, domain: Option<string>): GroupRow
  {
    GroupRow(id, domain, "domain", domain)
  }

  /** What one request does: its status, the groups table afterwards, and
      the membership it asks to insert, if any. */
  datatype Outcome = Outcome(status: int, groups: seq<GroupRow>, member: Option<Membership>)

  /** The request's record (`const { record } = body ?? {}`); an unparsable
      body reads as `null`. */
  function Record(body: Js): Js
  {
    Prop(body, "record")
  }

  /** The whole request: 400 without a truthy e-mail and id; 500 when the
      e-mail is not a string (`split` throws); otherwise the group found for
      the domain, or else a create request, which adds a group to the table
      when it is stored (`stored`, the id the table gave it) and whose answer
      yields the id used (`created`, none when the answer has no row or is
      not JSON); 500 when neither yields a truthy id, else 200 with a
      membership for that group. */
  function Signup(body: Js, groups: seq<GroupRow>, created: Option<Js>, stored: Option<Js>): (o: Outcome)
    ensures o.status in {200, 400, 500}
    ensures o.member.Some? <==> o.status == 200
    ensures o.status == 400 <==> !Truthy(Prop(Record(body), "email")) || !Truthy(Prop(Record(body), "id"))
    ensures |groups| <= |o.groups| <= |groups| + 1 && o.groups[..|groups|] == groups
  {
    var email := Prop(Record(body), "email");
    var userId := Prop(Record(body), "id");
    if !Truthy(email) || !Truthy(userId) then Outcome(400, groups, None)
    else if !email.Str? then Outcome(500, groups, None)
    else
      var domain := EmailDomain(email.s);
      var found := ExistingGroupId(groups, domain);
      if Truthy(found) then Outcome(200, groups, Some(Membership(userId, found)))
      else
        var after := if stored.Some? then groups + [NewGroup(stored.value, domain)] else groups;
        var groupId := if created.Some? then created.value else Undefined;
        assert after[..|groups|] == groups;
        if !Truthy(groupId) then Outcome(500, after, None)
        else Outcome(200, after, Some(Membership(userId, groupId)))
  }

  /** A group already recorded for the domain is reused: nothing is created
      and the user joins that group. */
  lemma ExistingGroupIsReused(body: Js, groups: seq<GroupRow>, created: Option<Js>, stored: Option<Js>, i: nat)
    requires Truthy(Prop(Record(body), "email")) && Truthy(Prop(Record(body), "id"))
    requires Prop(Record(body), "email").Str?
    requires i < |groups| && Truthy(groups[i].id)
    requires groups[i].domain == Some(LookupKey(EmailDomain(Prop(Record(body), "email").s)))
    requires forall j :: 0 <= j < i ==> groups[j].domain != groups[i].domain
    ensures Signup(body, groups, created, stored)
      == Outcome(200, groups, Some(Membership(Prop(Record(body), "id"), groups[i].id)))
  {
    var domain := EmailDomain(Prop(Record(body), "email").s);
    assert FindGroup(groups, LookupKey(domain)) == Some(i);
  }

  /** Without a group for the domain a create request is sent: the table
      gains one group of type `domain` exactly when the insert stores it,
      and the answer alone decides the status: 200 and membership of the
      answered group when it holds a row with a truthy id, else 500 (even
      when the group was stored). */
  lemma MissingGroupIsCreated(body: Js, groups: seq<GroupRow>, created: Option<Js>, stored: Option<Js>)
    requires Truthy(Prop(Record(body), "email")) && Truthy(Prop(Record(body), "id"))
    requires Prop(Record(body), "email").Str?
    requires forall j :: 0 <= j < |groups| ==>
      groups[j].domain != Some(LookupKey(EmailDomain(Prop(Record(body), "email").s)))
    ensures var domain := EmailDomain(Prop(Record(body), "email").s);
      Signup(body, groups, created, stored).groups
        == groups + (if stored.Some? then [GroupRow(stored.value, domain, "domain", domain)] else [])
    ensures Signup(body, groups, created, stored).status == (if created.Some? && Truthy(created.value) then 200 else 500)
    ensures created.Some? && Truthy(created.value) ==>
      Signup(body, groups, created, stored).member == Some(Membership(Prop(Record(body), "id"), created.value))
  {
  }

  /** A create request that stores the group but answers without a row
      leaves the group in the table and still fails the request. */
  lemma StoredGroupWithoutAnswer(body: Js, groups: seq<GroupRow>, id: Js)
    requires Truthy(Prop(Record(body), "email")) && Truthy(Prop(Record(body), "id"))
    requires Prop(Record(body), "email").Str?
    requires forall j :: 0 <= j < |groups| ==>
      groups[j].domain != Some(LookupKey(EmailDomain(Prop(Record(body), "email").s)))
    ensures var domain := EmailDomain(Prop(Record(body), "email").s);
      Signup(body, groups, None, Some(id)) == Outcome(500, groups + [NewGroup(id, domain)], None)
  {
    MissingGroupIsCreated(body, groups, None, Some(id));
  }

  /** A successful request leaves the user's group in the table, holding the
      user's e-mail domain when the e-mail has an `@`, provided an answer
      with a row answers with the row the insert stored. */
  lemma {:induction false} MemberGroupExists(body: Js, groups: seq<GroupRow>, created: Option<Js>, stored: Option<Js>)
    requires created.Some? ==> stored == created
    requires Signup(body, groups, created, stored).status == 200
    ensures var o := Signup(body, groups, created, stored);
      var domain := EmailDomain(Prop(Record(body), "email").s);
      exists k :: 0 <= k < |o.groups| && o.groups[k].id == o.member.value.groupId
        && (domain.Some? ==> o.groups[k].domain == domain)
  {
    var o := Signup(body, groups, created, stored);
    var domain := EmailDomain(Prop(Record(body), "email").s);
    var f := FindGroup(groups, LookupKey(domain));
    if f.Some? && Truthy(groups[f.value].id) {
      assert o.groups[f.value].id == o.member.value.groupId;
    } else {
      var k := |groups|;
      assert o.groups[k] == NewGroup(stored.value, domain);
    }
  }

  /** Once a domain's group has been created, the next sign-up from the
      same domain finds it instead of creating another; an e-mail without an
      `@` is looked up under `undefined` and never finds the group created
      for it. */
  lemma CreatedGroupIsFoundAgain(groups: seq<GroupRow>, id: Js, domain: Option<string>)
    requires forall j :: 0 <= j < |groups| ==> groups[j].domain != Some(LookupKey(domain))
    ensures domain.Some? ==> ExistingGroupId(groups + [NewGroup(id, domain)], domain) == id
    ensures domain.None? ==> ExistingGroupId(groups + [NewGroup(id, domain)], domain) == Undefined
  {
    var gs := groups + [NewGroup(id, domain)];
    if domain.Some? {
      assert gs[|groups|].domain == Some(LookupKey(domain));
      assert FindGroup(gs, LookupKey(domain)) == Some(|groups|);
    } else {
      assert forall j :: 0 <= j < |gs| ==> gs[j].domain != Some(LookupKey(domain));
    }
  }

  /** The groups and memberships tables. */
  class GroupStore {
    var groups: seq<GroupRow>
    var memberships: seq<Membership>

    constructor (groups: seq<GroupRow>, memberships: seq<Membership>)
      ensures this.groups == groups && this.memberships == memberships
    {
      this.groups := groups;
      this.memberships := memberships;
    }

    /** The hook's handler. `stored` is the id under which the create
        request stored the group (none when it stored nothing), `created`
        the id in its answer (none when the answer holds no row) and
        `memberStored` whether the membership insert, whose answer is not
        read, was stored. */
    method HandleSignup(body: Js, created: Option<Js>, stored: Option<Js>, memberStored: bool) returns (status: int)
      modifies this
      ensures var o := Signup(body, old(groups), created, stored);
        status == o.status && groups == o.groups
        && memberships == old(memberships) + (if o.member.Some? && memberStored then [o.member.value] else [])
    {
      var record := Record(body);
      var email := Prop(record, "email");
      var userId := Prop(record, "id");
      if !Truthy(email) || !Truthy(userId) {
        return 400;
      }
      if !email.Str? {
        return 500;
      }
      var domain := EmailDomain(email.s);
      var groupId := ExistingGroupId(groups, domain);
      if !Truthy(groupId) {
        if stored.Some? {
          groups := groups + [NewGroup(stored.value, domain)];
        }
        groupId := if created.Some? then created.value else Undefined;
      }
      if !Truthy(groupId) {
        return 500;
      }
      if memberStored {
        memberships := memberships + [Membership(userId, groupId)];
      }
      status := 200;
    }
  }
}
