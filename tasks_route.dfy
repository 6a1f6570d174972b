/** The tasks API (app/api/tasks/route.ts): GET groups the fetched tasks by
    project, POST validates a new task and fills in defaults, PATCH updates a
    task and logs one change record per updated field. The database answers
    are parameters; the session check is a boolean. */
module TasksRoute {
  import opened Options
  import opened Seqs
  import opened JsValues

  type Fields = map<string, Js>

  // ---------------------------------------------------------------------------
  // GET: grouping tasks by project

  /** A project with the tasks grouped under it. */
  datatype Group = Group(id: Js, project: Fields, tasks: seq<Fields>)

  function ProjectOf(task: Js): Js
  {
    Prop(task, "s42_projects")
  }

  /** `task.s42_projects.id`; reading it throws unless the task has a project. */
  function ProjectId(task: Js): Js
  {
    Prop(ProjectOf(task), "id")
  }

  predicate Groupable(task: Js)
  {
    task.Obj? && !ProjectOf(task).Nullish()
  }

  /** The properties `{...v}` copies. An array or a string would also give
      its indices as keys; the joined project is always an object or null,
      so those cases do not arise and are not modelled. */
  function Spread(v: Js): Fields
  {
    if v.Obj? then v.fields else map[]
  }

  /** `const { s42_projects, ...rest } = task`: the task without its project. */
  function Strip(task: Js): (r: Fields)
    ensures "s42_projects" !in r
    ensures task.Obj? ==> forall k :: k != "s42_projects" ==> (k in r <==> k in task.fields)
  {
    if task.Obj? then task.fields - {"s42_projects"} else map[]
  }

  function Strips(ts: seq<Js>): (r: seq<Fields>)
    ensures |r| == |ts| && forall i :: 0 <= i < |ts| ==> r[i] == Strip(ts[i])
  {
    if |ts| == 0 then [] else [Strip(ts[0])] + Strips(ts[1..])
  }

  function Ids(gs: seq<Group>): (r: seq<Js>)
    ensures |r| == |gs| && forall i :: 0 <= i < |gs| ==> r[i] == gs[i].id
  {
    if |gs| == 0 then [] else [gs[0].id] + Ids(gs[1..])
  }

  /** Position of the group with this id (`projectsMap.get`), `|gs|` if none. */
  function IndexOfId(gs: seq<Group>, id: Js): (i: nat)
    ensures i <= |gs|
    ensures i < |gs| ==> gs[i].id == id
    ensures forall k :: 0 <= k < i ==> gs[k].id != id
  {
    if |gs| == 0 || gs[0].id == id then 0 else 1 + IndexOfId(gs[1..], id)
  }

  function TotalTasks(gs: seq<Group>): nat
  {
    if |gs| == 0 then 0 else |gs[0].tasks| + TotalTasks(gs[1..])
  }

  /** One iteration of the `forEach`: a new project opens a group at the end,
      a known one gets the task appended. */
  function AddTask(gs: seq<Group>, task: Js): seq<Group>
  {
    var id := ProjectId(task);
    var i := IndexOfId(gs, id);
    if i == |gs| then gs + [Group(id, Spread(ProjectOf(task)), [Strip(task)])]
    else gs[i := gs[i].(tasks := gs[i].tasks + [Strip(task)])]
  }

  /** The grouping of a task list, or `None` when a task without a project
      makes the loop throw. */
  function GroupAll(data: seq<Js>): Option<seq<Group>>
  {
    if |data| == 0 then Some([])
    else
      var prev := GroupAll(data[..|data| - 1]);
      var t := data[|data| - 1];
      if prev.None? || !Groupable(t) then None else Some(AddTask(prev.value, t))
  }

  /** The loop at lines 51-69, proved to compute GroupAll. */
  method GroupTasks(data: seq<Js>) returns (r: Option<seq<Group>>)
    ensures r == GroupAll(data)
  {
    var groups: seq<Group> := [];
    var i := 0;
    while i < |data|
      invariant 0 <= i <= |data|
      invariant GroupAll(data[..i]) == Some(groups)
    {
      var task := data[i];
      assert data[..i + 1][..i] == data[..i];
      if !Groupable(task) {
        GroupAllFails(data);
        return None;
      }
      var id := ProjectId(task);
      var j := IndexOfId(groups, id);
      if j == |groups| {
        groups := groups + [Group(id, Spread(ProjectOf(task)), [Strip(task)])];
      } else {
        groups := groups[j := groups[j].(tasks := groups[j].tasks + [Strip(task)])];
      }
      i := i + 1;
    }
    assert data[..i] == data;
    r := Some(groups);
  }

  /** Grouping throws exactly when some task has no project. */
  lemma {:induction false} GroupAllFails(data: seq<Js>)
    ensures GroupAll(data).None? <==> exists k :: 0 <= k < |data| && !Groupable(data[k])
  {
    if |data| > 0 {
      var p := data[..|data| - 1];
      GroupAllFails(p);
      if exists k :: 0 <= k < |p| && !Groupable(p[k]) {
        var k :| 0 <= k < |p| && !Groupable(p[k]);
        assert data[k] == p[k];
      }
      if k :| 0 <= k < |data| && !Groupable(data[k]) {
        if k < |p| {
          assert p[k] == data[k];
        }
      }
    }
  }

  /** The sequence without repetitions, each element at its first occurrence. */
  function Dedup(s: seq<Js>): (r: seq<Js>)
    ensures NoDup(r)
    ensures forall x :: x in r <==> x in s
  {
    if |s| == 0 then []
    else
      var d := Dedup(s[..|s| - 1]);
      var x := s[|s| - 1];
      assert s == s[..|s| - 1] + [x];
      if x in d then d else d + [x]
  }

  function ProjectIds(data: seq<Js>): (r: seq<Js>)
    ensures |r| == |data| && forall k :: 0 <= k < |data| ==> r[k] == ProjectId(data[k])
  {
    seq(|data|, k requires 0 <= k < |data| => ProjectId(data[k]))
  }

  /** `data.filter(t => t.s42_projects.id === id)`: the tasks of one project, in order. */
  function TasksOf(data: seq<Js>, id: Js): (r: seq<Js>)
    ensures |r| <= |data|
  {
    if |data| == 0 then []
    else
      var t := data[|data| - 1];
      TasksOf(data[..|data| - 1], id) + (if ProjectId(t) == id then [t] else [])
  }

  lemma TasksOfSnoc(p: seq<Js>, t: Js, id: Js)
    ensures TasksOf(p + [t], id) == TasksOf(p, id) + (if ProjectId(t) == id then [t] else [])
  {
    assert (p + [t])[..|p|] == p;
  }

  /** A task is among its project's tasks exactly when it is in the input. */
  lemma {:induction false} TasksOfMember(data: seq<Js>, id: Js, x: Js)
    ensures x in TasksOf(data, id) <==> x in data && ProjectId(x) == id
  {
    if |data| > 0 {
      var p := data[..|data| - 1];
      var t := data[|data| - 1];
      assert data == p + [t];
      TasksOfMember(p, id, x);
    }
  }

  lemma StripsAppend(a: seq<Js>, b: seq<Js>)
    ensures Strips(a + b) == Strips(a) + Strips(b)
  {
  }

  lemma StripsSnoc(a: seq<Js>, t: Js)
    ensures Strips(a + [t]) == Strips(a) + [Strip(t)]
  {
    StripsAppend(a, [t]);
  }

  lemma {:induction false} TotalTasksUpdate(gs: seq<Group>, i: nat, g: Group)
    requires i < |gs|
    ensures TotalTasks(gs[i := g]) == TotalTasks(gs) - |gs[i].tasks| + |g.tasks|
  {
    if i > 0 {
      TotalTasksUpdate(gs[1..], i - 1, g);
      assert gs[i := g][1..] == gs[1..][i - 1 := g];
    }
  }

  lemma {:induction false} TotalTasksAppend(gs: seq<Group>, g: Group)
    ensures TotalTasks(gs + [g]) == TotalTasks(gs) + |g.tasks|
  {
    if |gs| > 0 {
      TotalTasksAppend(gs[1..], g);
      assert (gs + [g])[1..] == gs[1..] + [g];
    }
  }

  predicate AllGroupable(data: seq<Js>)
  {
    forall k :: 0 <= k < |data| ==> Groupable(data[k])
  }

  /** Groups appear in the order of each project's first task, once each. */
  lemma {:induction false} GroupIdsInFirstOccurrenceOrder(data: seq<Js>)
    requires AllGroupable(data)
    ensures GroupAll(data).Some? && Ids(GroupAll(data).value) == Dedup(ProjectIds(data))
  {
    if |data| > 0 {
      var n := |data|;
      var p := data[..n - 1];
      var t := data[n - 1];
      GroupIdsInFirstOccurrenceOrder(p);
      var prev := GroupAll(p).value;
      var id := ProjectId(t);
      assert ProjectIds(data)[..n - 1] == ProjectIds(p);
      if IndexOfId(prev, id) == |prev| {
        assert Ids(GroupAll(data).value) == Ids(prev) + [id];
      } else {
        assert id in Ids(prev);
        assert Ids(GroupAll(data).value) == Ids(prev);
      }
    }
  }

  /** The group holds, in input order, the tasks of its project, stripped. */
  predicate HoldsProjectTasks(g: Group, data: seq<Js>)
  {
    g.tasks == Strips(TasksOf(data, g.id))
  }

  predicate TasksMatch(gs: seq<Group>, data: seq<Js>)
  {
    forall j :: 0 <= j < |gs| ==> HoldsProjectTasks(gs[j], data)
  }

  /** A group of another project is not affected by one more task. */
  lemma HoldsProjectTasksOther(g: Group, p: seq<Js>, t: Js)
    requires HoldsProjectTasks(g, p)
    requires ProjectId(t) != g.id
    ensures HoldsProjectTasks(g, p + [t])
  {
    TasksOfSnoc(p, t, g.id);
  }

  /** The group of the task's project gets the task appended. */
  lemma HoldsProjectTasksSame(g: Group, p: seq<Js>, t: Js)
    requires HoldsProjectTasks(g, p)
    requires ProjectId(t) == g.id
    ensures HoldsProjectTasks(g.(tasks := g.tasks + [Strip(t)]), p + [t])
  {
    TasksOfSnoc(p, t, g.id);
    StripsSnoc(TasksOf(p, g.id), t);
  }

  /** No task of `p` belongs to a project whose id is not among `p`'s project ids. */
  lemma {:induction false} AbsentProjectHasNoTasks(p: seq<Js>, id: Js)
    requires id !in ProjectIds(p)
    ensures TasksOf(p, id) == []
  {
    if |p| > 0 {
      var q := p[..|p| - 1];
      assert ProjectIds(p)[|p| - 1] == ProjectId(p[|p| - 1]);
      assert id !in ProjectIds(q) by {
        assert ProjectIds(q) == ProjectIds(p)[..|p| - 1];
      }
      AbsentProjectHasNoTasks(q, id);
    }
  }

  /** A project none of the earlier tasks had starts a group with just this task. */
  lemma HoldsProjectTasksNew(p: seq<Js>, t: Js)
    requires ProjectId(t) !in ProjectIds(p)
    ensures HoldsProjectTasks(Group(ProjectId(t), Spread(ProjectOf(t)), [Strip(t)]), p + [t])
  {
    AbsentProjectHasNoTasks(p, ProjectId(t));
    TasksOfSnoc(p, t, ProjectId(t));
    StripsSnoc([], t);
  }

  /** One step of GroupHoldsItsProjectsTasks. */
  lemma AddTaskKeepsTasksMatch(prev: seq<Group>, p: seq<Js>, t: Js)
    requires Ids(prev) == Dedup(ProjectIds(p))
    requires TasksMatch(prev, p)
    ensures TasksMatch(AddTask(prev, t), p + [t])
  {
    var gs := AddTask(prev, t);
    var id := ProjectId(t);
    var i := IndexOfId(prev, id);
    if i == |prev| {
      assert id !in Ids(prev);
      forall j | 0 <= j < |gs|
        ensures HoldsProjectTasks(gs[j], p + [t])
      {
        if j < |prev| {
          HoldsProjectTasksOther(prev[j], p, t);
        } else {
          HoldsProjectTasksNew(p, t);
        }
      }
    } else {
      forall j | 0 <= j < |gs|
        ensures HoldsProjectTasks(gs[j], p + [t])
      {
        if j == i {
          HoldsProjectTasksSame(prev[i], p, t);
        } else {
          assert Ids(prev)[j] == prev[j].id && Ids(prev)[i] == prev[i].id;
          HoldsProjectTasksOther(prev[j], p, t);
        }
      }
    }
  }

  /** A group holds, in input order, exactly the tasks of its project, each
      without its `s42_projects` field. */
  lemma {:induction false} GroupHoldsItsProjectsTasks(data: seq<Js>)
    requires AllGroupable(data)
    ensures GroupAll(data).Some? && TasksMatch(GroupAll(data).value, data)
  {
    GroupAllFails(data);
    if |data| > 0 {
      var p := data[..|data| - 1];
      var t := data[|data| - 1];
      assert data == p + [t];
      assert AllGroupable(p);
      GroupHoldsItsProjectsTasks(p);
      GroupIdsInFirstOccurrenceOrder(p);
      var prev := GroupAll(p).value;
      assert GroupAll(data).value == AddTask(prev, t);
      AddTaskKeepsTasksMatch(prev, p, t);
    }
  }

  /** Task `k` is the first of its project in `data`. */
  predicate FirstOfProject(data: seq<Js>, k: int, id: Js)
  {
    0 <= k < |data| && ProjectId(data[k]) == id && forall m :: 0 <= m < k ==> ProjectId(data[m]) != id
  }

  ghost predicate ProjectsMatch(gs: seq<Group>, data: seq<Js>)
  {
    forall j :: 0 <= j < |gs| ==>
      exists k :: FirstOfProject(data, k, gs[j].id) && gs[j].project == Spread(ProjectOf(data[k]))
  }

  /** Adding a task keeps every existing group's id and project, and opens a
      new group only for a project not seen before. */
  lemma AddTaskShape(prev: seq<Group>, t: Js)
    ensures var gs := AddTask(prev, t);
      |prev| <= |gs| <= |prev| + 1
      && (forall j :: 0 <= j < |prev| ==> gs[j].id == prev[j].id && gs[j].project == prev[j].project)
      && (|gs| > |prev| ==>
            ProjectId(t) !in Ids(prev) && gs[|prev|] == Group(ProjectId(t), Spread(ProjectOf(t)), [Strip(t)]))
  {
    var i := IndexOfId(prev, ProjectId(t));
    if i == |prev| {
      assert forall k :: 0 <= k < |prev| ==> Ids(prev)[k] != ProjectId(t);
    }
  }

  /** One step of GroupProjectFromFirstTask. */
  lemma AddTaskKeepsProjectsMatch(prev: seq<Group>, p: seq<Js>, t: Js)
    requires Ids(prev) == Dedup(ProjectIds(p))
    requires ProjectsMatch(prev, p)
    ensures ProjectsMatch(AddTask(prev, t), p + [t])
  {
    var gs := AddTask(prev, t);
    var data := p + [t];
    var id := ProjectId(t);
    AddTaskShape(prev, t);
    forall j | 0 <= j < |gs|
      ensures exists k :: FirstOfProject(data, k, gs[j].id) && gs[j].project == Spread(ProjectOf(data[k]))
    {
      if j < |prev| {
        var k :| FirstOfProject(p, k, prev[j].id) && prev[j].project == Spread(ProjectOf(p[k]));
        FirstOfProjectSnoc(p, t, k, prev[j].id);
        assert data[k] == p[k];
      } else {
        NewProjectFirst(p, t);
      }
    }
  }

  /** Appending a task keeps the first task of every project. */
  lemma FirstOfProjectSnoc(p: seq<Js>, t: Js, k: int, id: Js)
    requires FirstOfProject(p, k, id)
    ensures FirstOfProject(p + [t], k, id)
  {
    assert forall m :: 0 <= m <= k ==> (p + [t])[m] == p[m];
  }

  /** A task of a project not seen before is that project's first task. */
  lemma NewProjectFirst(p: seq<Js>, t: Js)
    requires ProjectId(t) !in ProjectIds(p)
    ensures FirstOfProject(p + [t], |p|, ProjectId(t))
  {
    var data := p + [t];
    forall m | 0 <= m < |p|
      ensures ProjectId(data[m]) != ProjectId(t)
    {
      assert ProjectIds(p)[m] == ProjectId(p[m]);
      assert data[m] == p[m];
    }
  }

  /** A group's project fields are copied from its first task's project. */
  lemma {:induction false} GroupProjectFromFirstTask(data: seq<Js>)
    requires AllGroupable(data)
    ensures GroupAll(data).Some? && ProjectsMatch(GroupAll(data).value, data)
  {
    GroupIdsInFirstOccurrenceOrder(data);
    if |data| > 0 {
      var p := data[..|data| - 1];
      var t := data[|data| - 1];
      assert data == p + [t];
      GroupProjectFromFirstTask(p);
      GroupIdsInFirstOccurrenceOrder(p);
      AddTaskKeepsProjectsMatch(GroupAll(p).value, p, t);
    }
  }

  /** The groups hold as many tasks as the input. */
  lemma {:induction false} GroupCountsEveryTask(data: seq<Js>)
    requires AllGroupable(data)
    ensures GroupAll(data).Some? && TotalTasks(GroupAll(data).value) == |data|
  {
    GroupAllFails(data);
    if |data| > 0 {
      var p := data[..|data| - 1];
      var t := data[|data| - 1];
      GroupCountsEveryTask(p);
      var prev := GroupAll(p).value;
      var i := IndexOfId(prev, ProjectId(t));
      if i == |prev| {
        TotalTasksAppend(prev, Group(ProjectId(t), Spread(ProjectOf(t)), [Strip(t)]));
      } else {
        TotalTasksUpdate(prev, i, prev[i].(tasks := prev[i].tasks + [Strip(t)]));
      }
    }
  }

  /** Every task lands in the one group of its project: groups have
      distinct ids, the task's group holds it, and no task is counted twice. */
  lemma GroupsPartitionTasks(data: seq<Js>)
    requires AllGroupable(data)
    ensures GroupAll(data).Some?
    ensures var gs := GroupAll(data).value;
      NoDup(Ids(gs))
      && (forall k :: 0 <= k < |data| ==>
            exists j :: 0 <= j < |gs| && gs[j].id == ProjectId(data[k]) && Strip(data[k]) in gs[j].tasks)
      && TotalTasks(gs) == |data|
  {
    GroupIdsInFirstOccurrenceOrder(data);
    GroupCountsEveryTask(data);
    var gs := GroupAll(data).value;
    forall k | 0 <= k < |data|
      ensures exists j :: 0 <= j < |gs| && gs[j].id == ProjectId(data[k]) && Strip(data[k]) in gs[j].tasks
    {
      var j := TaskInItsGroup(data, k);
    }
  }

  /** The group of task `k`'s project holds the task. */
  lemma TaskInItsGroup(data: seq<Js>, k: int) returns (j: int)
    requires AllGroupable(data) && 0 <= k < |data|
    ensures GroupAll(data).Some?
    ensures var gs := GroupAll(data).value;
      0 <= j < |gs| && gs[j].id == ProjectId(data[k]) && Strip(data[k]) in gs[j].tasks
  {
    GroupIdsInFirstOccurrenceOrder(data);
    GroupHoldsItsProjectsTasks(data);
    var gs := GroupAll(data).value;
    var id := ProjectId(data[k]);
    assert ProjectIds(data)[k] == id;
    assert id in Ids(gs);
    j :| 0 <= j < |gs| && Ids(gs)[j] == id;
    TasksOfMember(data, id, data[k]);
    var kept := TasksOf(data, id);
    var m :| 0 <= m < |kept| && kept[m] == data[k];
    assert gs[j].tasks == Strips(kept);
    assert gs[j].tasks[m] == Strip(data[k]);
  }

  datatype GetReply = GetFailed(status: int) | GetGrouped(groups: seq<Group>)

  /** GET: 401 without a session, 500 without configuration, the fetch's own
      status when it fails, 500 when grouping throws, else the groups. */
  method Get(authed: bool, configured: bool, fetchError: Option<int>, data: seq<Js>) returns (reply: GetReply)
    ensures !authed ==> reply == GetFailed(401)
    ensures authed && !configured ==> reply == GetFailed(500)
    ensures authed && configured && fetchError.Some? ==> reply == GetFailed(fetchError.value)
    ensures authed && configured && fetchError.None? ==>
      reply == (match GroupAll(data) case None => GetFailed(500) case Some(gs) => GetGrouped(gs))
  {
    if !authed {
      return GetFailed(401);
    }
    if !configured {
      return GetFailed(500);
    }
    if fetchError.Some? {
      return GetFailed(fetchError.value);
    }
    var grouped := GroupTasks(data);
    if grouped.None? {
      return GetFailed(500);
    }
    reply := GetGrouped(grouped.value);
  }

  // ---------------------------------------------------------------------------
  // POST: create a task

  datatype PostReply = PostFailed(status: int) | PostCreated(task: Fields, logValue: Js)

  const Named: set<string> := {"project_id", "title", "status", "sort_order"}

  /** The row sent to the database: the named fields first, with `status`
      defaulting to "todo" and `sort_order` to 0, then every other field. */
  function TaskData(body: Js): Fields
  {
    (Spread(body) - Named)["project_id" := Prop(body, "project_id")]["title" := Prop(body, "title")]
      ["status" := Or(Prop(body, "status"), Str("todo"))]["sort_order" := Or(Prop(body, "sort_order"), Num(0))]
  }

  /** POST. `body` is `None` when the request body is not JSON; `insertError`
      is the status of a failed insert. */
  function Post(authed: bool, configured: bool, body: Option<Js>, insertError: Option<int>): (r: PostReply)
    ensures !authed ==> r == PostFailed(401)
    ensures authed && !configured ==> r == PostFailed(500)
    ensures authed && configured && (body.None? || body.value.Nullish()) ==> r == PostFailed(500)
    ensures (authed && configured && body.Some? && !body.value.Nullish()
      && (!Truthy(Prop(body.value, "project_id")) || !Truthy(Prop(body.value, "title")))) ==> r == PostFailed(400)
    ensures r.PostCreated? <==> (authed && configured && body.Some? && insertError.None?
      && Truthy(Prop(body.value, "project_id")) && Truthy(Prop(body.value, "title")))
    ensures (authed && configured && body.Some? && Truthy(Prop(body.value, "project_id"))
      && Truthy(Prop(body.value, "title")) && insertError.Some?) ==> r == PostFailed(insertError.value)
  {
    if !authed then PostFailed(401)
    else if !configured then PostFailed(500)
    else if body.None? || body.value.Nullish() then PostFailed(500)
    else
      var b := body.value;
      if !Truthy(Prop(b, "project_id")) || !Truthy(Prop(b, "title")) then PostFailed(400)
      else if insertError.Some? then PostFailed(insertError.value)
      else PostCreated(TaskData(b), Or(Prop(b, "status"), Str("todo")))
  }

  /** A created task always has a truthy status and its sort order, "todo"
      and 0 replacing falsy values; every other field passes through
      unchanged, and no field is added besides those four. */
  lemma PostDefaults(authed: bool, configured: bool, body: Option<Js>, insertError: Option<int>)
    requires Post(authed, configured, body, insertError).PostCreated?
    ensures var r := Post(authed, configured, body, insertError);
      var b := body.value;
      b.Obj?
      && r.task["project_id"] == b.fields["project_id"] && r.task["title"] == b.fields["title"]
      && Truthy(r.task["status"])
      && (Truthy(Prop(b, "status")) ==> r.task["status"] == Prop(b, "status"))
      && (!Truthy(Prop(b, "status")) ==> r.task["status"] == Str("todo"))
      && (Truthy(Prop(b, "sort_order")) ==> r.task["sort_order"] == Prop(b, "sort_order"))
      && (!Truthy(Prop(b, "sort_order")) ==> r.task["sort_order"] == Num(0))
      && (forall k :: k !in Named ==> (k in r.task <==> k in b.fields))
      && (forall k :: k !in Named && k in b.fields ==> r.task[k] == b.fields[k])
      && r.logValue == r.task["status"]
  {
  }

  // ---------------------------------------------------------------------------
  // PATCH: update a task and log the change of each field

  /** One change record: the field, its value before and after. */
  datatype ChangeLog = ChangeLog(field: string, from: Js, to: Js)

  datatype PatchReply =
    | PatchFailed(status: int)
    | PatchUpdateFailed(status: int, loggedField: Option<string>)
    | PatchUpdated(taskName: Js, data: Js, logs: seq<ChangeLog>)

  /** `const { id, ...updates } = body`. */
  function Updates(body: Js): Fields
  {
    Spread(body) - {"id"}
  }

  function LogFields(logs: seq<ChangeLog>): (r: seq<string>)
    ensures |r| == |logs| && forall i :: 0 <= i < |logs| ==> r[i] == logs[i].field
  {
    if |logs| == 0 then [] else [logs[0].field] + LogFields(logs[1..])
  }

  /** The change record of one field. */
  function Change(before: Fields, after: Fields, f: string): ChangeLog
  {
    ChangeLog(f, Prop(Obj(before), f), Prop(Obj(after), f))
  }

  /** The logging loop of a successful PATCH (lines 256-278): one change
      record per updated field, in some order, each with the field's value
      before and after the update. */
  method ChangeLogs(before: Fields, after: Fields, updates: Fields) returns (logs: seq<ChangeLog>)
    ensures |logs| == |updates|
    ensures NoDup(LogFields(logs))
    ensures forall f :: f in updates <==> f in LogFields(logs)
    ensures forall i :: 0 <= i < |logs| ==>
      logs[i].from == Prop(Obj(before), logs[i].field) && logs[i].to == Prop(Obj(after), logs[i].field)
  {
    var keys := updates.Keys;
    var remaining := keys;
    logs := [];
    while remaining != {}
      invariant remaining <= keys
      invariant forall f :: f in keys <==> f in remaining || f in LogFields(logs)
      invariant forall f :: f in remaining ==> f !in LogFields(logs)
      invariant NoDup(LogFields(logs))
      invariant |logs| + |remaining| == |keys|
      invariant forall i :: 0 <= i < |logs| ==> logs[i] == Change(before, after, logs[i].field)
      decreases |remaining|
    {
      var f :| f in remaining;
      var entry := Change(before, after, f);
      assert LogFields(logs + [entry]) == LogFields(logs) + [f];
      NoDupSnoc(LogFields(logs), f);
      assert |remaining - {f}| == |remaining| - 1;
      logs := logs + [entry];
      remaining := remaining - {f};
    }
    assert |keys| == |updates|;
    forall i | 0 <= i < |logs|
      ensures logs[i].from == Prop(Obj(before), logs[i].field) && logs[i].to == Prop(Obj(after), logs[i].field)
    {
      assert logs[i] == Change(before, after, logs[i].field);
    }
  }

  /** PATCH. `current` is the fetched task list (`fetchOk` false when the
      fetch failed), `updateError` the status of a failed update and
      `updated` the rows the update returned. */
  method Patch(authed: bool, configured: bool, body: Option<Js>, fetchOk: bool, current: seq<Fields>,
               updateError: Option<int>, updated: seq<Fields>) returns (reply: PatchReply)
    ensures !authed ==> reply == PatchFailed(401)
    ensures authed && !configured ==> reply == PatchFailed(500)
    ensures authed && configured && (body.None? || body.value.Nullish()) ==> reply == PatchFailed(500)
    ensures authed && configured && body.Some? && !body.value.Nullish() && !Truthy(Prop(body.value, "id")) ==>
      reply == PatchFailed(400)
    ensures reply.PatchFailed? && reply.status == 404 <==>
      authed && configured && body.Some? && !body.value.Nullish() && Truthy(Prop(body.value, "id"))
      && (!fetchOk || |current| == 0)
    ensures reply.PatchUpdateFailed? ==> (updateError.Some? && reply.status == updateError.value
      && (reply.loggedField.None? <==> |Updates(body.value)| == 0)
      && (reply.loggedField.Some? ==> reply.loggedField.value in Updates(body.value)))
    ensures reply.PatchUpdated? ==>
      var updates := Updates(body.value);
      fetchOk && |current| > 0 && updateError.None?
      && reply.taskName == Prop(Obj(current[0]), "title")
      && reply.data == (if |updated| > 0 then Obj(updated[0]) else Undefined)
      && |reply.logs| == |updates|
      && NoDup(LogFields(reply.logs))
      && (forall f :: f in updates <==> f in LogFields(reply.logs))
      && (forall i :: 0 <= i < |reply.logs| ==>
            (|updated| > 0
             && reply.logs[i].from == Prop(Obj(current[0]), reply.logs[i].field)
             && reply.logs[i].to == Prop(Obj(updated[0]), reply.logs[i].field)))
    ensures (authed && configured && body.Some? && !body.value.Nullish() && Truthy(Prop(body.value, "id"))
      && fetchOk && |current| > 0 && updateError.None?) ==>
        (reply.PatchUpdated? <==> |updated| > 0 || |Updates(body.value)| == 0)
        && (!reply.PatchUpdated? ==> reply == PatchFailed(500))
    ensures (authed && configured && body.Some? && !body.value.Nullish() && Truthy(Prop(body.value, "id"))
      && fetchOk && |current| > 0 && updateError.Some?) ==>
        reply.PatchUpdateFailed? && reply.status == updateError.value
  {
    if !authed {
      return PatchFailed(401);
    }
    if !configured {
      return PatchFailed(500);
    }
    if body.None? || body.value.Nullish() {
      return PatchFailed(500);
    }
    var b := body.value;
    var updates := Updates(b);
    if !Truthy(Prop(b, "id")) {
      return PatchFailed(400);
    }
    if !fetchOk || |current| == 0 {
      return PatchFailed(404);
    }
    var before := current[0];
    if updateError.Some? {
      var field: Option<string> := None;
      if updates.Keys != {} {
        var f :| f in updates.Keys;
        field := Some(f);
      }
      return PatchUpdateFailed(updateError.value, field);
    }
    if |updates| > 0 && |updated| == 0 {
      // The first iteration reads `taskAfter[field]` with `taskAfter` undefined and throws.
      return PatchFailed(500);
    }
    var after := if |updated| > 0 then updated[0] else map[];
    var logs := ChangeLogs(before, after, updates);
    var data := if |updated| > 0 then Obj(updated[0]) else Undefined;
    reply := PatchUpdated(Prop(Obj(before), "title"), data, logs);
  }
}
