/** The edge function `create_project_from_template`: it validates the request,
    refuses a taken project key, loads an active template, creates the project,
    expands the template's tasks (placeholders substituted, defaults filled in),
    inserts them, and maps each template task's checklist onto the id of the
    task row the database returned for it. The database answers are
    parameters. */
module ProjectTemplate {
  import opened Options
  import opened JsStrings
  import opened JsValues

  // ---------------------------------------------------------------------------
  // Placeholder substitution

  const NamePlaceholder: string := "{{PROJECT_NAME}}"
  const KeyPlaceholder: string := "{{PROJECT_KEY}}"

  /** Every occurrence of `pat` in `s`, scanned left to right without
      overlaps, replaced by `rep` taken literally. */
  function ReplaceAll(s: string, pat: string, rep: string): (r: string)
    requires |pat| > 0
    ensures |s| < |pat| ==> r == s
    decreases |s|
  {
    if |s| < |pat| then s
    else if StartsWith(s, pat) then rep + ReplaceAll(s[|pat|..], pat, rep)
    else [s[0]] + ReplaceAll(s[1..], pat, rep)
  }

  /** A string without the pattern is left as it is. */
  lemma {:induction false} ReplaceAllAbsent(s: string, pat: string, rep: string)
    requires |pat| > 0 && !Includes(s, pat)
    ensures ReplaceAll(s, pat, rep) == s
    decreases |s|
  {
    if |s| >= |pat| {
      ReplaceAllAbsent(s[1..], pat, rep);
      assert s == [s[0]] + s[1..];
    }
  }

  /** Replacing a pattern by itself changes nothing. */
  lemma {:induction false} ReplaceAllSelf(s: string, pat: string)
    requires |pat| > 0
    ensures ReplaceAll(s, pat, pat) == s
    decreases |s|
  {
    if |s| >= |pat| {
      if StartsWith(s, pat) {
        ReplaceAllSelf(s[|pat|..], pat);
        assert s == pat + s[|pat|..];
      } else {
        ReplaceAllSelf(s[1..], pat);
        assert s == [s[0]] + s[1..];
      }
    }
  }

  /** The first occurrence of the pattern is replaced by `rep` and the scan
      goes on after it: `a` is kept when no occurrence starts in it (none
      lies inside `a` or overlaps the end of `a`). */
  lemma ReplaceAllOccurrence(a: string, pat: string, b: string, rep: string)
    requires |pat| > 0 && !Includes(a + pat[..|pat| - 1], pat)
    ensures ReplaceAll(a + pat + b, pat, rep) == a + rep + ReplaceAll(b, pat, rep)
  {
    NoOccurrenceIn(a, pat, b);
    ReplaceAllFirstMatch(a, pat, b, rep);
  }

  /** The same, with the absence of an earlier match stated position by
      position. */
  lemma ReplaceAllFirstMatch(a: string, pat: string, b: string, rep: string)
    requires |pat| > 0 && forall j :: 0 <= j < |a| ==> !MatchAt(a + pat + b, pat, j)
    ensures ReplaceAll(a + pat + b, pat, rep) == a + rep + ReplaceAll(b, pat, rep)
  {
    var s := a + pat + b;
    ReplaceAllSkip(s, pat, rep, 0, |a|);
    assert s[0..] == s && s[0..|a|] == a && s[|a|..] == pat + b;
    ReplaceAllAtMatch(pat, b, rep);
  }

  /** At a match the literal replacement puts `rep` and goes on after it. */
  lemma ReplaceAllAtMatch(pat: string, b: string, rep: string)
    requires |pat| > 0
    ensures ReplaceAll(pat + b, pat, rep) == rep + ReplaceAll(b, pat, rep)
  {
    OccurrenceAtStart(pat, b);
  }

  /** Where no match starts at the positions `i` to `k - 1`, the literal
      replacement copies those characters. */
  lemma ReplaceAllSkip(s: string, pat: string, rep: string, i: nat, k: nat)
    requires |pat| > 0 && i <= k && k + |pat| <= |s|
    requires forall j :: i <= j < k ==> !MatchAt(s, pat, j)
    ensures ReplaceAll(s[i..], pat, rep) == s[i..k] + ReplaceAll(s[k..], pat, rep)
  {
    var f := (j: nat) => if j <= |s| then ReplaceAll(s[j..], pat, rep) else "";
    forall j | i <= j < k
      ensures f(j) == [s[j]] + f(j + 1)
    {
      ReplaceAllPastOne(s, pat, rep, j);
    }
    CopiesBetween(f, s, i, k);
  }

  /** A scan that copies the character at each of the positions `i` to
      `k - 1` puts `s[i..k]` before what it produces from `k` on. */
  lemma {:induction false} CopiesBetween(f: nat -> string, s: string, i: nat, k: nat)
    requires i <= k <= |s|
    requires forall j :: i <= j < k ==> f(j) == [s[j]] + f(j + 1)
    ensures f(i) == s[i..k] + f(k)
    decreases k - i
  {
    if i < k {
      CopiesBetween(f, s, i + 1, k);
      assert s[i..k] == [s[i]] + s[i + 1..k];
    }
  }

  /** Where no match starts, the literal replacement copies one character. */
  lemma ReplaceAllPastOne(s: string, pat: string, rep: string, i: nat)
    requires |pat| > 0 && i + |pat| <= |s| && !MatchAt(s, pat, i)
    ensures ReplaceAll(s[i..], pat, rep) == [s[i]] + ReplaceAll(s[i + 1..], pat, rep)
  {
    assert s[i..][1..] == s[i + 1..];
  }

  /** An occurrence of `pat` starts at position `j` of `s`. */
  predicate MatchAt(s: string, pat: string, j: nat)
    requires j <= |s|
  {
    StartsWith(s[j..], pat)
  }

  /** No occurrence starts inside `a` in `a + pat + b` when none starts in
      `a` followed by all but the last character of the pattern. */
  lemma {:induction false} NoOccurrenceIn(a: string, pat: string, b: string)
    requires |pat| > 0 && !Includes(a + pat[..|pat| - 1], pat)
    ensures forall j :: 0 <= j < |a| ==> !MatchAt(a + pat + b, pat, j)
    decreases |a|
  {
    if |a| > 0 {
      NoOccurrenceAtStart(a, pat, b);
      NoOccurrenceIn(a[1..], pat, b);
      var s := a + pat + b;
      forall j | 1 <= j < |a|
        ensures !MatchAt(s, pat, j)
      {
        assert !MatchAt(a[1..] + pat + b, pat, j - 1);
        assert s[j..] == (a[1..] + pat + b)[j - 1..];
      }
      assert s[0..] == s;
    }
  }

  /** `pat + b` starts with `pat`, followed by `b`. */
  lemma OccurrenceAtStart(pat: string, b: string)
    ensures StartsWith(pat + b, pat) && (pat + b)[|pat|..] == b
  {
    assert (pat + b)[..|pat|] == pat;
  }

  /** When no occurrence starts in a non-empty `a`, none starts at the
      beginning of `a + pat + b`, and none starts in `a[1..]`. */
  lemma NoOccurrenceAtStart(a: string, pat: string, b: string)
    requires |pat| > 0 && |a| > 0 && !Includes(a + pat[..|pat| - 1], pat)
    ensures !StartsWith(a + pat + b, pat)
    ensures !Includes(a[1..] + pat[..|pat| - 1], pat)
  {
    var s := a + pat + b;
    var u := a + pat[..|pat| - 1];
    assert !StartsWith(u, pat) && !Includes(u[1..], pat);
    assert u[1..] == a[1..] + pat[..|pat| - 1];
    forall k | 0 <= k < |pat|
      ensures s[k] == u[k]
    {
      if k >= |a| {
        assert s[k] == pat[k - |a|] && u[k] == pat[k - |a|];
      }
    }
    assert s[..|pat|] == u[..|pat|];
  }

  /** A replacement of the pattern's own length keeps the length. */
  lemma {:induction false} ReplaceAllSameLength(s: string, pat: string, rep: string)
    requires |pat| > 0 && |rep| == |pat|
    ensures |ReplaceAll(s, pat, rep)| == |s|
    decreases |s|
  {
    if |s| >= |pat| {
      if StartsWith(s, pat) {
        ReplaceAllSameLength(s[|pat|..], pat, rep);
      } else {
        ReplaceAllSameLength(s[1..], pat, rep);
      }
    }
  }

  /** `String.prototype.replaceAll` with a string replacement, as the engine
      runs it: the replacement text is read as a template in which `$$`
      stands for `$`, `$&` for the match, `` $` `` for the text before the
      match and `$'` for the text after it. */
  function JsReplaceAll(s: string, pat: string, rep: string): string
    requires |pat| > 0
  {
    JsReplaceFrom(s, 0, pat, rep)
  }

  function JsReplaceFrom(s: string, i: nat, pat: string, rep: string): string
    requires |pat| > 0 && i <= |s|
    decreases |s| - i
  {
    if |s| - i < |pat| then s[i..]
    else if StartsWith(s[i..], pat) then
      Substitution(rep, pat, s[..i], s[i + |pat|..]) + JsReplaceFrom(s, i + |pat|, pat, rep)
    else [s[i]] + JsReplaceFrom(s, i + 1, pat, rep)
  }

  /** The expansion of the `$` patterns of a replacement template. */
  function Substitution(rep: string, matched: string, before: string, after: string): string
    decreases |rep|
  {
    if |rep| == 0 then ""
    else if rep[0] == '$' && |rep| >= 2 then
      var c := rep[1];
      if c == '$' then "$" + Substitution(rep[2..], matched, before, after)
      else if c == '&' then matched + Substitution(rep[2..], matched, before, after)
      else if c == '`' then before + Substitution(rep[2..], matched, before, after)
      else if c == '\'' then after + Substitution(rep[2..], matched, before, after)
      else "$" + Substitution(rep[1..], matched, before, after)
    else [rep[0]] + Substitution(rep[1..], matched, before, after)
  }

  /** The engine's `replaceAll` puts the expansion of `rep` for the first
      occurrence, with `a` as the text before it and `b` as the text after
      it, and goes on after the occurrence. */
  lemma JsReplaceAllOccurrence(a: string, pat: string, b: string, rep: string)
    requires |pat| > 0 && !Includes(a + pat[..|pat| - 1], pat)
    ensures JsReplaceAll(a + pat + b, pat, rep)
      == a + Substitution(rep, pat, a, b) + JsReplaceFrom(a + pat + b, |a| + |pat|, pat, rep)
  {
    NoOccurrenceIn(a, pat, b);
    JsReplaceFirstMatch(a, pat, b, rep);
  }

  /** The same, with the absence of an earlier match stated position by
      position. */
  lemma JsReplaceFirstMatch(a: string, pat: string, b: string, rep: string)
    requires |pat| > 0 && forall j :: 0 <= j < |a| ==> !MatchAt(a + pat + b, pat, j)
    ensures JsReplaceAll(a + pat + b, pat, rep)
      == a + Substitution(rep, pat, a, b) + JsReplaceFrom(a + pat + b, |a| + |pat|, pat, rep)
  {
    var s := a + pat + b;
    JsReplaceSkip(s, pat, rep, 0, |a|);
    JsReplaceAtOccurrence(a, pat, b, rep);
    assert s[0..|a|] == a;
  }

  /** Where no match starts at the positions `i` to `k - 1`, the engine
      copies those characters. */
  lemma JsReplaceSkip(s: string, pat: string, rep: string, i: nat, k: nat)
    requires |pat| > 0 && i <= k && k + |pat| <= |s|
    requires forall j :: i <= j < k ==> !MatchAt(s, pat, j)
    ensures JsReplaceFrom(s, i, pat, rep) == s[i..k] + JsReplaceFrom(s, k, pat, rep)
  {
    var f := (j: nat) => if j <= |s| then JsReplaceFrom(s, j, pat, rep) else "";
    forall j | i <= j < k
      ensures f(j) == [s[j]] + f(j + 1)
    {
      JsReplacePastOne(s, pat, rep, j);
    }
    CopiesBetween(f, s, i, k);
  }

  /** Where no match starts, the engine copies one character. */
  lemma JsReplacePastOne(s: string, pat: string, rep: string, i: nat)
    requires |pat| > 0 && i + |pat| <= |s| && !MatchAt(s, pat, i)
    ensures JsReplaceFrom(s, i, pat, rep) == [s[i]] + JsReplaceFrom(s, i + 1, pat, rep)
  {
  }

  /** At the occurrence itself the engine puts the expansion of `rep`. */
  lemma JsReplaceAtOccurrence(a: string, pat: string, b: string, rep: string)
    requires |pat| > 0
    ensures JsReplaceFrom(a + pat + b, |a|, pat, rep)
      == Substitution(rep, pat, a, b) + JsReplaceFrom(a + pat + b, |a| + |pat|, pat, rep)
  {
    var s := a + pat + b;
    assert s[|a|..] == pat + b;
    OccurrenceAtStart(pat, b);
    assert s[..|a|] == a && s[|a| + |pat|..] == b;
  }

  /** Without the pattern the engine's `replaceAll` leaves the string as it
      is, whatever the replacement. */
  lemma JsReplaceAllAbsent(s: string, pat: string, rep: string)
    requires |pat| > 0 && !Includes(s, pat)
    ensures JsReplaceAll(s, pat, rep) == s
  {
    assert s[0..] == s;
    JsReplaceFromAbsent(s, 0, pat, rep);
  }

  lemma {:induction false} JsReplaceFromAbsent(s: string, i: nat, pat: string, rep: string)
    requires |pat| > 0 && i <= |s| && !Includes(s[i..], pat)
    ensures JsReplaceFrom(s, i, pat, rep) == s[i..]
    decreases |s| - i
  {
    if |s| - i >= |pat| {
      assert s[i..][1..] == s[i + 1..];
      JsReplaceFromAbsent(s, i + 1, pat, rep);
      assert s[i..] == [s[i]] + s[i + 1..];
    }
  }

  /** A replacement without `$` is inserted literally. */
  lemma {:induction false} SubstitutionLiteral(rep: string, matched: string, before: string, after: string)
    requires '$' !in rep
    ensures Substitution(rep, matched, before, after) == rep
    decreases |rep|
  {
    if |rep| > 0 {
      SubstitutionLiteral(rep[1..], matched, before, after);
      assert rep == [rep[0]] + rep[1..];
    }
  }

  /** Without `$` in the replacement the engine's `replaceAll` and the
      literal replacement agree. */
  lemma {:induction false} JsReplaceAllLiteral(s: string, pat: string, rep: string)
    requires |pat| > 0 && '$' !in rep
    ensures JsReplaceAll(s, pat, rep) == ReplaceAll(s, pat, rep)
  {
    JsReplaceFromLiteral(s, 0, pat, rep);
    assert s[0..] == s;
  }

  lemma {:induction false} JsReplaceFromLiteral(s: string, i: nat, pat: string, rep: string)
    requires |pat| > 0 && '$' !in rep && i <= |s|
    ensures JsReplaceFrom(s, i, pat, rep) == ReplaceAll(s[i..], pat, rep)
    decreases |s| - i
  {
    if |s| - i >= |pat| {
      var t := s[i..];
      if StartsWith(t, pat) {
        SubstitutionLiteral(rep, pat, s[..i], s[i + |pat|..]);
        JsReplaceFromLiteral(s, i + |pat|, pat, rep);
        assert t[|pat|..] == s[i + |pat|..];
        assert ReplaceAll(t, pat, rep) == rep + ReplaceAll(t[|pat|..], pat, rep);
      } else {
        JsReplaceFromLiteral(s, i + 1, pat, rep);
        assert t[1..] == s[i + 1..];
        assert ReplaceAll(t, pat, rep) == [t[0]] + ReplaceAll(t[1..], pat, rep);
      }
    }
  }

  /** The title of a task as the function builds it (lines 71-73): the
      engine's `replaceAll` puts in the project name, then the project key,
      for their placeholders, expanding `$` patterns in both. */
  function Title(title: string, name: string, key: string): string
  {
    JsReplaceAll(JsReplaceAll(title, NamePlaceholder, name), KeyPlaceholder, key)
  }

  /** The title as intended: the name and the key put in literally. It is
      the title the function builds whenever neither contains `$`. */
  function TitleIntended(title: string, name: string, key: string): (r: string)
    ensures '$' !in name && '$' !in key ==> r == Title(title, name, key)
  {
    var named := ReplaceAll(title, NamePlaceholder, name);
    if '$' !in name && '$' !in key then
      JsReplaceAllLiteral(title, NamePlaceholder, name);
      JsReplaceAllLiteral(named, KeyPlaceholder, key);
      ReplaceAll(named, KeyPlaceholder, key)
    else ReplaceAll(named, KeyPlaceholder, key)
  }

  /** A project named `$$`: the engine writes `$` into the title where the
      intended title holds `$$`. */
  lemma DollarNameCollapses()
    ensures JsReplaceAll(NamePlaceholder, NamePlaceholder, "$$") == "$"
    ensures ReplaceAll(NamePlaceholder, NamePlaceholder, "$$") == "$$"
    ensures Title(NamePlaceholder, "$$", "") == "$" && TitleIntended(NamePlaceholder, "$$", "") == "$$"
  {
    assert StartsWith(NamePlaceholder, NamePlaceholder);
    assert NamePlaceholder[0..] == NamePlaceholder;
    assert Substitution("$$", NamePlaceholder, "", "") == "$" by {
      assert "$$"[2..] == "";
    }
    assert "$"[0..] == "$";
  }

  /** A title without placeholders is kept as it is. */
  lemma TitleWithoutPlaceholders(title: string, name: string, key: string)
    requires !Includes(title, NamePlaceholder) && !Includes(title, KeyPlaceholder)
    ensures Title(title, name, key) == title
  {
    JsReplaceAllAbsent(title, NamePlaceholder, name);
    JsReplaceAllAbsent(title, KeyPlaceholder, key);
  }

  // ---------------------------------------------------------------------------
  // Task payloads

  /** A row of `tasksPayload`. */
  datatype TaskRow = TaskRow(projectId: Js, title: string, status: Js, fields: Js, sortOrder: Js)

  /** `t.fields?.["Fel Order"] || 0`. */
  function SortOrder(t: Js): Js
  {
    Or(Prop(Prop(t, "fields"), "Fel Order"), Num(0))
  }

  /** The payload of one template task; `None` when reading `t.title` or
      calling `replaceAll` on it throws (the title is not a string). */
  function TaskPayload(projectId: Js, name: string, key: string, t: Js): (r: Option<TaskRow>)
    ensures r.Some? <==> !t.Nullish() && Prop(t, "title").Str?
    ensures r.Some? ==> (r.value.projectId == projectId
      && r.value.title == Title(Prop(t, "title").s, name, key)
      && Truthy(r.value.status)
      && (Truthy(Prop(t, "status")) ==> r.value.status == Prop(t, "status"))
      && (!Truthy(Prop(t, "status")) ==> r.value.status == Str("todo"))
      && (Truthy(Prop(t, "fields")) ==> r.value.fields == Prop(t, "fields"))
      && (!Truthy(Prop(t, "fields")) ==> r.value.fields == Obj(map[]))
      && r.value.sortOrder == SortOrder(t))
  {
    if t.Nullish() || !Prop(t, "title").Str? then None
    else
      Some(TaskRow(projectId, Title(Prop(t, "title").s, name, key), Or(Prop(t, "status"), Str("todo")),
                   Or(Prop(t, "fields"), Obj(map[])), SortOrder(t)))
  }

  /** The loop body of the first loop, as a function of the task. */
  function PayloadOf(projectId: Js, name: string, key: string): Js -> Option<TaskRow>
  {
    (t: Js) => TaskPayload(projectId, name, key, t)
  }

  /** The payloads of all template tasks in order, or `None` when one throws. */
  function TasksPayload(projectId: Js, name: string, key: string, items: seq<Js>): Option<seq<TaskRow>>
  {
    MapAll(items, PayloadOf(projectId, name, key))
  }

  /** The first loop of the function (lines 70-84), proved to compute TasksPayload. */
  method BuildTasks(projectId: Js, name: string, key: string, items: seq<Js>) returns (r: Option<seq<TaskRow>>)
    ensures r == TasksPayload(projectId, name, key, items)
  {
    var payload: seq<TaskRow> := [];
    var i := 0;
    while i < |items|
      invariant 0 <= i <= |items|
      invariant TasksPayload(projectId, name, key, items[..i]) == Some(payload)
    {
      MapAllStep(items, PayloadOf(projectId, name, key), i);
      var row := TaskPayload(projectId, name, key, items[i]);
      if row.None? {
        TasksPayloadFails(projectId, name, key, items, i);
        return None;
      }
      payload := payload + [row.value];
      i := i + 1;
    }
    assert items[..i] == items;
    r := Some(payload);
  }

  /** A task whose payload throws makes the whole loop throw. */
  lemma TasksPayloadFails(projectId: Js, name: string, key: string, items: seq<Js>, i: nat)
    requires i < |items| && TaskPayload(projectId, name, key, items[i]).None?
    ensures TasksPayload(projectId, name, key, items).None?
  {
    MapAllFails(items, PayloadOf(projectId, name, key), i);
  }

  /** One payload per template task, in template order, each the payload of
      that task; and there is a payload list exactly when no task throws. */
  lemma TasksPayloadSpec(projectId: Js, name: string, key: string, items: seq<Js>)
    ensures TasksPayload(projectId, name, key, items).Some? <==>
      forall i :: 0 <= i < |items| ==> TaskPayload(projectId, name, key, items[i]).Some?
    ensures TasksPayload(projectId, name, key, items).Some? ==>
      var rows := TasksPayload(projectId, name, key, items).value;
      |rows| == |items|
      && forall i :: 0 <= i < |items| ==> Some(rows[i]) == TaskPayload(projectId, name, key, items[i])
  {
    MapAllSpec(items, PayloadOf(projectId, name, key));
  }

  // ---------------------------------------------------------------------------
  // Checklists

  /** A row of `checklistPayload`. */
  datatype ChecklistRow = ChecklistRow(taskId: Js, name: Js, checked: bool)

  /** The checklist entries of one template task, each tied to `taskId`;
      `None` when an entry is `null`/`undefined` (reading its name throws). */
  function Entries(cs: seq<Js>, taskId: Js): (r: Option<seq<ChecklistRow>>)
    ensures r.Some? <==> forall k :: 0 <= k < |cs| ==> !cs[k].Nullish()
    ensures r.Some? ==> |r.value| == |cs| && forall k :: 0 <= k < |cs| ==>
      r.value[k] == ChecklistRow(taskId, Prop(cs[k], "name"), Truthy(Prop(cs[k], "checked")))
  {
    if |cs| == 0 then Some([])
    else
      var rest := Entries(cs[1..], taskId);
      if cs[0].Nullish() || rest.None? then None
      else Some([ChecklistRow(taskId, Prop(cs[0], "name"), Truthy(Prop(cs[0], "checked")))] + rest.value)
  }

  /** The checklist of template task `def` for the inserted row `row`; a
      checklist that is not an array contributes nothing, and an undefined
      task definition throws. */
  function ChecklistOf(def: Js, row: Fields): Option<seq<ChecklistRow>>
  {
    if def.Nullish() then None
    else
      var c := Prop(def, "checklist");
      if c.Arr? then Entries(c.items, Prop(Obj(row), "id")) else Some([])
  }

  type Fields = map<string, Js>

  /** `tpl.tasks[i]`, `undefined` past the end. */
  function DefAt(defs: seq<Js>, i: nat): Js
  {
    if i < |defs| then defs[i] else Undefined
  }

  /** The checklist rows for the first `n` inserted tasks. */
  function Checklist(defs: seq<Js>, rows: seq<Fields>, n: nat): Option<seq<ChecklistRow>>
    requires n <= |rows|
  {
    if n == 0 then Some([])
    else
      var prev := Checklist(defs, rows, n - 1);
      var more := ChecklistOf(DefAt(defs, n - 1), rows[n - 1]);
      if prev.None? || more.None? then None else Some(prev.value + more.value)
  }

  /** The inner loop of lines 102-108, proved to compute Entries. */
  method CollectEntries(cs: seq<Js>, taskId: Js) returns (r: Option<seq<ChecklistRow>>)
    ensures r == Entries(cs, taskId)
  {
    var rows: seq<ChecklistRow> := [];
    var k := 0;
    while k < |cs|
      invariant 0 <= k <= |cs|
      invariant Entries(cs[..k], taskId) == Some(rows)
    {
      var entry := cs[k];
      if entry.Nullish() {
        assert Entries(cs, taskId).None?;
        return None;
      }
      assert cs[..k + 1] == cs[..k] + [entry];
      EntriesSnoc(cs[..k], entry, taskId);
      rows := rows + [ChecklistRow(taskId, Prop(entry, "name"), Truthy(Prop(entry, "checked")))];
      k := k + 1;
    }
    assert cs[..k] == cs;
    r := Some(rows);
  }

  lemma EntriesSnoc(cs: seq<Js>, x: Js, taskId: Js)
    requires Entries(cs, taskId).Some? && !x.Nullish()
    ensures Entries(cs + [x], taskId)
      == Some(Entries(cs, taskId).value + [ChecklistRow(taskId, Prop(x, "name"), Truthy(Prop(x, "checked")))])
  {
    var t := cs + [x];
    assert forall k :: 0 <= k < |cs| ==> t[k] == cs[k];
    assert Entries(t, taskId).Some?;
    var a := Entries(cs, taskId).value;
    var e := Entries(t, taskId).value;
    var b := a + [ChecklistRow(taskId, Prop(x, "name"), Truthy(Prop(x, "checked")))];
    assert |e| == |b|;
    forall k | 0 <= k < |e|
      ensures e[k] == b[k]
    {
      if k < |cs| {
        assert e[k] == ChecklistRow(taskId, Prop(cs[k], "name"), Truthy(Prop(cs[k], "checked")));
      }
    }
    assert e == b;
  }

  /** The outer loop of lines 98-110, proved to compute Checklist. */
  method BuildChecklist(defs: seq<Js>, rows: seq<Fields>) returns (r: Option<seq<ChecklistRow>>)
    ensures r == Checklist(defs, rows, |rows|)
  {
    var payload: seq<ChecklistRow> := [];
    var i := 0;
    while i < |rows|
      invariant 0 <= i <= |rows|
      invariant Checklist(defs, rows, i) == Some(payload)
    {
      var def := DefAt(defs, i);
      if def.Nullish() {
        ChecklistFails(defs, rows, i, |rows|);
        return None;
      }
      var c := Prop(def, "checklist");
      if c.Arr? {
        var entries := CollectEntries(c.items, Prop(Obj(rows[i]), "id"));
        if entries.None? {
          ChecklistFails(defs, rows, i, |rows|);
          return None;
        }
        assert ChecklistOf(def, rows[i]) == entries;
        payload := payload + entries.value;
      } else {
        assert ChecklistOf(def, rows[i]) == Some([]);
        assert payload + [] == payload;
      }
      i := i + 1;
    }
    r := Some(payload);
  }

  lemma {:induction false} ChecklistFails(defs: seq<Js>, rows: seq<Fields>, i: nat, n: nat)
    requires i < n <= |rows| && ChecklistOf(DefAt(defs, i), rows[i]).None?
    ensures Checklist(defs, rows, n).None?
  {
    if i < n - 1 {
      ChecklistFails(defs, rows, i, n - 1);
    }
  }

  /** The number of checklist entries of the first `n` template tasks whose
      checklist is an array. */
  function ChecklistTotal(defs: seq<Js>, n: nat): nat
  {
    if n == 0 then 0
    else
      var c := Prop(DefAt(defs, n - 1), "checklist");
      ChecklistTotal(defs, n - 1) + (if c.Arr? then |c.items| else 0)
  }

  /** `checklist_created` is the sum of the lengths of the checklist arrays. */
  lemma {:induction false} ChecklistCount(defs: seq<Js>, rows: seq<Fields>, n: nat)
    requires n <= |rows| && Checklist(defs, rows, n).Some?
    ensures |Checklist(defs, rows, n).value| == ChecklistTotal(defs, n)
  {
    if n > 0 {
      ChecklistCount(defs, rows, n - 1);
    }
  }

  /** Every checklist row carries the id of an inserted task row whose
      template task has an array checklist. */
  lemma {:induction false} ChecklistRowsPointAtTasks(defs: seq<Js>, rows: seq<Fields>, n: nat)
    requires n <= |rows| && Checklist(defs, rows, n).Some?
    ensures forall e :: e in Checklist(defs, rows, n).value ==>
      exists i :: 0 <= i < n && e.taskId == Prop(Obj(rows[i]), "id") && Prop(DefAt(defs, i), "checklist").Arr?
  {
    if n > 0 {
      ChecklistRowsPointAtTasks(defs, rows, n - 1);
      var more := ChecklistOf(DefAt(defs, n - 1), rows[n - 1]).value;
      forall e | e in more
        ensures e.taskId == Prop(Obj(rows[n - 1]), "id") && Prop(DefAt(defs, n - 1), "checklist").Arr?
      {
        var k :| 0 <= k < |more| && more[k] == e;
      }
    }
  }

  // ---------------------------------------------------------------------------
  // The request

  datatype Reply =
    | Failed(status: int)
    | Created(projectId: Js, tasksCreated: nat, checklistCreated: nat)

  /** What the database holds after a request: whether the project row was
      inserted, the task rows sent, and the checklist rows sent. */
  datatype Effects = Effects(projectCreated: bool, tasks: seq<TaskRow>, checklist: seq<ChecklistRow>)

  /** The status of a request that stops before the project is inserted, or
      `None` when it gets that far. `body` is `None` when the request body is
      not JSON; `keyTaken` says whether a project with that key exists;
      `template` is the active template row, `None` when the lookup fails or
      finds nothing. */
  function EarlyStatus(body: Option<Js>, keyTaken: bool, template: Option<Js>): (r: Option<int>)
    ensures body.None? || body.value.Nullish() ==> r == Some(500)
    ensures (body.Some? && !body.value.Nullish()
      && !(Truthy(Prop(body.value, "name")) && Truthy(Prop(body.value, "project_key"))
           && Truthy(Prop(body.value, "template_code")))) ==> r == Some(400)
    ensures r.None? <==> (body.Some? && !body.value.Nullish()
      && Truthy(Prop(body.value, "name")) && Truthy(Prop(body.value, "project_key"))
      && Truthy(Prop(body.value, "template_code")) && !keyTaken && template.Some?
      && Truthy(TemplateTasks(template.value)))
  {
    if body.None? || body.value.Nullish() then Some(500)
    else
      var b := body.value;
      if !Truthy(Prop(b, "name")) || !Truthy(Prop(b, "project_key")) || !Truthy(Prop(b, "template_code")) then Some(400)
      else if keyTaken then Some(409)
      else if template.None? then Some(404)
      else if !Truthy(TemplateTasks(template.value)) then Some(422)
      else None
  }

  /** `templateRow.template?.tasks`. */
  function TemplateTasks(row: Js): Js
  {
    Prop(Prop(row, "template"), "tasks")
  }

  /** The whole function. `project` is the inserted project row (`None` when
      the insert fails), `inserted` the task rows the insert returned (`None`
      when it fails). The checklist insert's own failure is only logged, so
      it is not an input. */
  method CreateProject(body: Option<Js>, keyTaken: bool, template: Option<Js>, project: Option<Js>,
                       inserted: Option<seq<Fields>>) returns (reply: Reply, effects: Effects)
    ensures EarlyStatus(body, keyTaken, template).Some? ==>
      reply == Failed(EarlyStatus(body, keyTaken, template).value) && effects == Effects(false, [], [])
    ensures EarlyStatus(body, keyTaken, template).None? && project.None? ==>
      reply == Failed(500) && effects == Effects(false, [], [])
    ensures EarlyStatus(body, keyTaken, template).None? && project.Some? ==>
      var b := body.value;
      var tasks := TemplateTasks(template.value);
      var pid := Prop(project.value, "id");
      var payload := if tasks.Arr? then TasksPayload(pid, ToStr(Prop(b, "name")), ToStr(Prop(b, "project_key")), tasks.items)
                     else None;
      effects.projectCreated
      && (payload.None? ==> reply == Failed(500) && effects.tasks == [] && effects.checklist == [])
      && (payload.Some? ==> (effects.tasks == payload.value
          && (inserted.None? ==> reply == Failed(500) && effects.checklist == [])
          && (inserted.Some? ==>
                var cl := Checklist(tasks.items, inserted.value, |inserted.value|);
                (cl.None? ==> reply == Failed(500) && effects.checklist == [])
                && (cl.Some? ==> reply == Created(pid, |inserted.value|, |cl.value|) && effects.checklist == cl.value))))
  {
    var early := EarlyStatus(body, keyTaken, template);
    if early.Some? {
      return Failed(early.value), Effects(false, [], []);
    }
    if project.None? {
      return Failed(500), Effects(false, [], []);
    }
    var b := body.value;
    var tasks := TemplateTasks(template.value);
    var pid := Prop(project.value, "id");
    if !tasks.Arr? {
      // `for (const t of tpl.tasks)` throws on a value that is not iterable.
      return Failed(500), Effects(true, [], []);
    }
    var payload := BuildTasks(pid, ToStr(Prop(b, "name")), ToStr(Prop(b, "project_key")), tasks.items);
    if payload.None? {
      return Failed(500), Effects(true, [], []);
    }
    if inserted.None? {
      return Failed(500), Effects(true, payload.value, []);
    }
    var checklist := BuildChecklist(tasks.items, inserted.value);
    if checklist.None? {
      return Failed(500), Effects(true, payload.value, []);
    }
    reply := Created(pid, |inserted.value|, |checklist.value|);
    effects := Effects(true, payload.value, checklist.value);
  }
}
