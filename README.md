# S42 core logic in Dafny

S42 is a project-management web application: a data grid of tasks, project
templates, a dashboard page restricted by group membership, sign-up into
e-mail-domain groups, and a set of small UI components (dropdowns, a user
picker, toasts, tabs, a side navigation). This project models the parts of
it that decide something in memory, with every database, session and
network answer turned into a parameter:

- the data grid (`components/Table.tsx`): free-text search, the AND-of-OR
  column filters (including the `TypeError` they throw), the single-key sort
  and its asc → desc → none click cycle, row selection, column visibility and
  the inline editor — modules `TableFilter`, `TableSort`, and `TableView`
  with the class `TableView.Table` holding the grid's state;
- the tasks API (`app/api/tasks/route.ts`): grouping the fetched tasks by
  project, POST validation and defaults, PATCH with one change record per
  updated field — module `TasksRoute`;
- the `create_project_from_template` edge function: early status codes,
  placeholder substitution in task titles, the task and checklist payloads
  and the counts returned — module `ProjectTemplate`;
- the home page's dashboard access decision and view choice — `HomePage`;
- the sign-up hook's domain extraction and group lookup-or-create over a
  store of groups and memberships — `SignupHook`;
- the OAuth callback redirect — `AuthCallback`;
- the dropdowns, user picker, toast queue, tabs and side navigation —
  `Dropdown`, `StyledDropdown`, `StatusDropdown`, `UserSelector`, `Toast`,
  `Tabs`, `SideNav`, each a class for the component's state with its
  handlers as methods;
- the two `.env` line parsers — `NavigationEnv` (`check_navigation.js`) and
  `DashboardEnv` (`create_dashboard.js`), both folding lines into a map
  with `EnvFiles.Load`.

JavaScript values are modelled by `JsValues.Js` (undefined, null, booleans,
integers, strings, arrays, objects held as maps from keys to values,
with no key order), with `Truthy`, `ToStr` and property access `Prop` as the engine
defines them on those values. `JsStrings` models the string methods used
(`toLowerCase`, `includes`, `trim`, `split`, `indexOf`, decimal printing),
and `Seqs.Keep` is `Array.prototype.filter`.

## Model

| member | source | states |
|---|---|---|
| TableFilter.AnyColumnMatchesIff | components/Table.tsx:96-103 | `columns.some(...)` holds exactly when some column, hidden or not, has a cell value whose string form contains the needle |
| TableFilter.SearchEmptyTerm | components/Table.tsx:94-95 | an empty search term passes every row, in order |
| TableFilter.SearchKeepsMatchingRows | components/Table.tsx:94-104 | a non-empty term keeps exactly the rows with some non-null cell containing the lowercased term, as a subsequence of the data |
| TableFilter.PassesAllCons | components/Table.tsx:107-117 | a row passes the filter entries exactly when it passes the first active one and the rest (AND across keys) |
| TableFilter.ApplyFiltersDone | components/Table.tsx:107-118 | when the filter loop does not throw, it keeps exactly the rows passing every active filter, in order |
| TableFilter.ApplyFiltersThrows | components/Table.tsx:110-112 | the filter loop throws exactly when an active filter reaches a row whose value for its key is null or undefined |
| TableFilter.NullReachedShift | components/Table.tsx:107-117 | a throwing row seen by the first filter stays a witness one filter later, and back |
| TableFilter.FilteredDataSpec | components/Table.tsx:93-119 | `filteredData` is the order-preserving subsequence of the rows passing the search and every active filter |
| TableFilter.InitialHidden | components/Table.tsx:62-65 | the hidden set starts as exactly the keys of the columns marked hidden |
| TableFilter.VisibleColumns | components/Table.tsx:69-71 | the visible columns are the columns whose key is not hidden, in column order |
| TableFilter.Labels | components/Table.tsx:261 | one label per option, each the option's own caption, in option order |
| TableFilter.MultiCellText | components/Table.tsx:256-263 | no chosen option shows "Select..."; one shows its caption; two show both captions joined by ", "; more than two show the count followed by " selected" |
| TableFilter.MultiCellTextUsesOnlyMembership | components/Table.tsx:256-263 | a multi-select cell's text depends only on which option values the array contains |
| TableFilter.MultiCellTextCases | components/Table.tsx:256-263 | a non-array or an array naming no option shows "Select..."; an array naming exactly one option shows its caption; two chosen options show both captions joined by ", "; more than two show the count followed by " selected" |
| TableSort.StrLessIrreflexive | components/Table.tsx:127-131 | string `<` is irreflexive |
| TableSort.StrLessTransitive | components/Table.tsx:127-131 | string `<` is transitive |
| TableSort.StrLessTotal | components/Table.tsx:127-131 | two different strings are ordered one way or the other |
| TableSort.LessIrreflexive | components/Table.tsx:127-131 | the comparator's `<` is irreflexive |
| TableSort.LessTransitive | components/Table.tsx:127-131 | the comparator's `<` is transitive |
| TableSort.LessTotal | components/Table.tsx:127-131 | on values of one type `<` is a strict total order |
| TableSort.Insert | components/Table.tsx:125-132 | inserting one row adds exactly that row to the multiset |
| TableSort.SortRows | components/Table.tsx:125-132 | sorting permutes the rows |
| TableSort.InsertSorted | components/Table.tsx:125-132 | inserting into a sorted list keeps it sorted |
| TableSort.SortRowsSorted | components/Table.tsx:125-132 | the sorted rows are ordered by the comparator |
| TableSort.SortedDataSpec | components/Table.tsx:122-133 | `sortedData` permutes the filtered rows; it is them unchanged without a column or direction; with one key type it is ordered ascending or descending |
| TableSort.InitialSort | components/Table.tsx:54-55 | the initial column is the default key when truthy, the direction the default's |
| TableSort.NextDirectionCycle | components/Table.tsx:138-144 | the direction cycle asc → desc → none has period three and always changes the state |
| TableSort.FindColumn | components/Table.tsx:136 | `columns.find` by key: none exactly when no column has the key, else a column with that key |
| TableSort.ClickHeaderSpec | components/Table.tsx:135-147 | a click on a missing or unsortable column changes nothing, on another sortable column sorts it ascending, on the sorted column advances the direction |
| TableSort.ThreeClicksRestore | components/Table.tsx:135-147 | three clicks on the sorted column restore the sort state |
| TableSort.ThirdClickRestoresOrder | components/Table.tsx:122-147 | clicking a new column three times sorts ascending, then descending, then shows the rows in their original order |
| TableView.Range | components/Table.tsx:151 | the select-all set holds each index below the row count once, in order |
| TableView.SetAdd | components/Table.tsx:160 | `Set.add` adds exactly the index, keeping earlier ones and distinctness |
| TableView.SetDelete | components/Table.tsx:162 | `Set.delete` removes exactly the index, keeping the others in order |
| TableView.DeselectOneAfterSelectAll | components/Table.tsx:295-296 | after select-all, clearing one row leaves one fewer selected, so the header box is cleared |
| TableView.RowAt | components/Table.tsx:165 | the row at a selected index, absent past the end |
| TableView.FilterValues | components/Table.tsx:355-359 | a key never set has no filter values |
| TableView.Keys | components/Table.tsx:107 | the filter keys in object order |
| TableView.SetEntryKeys | components/Table.tsx:177-182 | setting a filter keeps an existing key's position, adds a new key last, keeps keys distinct |
| TableView.SetEntryKeyOrder | components/Table.tsx:177-182 | an existing key keeps the key order, a new key is appended |
| TableView.SetEntryValues | components/Table.tsx:177-182 | setting a filter gives its key the new values and leaves other keys' values alone |
| TableView.UniqueKeysTail | components/Table.tsx:107 | distinct filter keys stay distinct without the first |
| TableView.ClearedFilterIsIgnored | components/Table.tsx:371 | a filter cleared to the empty list filters exactly as if its key had never been set |
| TableView.ToggledValues | components/Table.tsx:355-359 | a filter checkbox appends the value when checked, removes every copy of it when cleared and leaves other values |
| TableView.EditText | components/Table.tsx:188-191 | the editor starts with "" for null or undefined, else the value's string form |
| TableView.Table.constructor | components/Table.tsx:54-66 | the grid's initial state: default sort, empty search, selection and filters, no editor, hidden columns from the column specs |
| TableView.Table.ReceiveData | components/Table.tsx:92-119 | new rows keep all of the grid's own state, selected indices included, and the filtered rows follow the new data |
| TableView.Table.HandleSort | components/Table.tsx:135-147 | a header click sets the sort state to the click function's result and nothing else |
| TableView.Table.HandleSelectAll | components/Table.tsx:149-155 | checked selects every shown row, cleared none; the header box is checked exactly when checked and there are rows |
| TableView.Table.HandleSelectRow | components/Table.tsx:157-166 | adds or deletes only the index, and reports the rows at the selected indices in selection order |
| TableView.Table.HandleCellEdit | components/Table.tsx:168-175 | reports row, column and value; closes the editor unless asked not to |
| TableView.Table.StartEditing | components/Table.tsx:188-191 | opens the editor on the cell with the value's text |
| TableView.Table.ClickCell | components/Table.tsx:420-423 | a cell click opens the editor only for an editable column while no cell is edited (a dropdown label opens it regardless) |
| TableView.Table.EditorInput | components/Table.tsx:224 | typing changes only the edit text |
| TableView.Table.EditorCommit | components/Table.tsx:225-228 | blur or Enter reports the edit text and closes the editor |
| TableView.Table.EditorEscape | components/Table.tsx:229-230 | Escape closes the editor and reports nothing |
| TableView.Table.DropdownEditorChange | components/Table.tsx:198-218 | a single-select editor reports and closes, a multi-select one reports and stays open |
| TableView.Table.ToggleBooleanCell | components/Table.tsx:276-277 | a boolean cell reports the checkbox state at once |
| TableView.Table.HandleFilterChange | components/Table.tsx:177-182 | sets the key's filter values and nothing else |
| TableView.Table.FilterCheckbox | components/Table.tsx:355-359 | a filter checkbox sets the key's values to the toggled list |
| TableView.Table.ClearFilter | components/Table.tsx:371 | after "Clear filters" the grid filters as if the key had never been set |
| TableView.Table.ToggleFilterDropdown | components/Table.tsx:184-186 | one filter menu open at a time; a second click closes it |
| TableView.Table.ToggleColumn | components/Table.tsx:486-494 | a column-selector checkbox shows or hides only that key's columns |
| TableView.Table.ToggleColumnSelector | components/Table.tsx:470 | flips the column selector and nothing else |
| TableView.Table.SetSearchTerm | components/Table.tsx:464 | sets the search term and nothing else |
| TasksRoute.Strip | app/api/tasks/route.ts:65 | the grouped task has every field of the task except `s42_projects` |
| TasksRoute.Strips | app/api/tasks/route.ts:65 | stripping a list strips each task |
| TasksRoute.Ids | app/api/tasks/route.ts:69 | the ids of the groups, in order |
| TasksRoute.IndexOfId | app/api/tasks/route.ts:57 | the map lookup finds the first group with the id, or none |
| TasksRoute.GroupTasks | app/api/tasks/route.ts:51-69 | the grouping loop computes the grouping function |
| TasksRoute.GroupAllFails | app/api/tasks/route.ts:54-55 | grouping throws exactly when some task has no project |
| TasksRoute.Dedup | app/api/tasks/route.ts:57-62 | the ids without repetitions, the same elements |
| TasksRoute.ProjectIds | app/api/tasks/route.ts:55 | the project id of each task |
| TasksRoute.TasksOf | app/api/tasks/route.ts:66 | the tasks of one project are at most all tasks |
| TasksRoute.TasksOfSnoc | app/api/tasks/route.ts:66 | one more task joins only its own project's tasks |
| TasksRoute.TasksOfMember | app/api/tasks/route.ts:66 | a task is among its project's tasks exactly when it is in the input |
| TasksRoute.StripsAppend | app/api/tasks/route.ts:65 | stripping distributes over concatenation |
| TasksRoute.StripsSnoc | app/api/tasks/route.ts:65 | stripping one more task appends its stripped form |
| TasksRoute.TotalTasksUpdate | app/api/tasks/route.ts:66 | replacing a group changes the task count by the difference |
| TasksRoute.TotalTasksAppend | app/api/tasks/route.ts:58-61 | a new group adds its tasks to the count |
| TasksRoute.GroupIdsInFirstOccurrenceOrder | app/api/tasks/route.ts:57-69 | groups appear once each, in the order of each project's first task |
| TasksRoute.HoldsProjectTasksOther | app/api/tasks/route.ts:66 | a task of another project leaves a group's tasks alone |
| TasksRoute.HoldsProjectTasksSame | app/api/tasks/route.ts:66 | a task of the group's project is appended to it, stripped |
| TasksRoute.AbsentProjectHasNoTasks | app/api/tasks/route.ts:57 | a project with no task has no grouped tasks |
| TasksRoute.HoldsProjectTasksNew | app/api/tasks/route.ts:58-61 | a new project starts a group holding just its task |
| TasksRoute.AddTaskKeepsTasksMatch | app/api/tasks/route.ts:53-67 | one loop iteration keeps every group holding its project's tasks |
| TasksRoute.GroupHoldsItsProjectsTasks | app/api/tasks/route.ts:51-69 | each group holds exactly its project's tasks, stripped, in input order |
| TasksRoute.AddTaskShape | app/api/tasks/route.ts:57-66 | one iteration keeps the groups' ids and projects and opens a group only for an unseen project |
| TasksRoute.AddTaskKeepsProjectsMatch | app/api/tasks/route.ts:57-62 | one iteration keeps each group's project equal to its first task's project |
| TasksRoute.GroupProjectFromFirstTask | app/api/tasks/route.ts:58-61 | a group's project fields are copied from its first task's project |
| TasksRoute.GroupCountsEveryTask | app/api/tasks/route.ts:51-69 | the groups hold as many tasks as the input |
| TasksRoute.GroupsPartitionTasks | app/api/tasks/route.ts:51-67 | every task lands in the one group of its project: distinct ids, its group holds it, none counted twice |
| TasksRoute.Get | app/api/tasks/route.ts:10-72 | GET answers 401, 500, the fetch status, 500 when grouping throws, else the groups |
| TasksRoute.Post | app/api/tasks/route.ts:74-157 | POST answers 401, 500 for a bad body, 400 without a truthy project id and title, the insert's status, else created |
| TasksRoute.PostDefaults | app/api/tasks/route.ts:100-106 | a created task has status defaulting to "todo" and sort order to 0 for falsy values; other fields pass through unchanged |
| TasksRoute.LogFields | app/api/tasks/route.ts:256-278 | the field of each change record |
| TasksRoute.Patch | app/api/tasks/route.ts:159-288 | PATCH answers 400 without an id, 404 for a failed or empty fetch; a success has exactly one change record per updated key, holding its value before and after; a failed update after a found task answers with the update's own status |
| TasksRoute.ChangeLogs | app/api/tasks/route.ts:256-278 | one change record per updated field, no field twice, each holding the field's value before and after the update |
| ProjectTemplate.ReplaceAll | supabase/functions/create_project_from_template/index.ts:71-73 | literal replacement leaves a string shorter than the pattern alone |
| ProjectTemplate.ReplaceAllAbsent | supabase/functions/create_project_from_template/index.ts:71-73 | a title without the placeholder is unchanged |
| ProjectTemplate.ReplaceAllSelf | supabase/functions/create_project_from_template/index.ts:71-73 | replacing the placeholder by itself changes nothing |
| ProjectTemplate.ReplaceAllOccurrence | supabase/functions/create_project_from_template/index.ts:71-73 | the first occurrence of the placeholder is replaced and the scan goes on after it, so every occurrence is replaced |
| ProjectTemplate.NoOccurrenceAtStart | supabase/functions/create_project_from_template/index.ts:71-73 | where no occurrence starts in the text before it, the scan does not match at its head |
| ProjectTemplate.NoOccurrenceIn | supabase/functions/create_project_from_template/index.ts:71-73 | no occurrence starts inside `a` in `a + pat + b` when none starts in `a` followed by the pattern less its last character |
| ProjectTemplate.ReplaceAllFirstMatch | supabase/functions/create_project_from_template/index.ts:71-73 | with no match starting before the occurrence, the literal replacement keeps the text before it and puts `rep` for it |
| ProjectTemplate.ReplaceAllSkip | supabase/functions/create_project_from_template/index.ts:71-73 | positions where no match starts are copied unchanged |
| ProjectTemplate.ReplaceAllPastOne | supabase/functions/create_project_from_template/index.ts:71-73 | where no match starts, one character is copied |
| ProjectTemplate.ReplaceAllAtMatch | supabase/functions/create_project_from_template/index.ts:71-73 | at a match, `rep` is put and the scan goes on after the match |
| ProjectTemplate.ReplaceAllSameLength | supabase/functions/create_project_from_template/index.ts:71-73 | a replacement as long as the placeholder keeps the length |
| ProjectTemplate.SubstitutionLiteral | supabase/functions/create_project_from_template/index.ts:71-73 | a replacement without `$` is inserted literally |
| ProjectTemplate.JsReplaceAllLiteral | supabase/functions/create_project_from_template/index.ts:71-73 | without `$` in the name or key, the engine's `replaceAll` is literal replacement |
| ProjectTemplate.JsReplaceFromLiteral | supabase/functions/create_project_from_template/index.ts:71-73 | the same from any start position |
| ProjectTemplate.JsReplaceAllOccurrence | supabase/functions/create_project_from_template/index.ts:71-73 | the engine's `replaceAll` puts the `$` expansion of the name or key, with the text before and after the match, at the first occurrence and goes on after it |
| ProjectTemplate.JsReplaceFirstMatch | supabase/functions/create_project_from_template/index.ts:71-73 | with no match starting before the occurrence, the engine keeps the text before it and puts the expansion for it |
| ProjectTemplate.JsReplaceSkip | supabase/functions/create_project_from_template/index.ts:71-73 | positions where no match starts are copied unchanged by the engine |
| ProjectTemplate.JsReplacePastOne | supabase/functions/create_project_from_template/index.ts:71-73 | where no match starts, the engine copies one character |
| ProjectTemplate.CopiesBetween | supabase/functions/create_project_from_template/index.ts:71-73 | a scan that copies each character between two positions reproduces that slice |
| ProjectTemplate.JsReplaceAtOccurrence | supabase/functions/create_project_from_template/index.ts:71-73 | at a match the engine puts the expansion of the replacement |
| ProjectTemplate.JsReplaceAllAbsent | supabase/functions/create_project_from_template/index.ts:71-73 | without the placeholder the engine's `replaceAll` keeps the title, whatever the name or key |
| ProjectTemplate.JsReplaceFromAbsent | supabase/functions/create_project_from_template/index.ts:71-73 | the same from any start position |
| ProjectTemplate.TitleIntended | supabase/functions/create_project_from_template/index.ts:71-73 | the intended title (name and key inserted literally) is the title the function builds whenever neither contains `$` |
| ProjectTemplate.DollarNameCollapses | supabase/functions/create_project_from_template/index.ts:71-73 | a project named `$$` gets `$` in its task titles where the intended title holds `$$` |
| ProjectTemplate.TitleWithoutPlaceholders | supabase/functions/create_project_from_template/index.ts:71-73 | a title without placeholders is kept |
| ProjectTemplate.TaskPayload | supabase/functions/create_project_from_template/index.ts:71-81 | a task's payload has the title as the engine's `replaceAll` substitutes it, status `t.status` or "todo", fields `t.fields` or `{}`, the sort order; none when the title is not a string |
| ProjectTemplate.BuildTasks | supabase/functions/create_project_from_template/index.ts:70-84 | the task loop computes the payload function |
| ProjectTemplate.TasksPayloadFails | supabase/functions/create_project_from_template/index.ts:70-84 | one throwing task makes the whole loop throw |
| ProjectTemplate.TasksPayloadSpec | supabase/functions/create_project_from_template/index.ts:67-84 | one payload per template task, in template order, exactly when none throws |
| ProjectTemplate.Entries | supabase/functions/create_project_from_template/index.ts:102-108 | each checklist entry carries the task id, its name and `checked` coerced to boolean |
| ProjectTemplate.CollectEntries | supabase/functions/create_project_from_template/index.ts:102-108 | the inner loop computes the entries |
| ProjectTemplate.EntriesSnoc | supabase/functions/create_project_from_template/index.ts:102-108 | one more entry appends one row |
| ProjectTemplate.BuildChecklist | supabase/functions/create_project_from_template/index.ts:98-110 | the outer loop computes the checklist function |
| ProjectTemplate.ChecklistFails | supabase/functions/create_project_from_template/index.ts:98-110 | one throwing task makes the checklist loop throw |
| ProjectTemplate.ChecklistCount | supabase/functions/create_project_from_template/index.ts:112-137 | `checklist_created` is the sum of the checklist array lengths |
| ProjectTemplate.ChecklistRowsPointAtTasks | supabase/functions/create_project_from_template/index.ts:98-110 | every checklist row carries the id of inserted task i whose template task has an array checklist |
| ProjectTemplate.EarlyStatus | supabase/functions/create_project_from_template/index.ts:14-47 | 500 for a body that is not an object, 400 without name, key or template code, and the request goes on exactly when the key is free and an active template with tasks exists |
| ProjectTemplate.CreateProject | supabase/functions/create_project_from_template/index.ts:12-143 | the status and database effects of the whole function, in terms of the payload and checklist functions |
| HomePage.GroupIds | app/page.tsx:45 | the group id of each membership row |
| HomePage.SharesGroup | app/page.tsx:46 | true exactly when some page group id is among the user's group ids |
| HomePage.HasDashboardAccessSpec | app/page.tsx:23-50 | access for all without a page, an email or group restrictions; for a restricted page exactly when the user exists and shares a group |
| HomePage.ChooseView | app/page.tsx:58-116 | the page content iff the page exists and access is granted, else the welcome without a session and the links with one |
| HomePage.AnonymousSeesPublicPage | app/page.tsx:23-24 | without a session an existing page is always shown |
| SignupHook.EmailDomain | edge-functions/onAuthSignup/index.ts:14 | the domain is the lowercased text between the first and second `@`, none without `@` |
| SignupHook.FindGroup | edge-functions/onAuthSignup/index.ts:30-32 | the first group whose domain equals the key, or none |
| SignupHook.Signup | edge-functions/onAuthSignup/index.ts:7-51 | status 200, 400 or 500; 400 exactly without a truthy email and id; a membership exactly on 200; at most one group appended, after the existing ones |
| SignupHook.ExistingGroupIsReused | edge-functions/onAuthSignup/index.ts:30-33 | an existing group for the domain is reused and nothing is created |
| SignupHook.MissingGroupIsCreated | edge-functions/onAuthSignup/index.ts:33-42 | without a group the table gains one `domain` group exactly when the insert stores it; the answer alone decides 200 and membership of the answered group, or 500 |
| SignupHook.StoredGroupWithoutAnswer | edge-functions/onAuthSignup/index.ts:18-42 | a group stored by a create whose answer holds no row stays in the table while the request fails with 500 |
| SignupHook.MemberGroupExists | edge-functions/onAuthSignup/index.ts:42-50 | on 200 the member's group is in the table, holding the e-mail's domain, when an answered row is the stored row |
| SignupHook.CreatedGroupIsFoundAgain | edge-functions/onAuthSignup/index.ts:30-39 | a created group is found by the next sign-up of that domain; one created without a domain never is |
| SignupHook.GroupStore.constructor | edge-functions/onAuthSignup/index.ts:30-48 | the store holds the given tables |
| SignupHook.GroupStore.HandleSignup | edge-functions/onAuthSignup/index.ts:7-51 | the handler's status and tables are those of the sign-up function: the group stored when the create insert stores it, the membership when its insert does |
| AuthCallback.Callback | app/auth/callback/route.ts:6-34 | an error goes to /login with it; a missing code to /login with "Missing code"; a failed exchange to /login with its message; else to `redirect_to` or /dashboard, and a `redirect_to` the URL parser rejects makes the route fail with 500 |
| AuthCallback.ErrorTakesPrecedence | app/auth/callback/route.ts:12-17 | with an error the redirect depends on nothing else, and carries the description exactly when given |
| AuthCallback.RedirectLeavesOrigin | app/auth/callback/route.ts:33 | an absolute or protocol-relative `redirect_to` leaves the site |
| AuthCallback.SafeCallback | app/auth/callback/route.ts:8 | the corrected handler always redirects, on the origin, and answers as the original for safe or absent targets |
| Dropdown.RemoveAll | components/Dropdown.tsx:87 | the filter removes every copy of the value and keeps every copy of the others, in their order (a subsequence with the same multiset minus the value) |
| Dropdown.Toggle | components/Dropdown.tsx:82-91 | a selected value is removed entirely, the others kept with their copies and order; an unselected one appended |
| Dropdown.RemoveAllAbsent | components/Dropdown.tsx:87 | removing an absent value changes nothing |
| Dropdown.ToggleTwice | components/Dropdown.tsx:82-91 | toggling an unselected value twice restores the selection |
| Dropdown.RemoveAllAppended | components/Dropdown.tsx:82-91 | removing a value just appended restores the selection |
| Dropdown.SelectedLabels | components/Dropdown.tsx:103-105 | at most one label per option |
| Dropdown.SelectedLabelsSpec | components/Dropdown.tsx:103-105 | the labels are exactly those of the options whose value is selected |
| Dropdown.SelectedLabelsInOptionOrder | components/Dropdown.tsx:103-105 | the labels are the filtered options mapped to their captions: one label per option whose value is selected, in options order, so the count MultiDisplay shows is the number of such options |
| Dropdown.MultiDisplay | components/Dropdown.tsx:99-109 | placeholder for an empty selection, "N selected" above two labels, "" with no match, the label with one, the two labels joined by ", " with two |
| Dropdown.FindOption | components/Dropdown.tsx:111 | the first option with the value, or none |
| Dropdown.DropdownMenu.constructor | components/Dropdown.tsx:35 | starts closed |
| Dropdown.DropdownMenu.ClickButton | components/Dropdown.tsx:127 | the button toggles the menu unless disabled |
| Dropdown.DropdownMenu.ClickOption | components/Dropdown.tsx:79-96 | a disabled option does nothing; multi mode reports the toggled list and stays open; single mode reports the value and closes |
| Dropdown.DropdownMenu.Receive | components/Dropdown.tsx:27 | a new value from the parent |
| Dropdown.DropdownMenu.MouseDown | components/Dropdown.tsx:39-43 | a press outside closes the menu |
| Dropdown.DropdownMenu.KeyDown | components/Dropdown.tsx:45-49 | Enter or Escape closes the menu only in multi mode |
| Dropdown.DropdownMenu.ClickDone | components/Dropdown.tsx:165 | the multi-select Done button closes the menu |
| StyledDropdown.FilteredOptions | components/StyledDropdown.tsx:80-85 | unchanged when not searchable or the term is empty |
| StyledDropdown.FilteredOptionsSpec | components/StyledDropdown.tsx:80-85 | with a term, exactly the options whose lowercased label or value contains it, in order |
| StyledDropdown.FindValue | components/StyledDropdown.tsx:36 | the first option with the value, or none |
| StyledDropdown.ButtonTextSpec | components/StyledDropdown.tsx:182 | the button shows the matching option's label, else the placeholder |
| StyledDropdown.StyledDropdownMenu.constructor | components/StyledDropdown.tsx:29-30 | starts closed with an empty search |
| StyledDropdown.StyledDropdownMenu.ClickButton | components/StyledDropdown.tsx:173 | the button toggles the menu |
| StyledDropdown.StyledDropdownMenu.Search | components/StyledDropdown.tsx:127 | typing sets the search term |
| StyledDropdown.StyledDropdownMenu.Select | components/StyledDropdown.tsx:71-77 | reports the value, closes and clears the search, so all options are listed again |
| StyledDropdown.StyledDropdownMenu.MouseDown | components/StyledDropdown.tsx:38-48 | a press outside button and menu closes and clears the search; inside changes nothing |
| StyledDropdown.StyledDropdownMenu.Receive | components/StyledDropdown.tsx:22 | a new value from the parent |
| StatusDropdown.StatusOptionsComplete | components/StatusDropdown.tsx:16-21 | the four statuses are all listed, with distinct codes and captions |
| StatusDropdown.FindStatus | components/StatusDropdown.tsx:72 | the listed status with the code, or none |
| StatusDropdown.DisplayValueSpec | components/StatusDropdown.tsx:70-74 | every status code shows its caption; anything else the placeholder |
| StatusDropdown.CodeInjective | components/StatusDropdown.tsx:16-21 | different statuses have different codes |
| StatusDropdown.StatusMenu.constructor | components/StatusDropdown.tsx:29 | starts closed |
| StatusDropdown.StatusMenu.ClickButton | components/StatusDropdown.tsx:121 | the button toggles the menu |
| StatusDropdown.StatusMenu.ClickOption | components/StatusDropdown.tsx:63-68 | reports the status code and closes |
| StatusDropdown.StatusMenu.MouseDown | components/StatusDropdown.tsx:35-50 | a press outside button and menu closes it |
| StatusDropdown.StatusMenu.Receive | components/StatusDropdown.tsx:10 | a new value from the parent |
| UserSelector.FilteredUsers | components/UserSelectorModal.tsx:62-68 | at most the fetched users |
| UserSelector.FilteredUsersSpec | components/UserSelectorModal.tsx:62-68 | exactly the users whose email or display name contains the term ignoring case, in order; all for an empty term |
| UserSelector.SelectedUsers | components/UserSelectorModal.tsx:85-89 | at most the fetched users |
| UserSelector.SelectedUsersSpec | components/UserSelectorModal.tsx:85-89 | exactly the users whose id is selected, in list order; none for an empty selection |
| UserSelector.UserSelectorModal.constructor | components/UserSelectorModal.tsx:31-34 | starts with the given ids selected, no users and an empty search |
| UserSelector.UserSelectorModal.PropsChanged | components/UserSelectorModal.tsx:37-42 | opening, or new ids while open, resets the selection to the given ids and loads the fetched users; while closed the selection and users are kept |
| UserSelector.UserSelectorModal.Search | components/UserSelectorModal.tsx:62 | typing sets the search term |
| UserSelector.UserSelectorModal.ToggleUser | components/UserSelectorModal.tsx:70-83 | a selected id is removed, an unselected one added (multiple) or made the only one (single), so single mode keeps at most one |
| UserSelector.UserSelectorModal.Clear | components/UserSelectorModal.tsx:91-93 | clear empties the selection |
| UserSelector.UserSelectorModal.Confirm | components/UserSelectorModal.tsx:85-89 | hands back the users whose id is selected, none while confirm is disabled |
| Toast.IconsDistinct | components/Toast.tsx:35-47 | the four types show four different icons |
| Toast.ColoursDistinct | components/Toast.tsx:19-33 | the four types get four different colours |
| Toast.TypeStyles | components/Toast.tsx:19-47 | four types, four icons and colours; any other type looks like info |
| Toast.WithoutId | components/Toast.tsx:110-112 | removal never grows the queue |
| Toast.WithoutIdSpec | components/Toast.tsx:110-112 | removal drops every toast with the id and keeps the rest in order |
| Toast.RemoveUndoesAdd | components/Toast.tsx:105-112 | removing a toast just added under a fresh id restores the queue |
| Toast.ToastQueue.constructor | components/Toast.tsx:103 | the queue starts empty |
| Toast.ToastQueue.AddToast | components/Toast.tsx:105-108 | appends the toast, type info by default, leaving the others |
| Toast.ToastQueue.RemoveToast | components/Toast.tsx:110-112 | the queue without the id's toasts |
| Toast.ToastQueue.Success | components/Toast.tsx:118 | appends a success toast |
| Toast.ToastQueue.Error | components/Toast.tsx:119 | appends an error toast |
| Toast.ToastQueue.Warning | components/Toast.tsx:120 | appends a warning toast |
| Toast.ToastQueue.Info | components/Toast.tsx:121 | appends an info toast |
| Tabs.InitialTab | components/Tabs.tsx:18 | the default tab when given, else the first tab's id, else "" |
| Tabs.ActiveContent | components/Tabs.tsx:20 | no content exactly when no tab has the active id |
| Tabs.ActiveContentFirst | components/Tabs.tsx:20 | the content shown is the first tab's with the active id |
| Tabs.TabBar.constructor | components/Tabs.tsx:18 | starts on the initial tab |
| Tabs.TabBar.Click | components/Tabs.tsx:29 | a click makes the tab active and shows its content |
| SideNav.ResolveIconAsWritten | components/SideNav.tsx:39-43 | the lookup as written yields an inherited member only for `constructor` and `__proto__` |
| SideNav.ResolveIcon | components/SideNav.tsx:39-43 | LayoutGrid for no, empty or unknown names, else the map's icon for the lowercased name |
| SideNav.ConstructorIsNoIcon | components/SideNav.tsx:42 | the names `Constructor` and `__proto__` resolve to members that are not icons |
| SideNav.ResolveIconAgrees | components/SideNav.tsx:39-43 | apart from those two names the lookup as written and the corrected one agree |
| SideNav.ResolveIconCaseInsensitive | components/SideNav.tsx:41 | the lookup ignores case; `folder` and `folder-open` both give FolderOpen |
| SideNav.ToggleSize | components/SideNav.tsx:64 | the size button always changes the mode, to min exactly from full |
| SideNav.SectionKey | components/SideNav.tsx:79 | a section without id is keyed `uncategorised` |
| SideNav.NavRail.constructor | components/SideNav.tsx:46-47 | starts full and closed |
| SideNav.NavRail.ClickSize | components/SideNav.tsx:64 | the size button applies the toggle |
| SideNav.NavRail.ClickMenu | components/SideNav.tsx:72 | the menu button flips the mobile menu |
| SideNav.ToggleSizeTwice | components/SideNav.tsx:64 | two clicks restore full or min; mobile goes to full then min |
| EnvFiles.Load | check_navigation.js:10-14 | every key of the loaded map comes from some line |
| EnvFiles.LoadLines | check_navigation.js:10-14 | the line loop computes the fold of the lines with the given line reader |
| EnvFiles.LastLineWins | check_navigation.js:13 | a key holds the value of the last line that yields it |
| EnvFiles.UnsetKey | check_navigation.js:12 | a key no line yields is absent |
| NavigationEnv.LineEntry | check_navigation.js:11-13 | a line yields an entry exactly when its first `=` is neither first nor missing; key and value are the trimmed text before and after it, later `=` kept |
| NavigationEnv.AfterFirst | check_navigation.js:11 | the rejoined rest of the split is the text after the first `=` |
| NavigationEnv.EmptyValueIsKept | check_navigation.js:12-13 | `KEY=` stores the empty string |
| NavigationEnv.ValueKeepsLaterEquals | check_navigation.js:11-13 | a line `key=rest` with an `=`-free non-empty key stores all of `rest`, later `=` signs included, both trimmed |
| NavigationEnv.LinesWithoutKeyAreSkipped | check_navigation.js:12 | a line without `=` or with an empty key is skipped |
| NavigationEnv.LoadEnv | check_navigation.js:9-15 | the file's lines folded with this script's line reader |
| DashboardEnv.LineEntry | create_dashboard.js:8-10 | a line yields an entry exactly when both the key and the segment up to the second `=` are non-empty; key and value trimmed |
| DashboardEnv.LoadEnv | create_dashboard.js:4-14 | the file's lines folded with this script's line reader |
| DashboardEnv.KeptByBoth | create_dashboard.js:8-10 | a line this parser keeps is kept by the other under the same key, with the same value when no second `=` follows |
| DashboardEnv.EmptyValueIsSkipped | create_dashboard.js:9 | `KEY=` is skipped here and stored as "" by the other parser |
| DashboardEnv.SecondEqualsEndsValue | create_dashboard.js:8-10 | a line `key=value=tail` stores `value` here and `value=tail` in the other parser |
| DashboardEnv.BlankValueIsKept | create_dashboard.js:9-10 | `KEY= ` passes the test untrimmed and stores "" |

## Left out

- All `fetch` and Supabase client calls, `getServerSession`, the code-for-session exchange and the environment configuration: their answers are parameters of the functions and methods that consume them.
- Logging inserts into `s42_logs` and `console` output; POST's log row is returned as a value but not sent anywhere.
- A `fetch` whose promise rejects (a network failure) is not an input of any model. In the tasks route the `catch` (app/api/tasks/route.ts:150-155 and :281-286) then answers 500. This matters where the database has already changed: a rejected log insert after a stored task (:131-147) gives 500 although the task exists, and a rejected log insert in the PATCH loop (:257-278) gives 500 after the update was applied. The sign-up hook has no `try`: a rejected group lookup, a lookup answer that is not JSON, or a rejected membership insert (edge-functions/onAuthSignup/index.ts:30-31, :45-48) fails the whole function. The models state the replies only for calls that resolve.
- TasksRoute.Post: the created task in the reply is the row that was sent (`TaskData`, the default-filled body), standing for `createdTask[0]`, the row the database returns (app/api/tasks/route.ts:128, :148); columns the database fills in itself (its id, timestamps, defaults for omitted columns) are not modelled.
- The checklist insert's own failure in `create_project_from_template`: it is only logged and does not change the response, so it is no input.
- JavaScript numbers are unbounded integers: no floating point, `NaN` or `Infinity`.
- `toLowerCase` is modelled on ASCII letters only; `trim` on ASCII white space and a few Unicode spaces.
- TableSort.SortedDataSpec: the order is proved only when the key values are all numbers or all strings; `<` on mixed types, which the engine coerces, is not modelled, and sort stability is not claimed.
- Equality of JavaScript values is structural (`SameValueZero` on primitives, reference identity on objects and arrays is not modelled).
- Objects are maps: the engine's own-key order (integer-like keys first in numeric order, then the others in insertion order) is not modelled.
- TasksRoute.ChangeLogs: the change records come in an arbitrary order of the updated fields, not in the order `Object.keys(updates)` lists them; the set of records and each record's contents are stated.
- TableFilter.ApplyFilters: the filter entries are applied in the order of the given sequence, taken to be insertion order; `Object.entries` lists integer-like column keys first, which can decide whether a null cell is reached (and the filter throws) before another filter has already removed its row.
- TasksRoute.Patch: which key is logged for a failed update (`Object.keys(updates)[0]`) is only stated to be one of the updated keys, because the object's key order is not modelled.
- Toast ids come from the clock and are parameters; the 5-second auto-dismiss timer is not modelled.
- AuthCallback.SafeCallback: URL resolution is approximated by the StaysOnOrigin predicate on the target text, not a full URL parser; a same-origin path is taken to resolve.
- AuthCallback.Callback: whether `new URL(redirect_to, origin)` throws is a parameter, since the URL parser is not modelled; the model states what the route answers either way.
- The sign-up hook's create and membership inserts are parameters (whether and under which id the group was stored, the row its answer holds, whether the membership was stored); concurrent sign-ups are not modelled.
- SignupHook.FindGroup: the domain goes into the query string unescaped (`domain=eq.` + domain); the lookup is modelled as exact equality of the domain, which is what the query does only for domains without `&`, `#`, `+` or `%`.
- The user picker's fetch is a parameter; its loading flag is not modelled.
- Rendering, portals, DOM positioning, focus and CSS class strings (except the toast colours).
- A key named `__proto__` in the `.env` files (which the object assignment would not store as an own property).
- components/Tooltip.tsx, components/BarChart.tsx, the presentation-only components, the pass-through API routes and the database maintenance scripts are not part of this model.

## Findings

| source | as written | input that shows it | evidently intended | confidence | as-written member | corrected member |
|---|---|---|---|---|---|---|
| supabase/functions/create_project_from_template/index.ts:71-73 | `replaceAll` with the project name or key as a string replacement, which the engine reads as a template with `$` patterns | a project named `$$` gets the title `$` for `{{PROJECT_NAME}}` | the name and key inserted literally | medium, not executed | ProjectTemplate.DollarNameCollapses | ProjectTemplate.TitleIntended |
| components/SideNav.tsx:39-43 | `iconMap[key] ?? LayoutGrid` on an object literal also finds inherited `Object.prototype` members | icon name `constructor` or `__proto__` yields a function or the prototype, not an icon | unknown names fall back to LayoutGrid | medium, not executed | SideNav.ConstructorIsNoIcon | SideNav.ResolveIcon |
| app/auth/callback/route.ts:33 | `redirect_to` is used as the redirect target without checking it | `redirect_to=https://evil.example` sends the signed-in user to another site | only same-origin paths accepted, else /dashboard | medium, not executed | AuthCallback.RedirectLeavesOrigin | AuthCallback.SafeCallback |
