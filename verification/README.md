# Asana task export to CSV: verified model of the transform core

The exporter (`main.py`) reads every task of every project in one Asana
workspace and writes one CSV row per task. Most of the script is client,
pagination and file plumbing. This project models the pure part of it in
Dafny and proves its properties:

- **Task row normaliser** (`Normalize`). This is the body of the per-task loop in
  `process_project_tasks`. It looks up the task's workspace name by gid and
  truncates notes longer than 80 characters to their first 79. It reformats
  the created, modified and completed timestamps by positional slicing
  (`t[0:10] + ' ' + t[11:16]`) and takes the assignee's gid. A final pass
  turns every remaining `None` into `''`. The result is a 13-cell row in
  header order.
- **Workspace map and lookup** (`Workspaces`). `get_workspace_dict` folds the
  workspace list into a gid-to-name map, where a later duplicate gid
  overwrites an earlier one. The requested workspace is the first one whose
  name matches exactly; when none does, the lookup fails the way `next` on an
  exhausted generator does.
- **Collection and aggregation** (`Sequences`, `Export`). Tasks are normalised
  in order and the first failure aborts the run. The per-project row lists
  are concatenated in project order (`db_list.extend`).
- **Output file name** (`Export.FileName`): `'_'.join([root, workspace, day + '.csv'])`.

Python's `None` is `Option.None`. An exception that the script leaves
uncaught is `Result.Failure` with an `Error`: `WorkspaceNotFound` or
`UnknownWorkspaceGid`. Python slicing with non-negative bounds clamps to the
string length; `PyStr.Slice` models that, so a short timestamp gives a
shorter string instead of an error. A row cell is either text or the
`completed` boolean, which reaches the row unchanged.

Two places where the code does something other than the obvious reading;
the model follows the code:

- The workspace name in a row is not the resolved workspace's name. It is
  looked up per task from the task's own workspace gid in the map of all
  workspaces.
- `notes` is a required string. `len(task['notes'])` runs before the `None`
  pass, so a task without notes would raise rather than give `''`.

Files: `wrappers.dfy` (Option, Result), `pystr.dfy` (Python slice and join),
`records.dfy` (task, workspace, project, cell, row, header, errors),
`normalize.dfy`, `workspaces.dfy`, `sequences.dfy`, `export.dfy`.

## Model

| member | source | states |
|---|---|---|
| PyStr.Slice | main.py:60 | `s[lo:hi]` with non-negative bounds has length `min(hi,len) - min(lo,len)` (or 0), and character `i` of the result is character `lo + i` of `s` |
| PyStr.Join | main.py:94 | `sep.join(parts)` built left to right: for two or more parts it is the join of all but the last part, then `sep`, then the last part |
| Normalize.TruncateNotes | main.py:59-60 | notes longer than 80 characters become exactly their first 79 characters; notes of at most 80 characters are returned unchanged |
| Normalize.TruncateNotesIsBoundedPrefix | main.py:59-60 | the stored note is always a prefix of the original, at most 80 long, and truncating it again changes nothing |
| Normalize.FormatTimestamp | main.py:62-67 | result length is `min(len,10) + 1 + max(0, min(len,16) - 11)`; it begins with the first `min(len,10)` characters, then a space, then characters 11..15 of the input as far as they exist; for inputs of at least 16 characters it is 16 long with `t[0..10]`, a space and `t[11..16]` |
| Normalize.FormatIsoTimestamp | main.py:62-67 | an ISO stamp `YYYY-MM-DD?HH:MM...` becomes `YYYY-MM-DD HH:MM` whatever the separator, seconds or zone |
| Normalize.FormatTimestampExample | main.py:62-63 | `2023-05-04T09:30:00.000Z` becomes `2023-05-04 09:30` |
| Normalize.FormatOptTimestamp | main.py:62-67 | an absent timestamp stays absent (`None`), a present one is reformatted |
| Normalize.BlankNones | main.py:71 | the final pass keeps the row length, turns each `None` into `''` and keeps every other value, including a `false` flag |
| Normalize.NormaliseTask | main.py:56-72 | normalising fails with `UnknownWorkspaceGid(gid)` exactly when the task's workspace gid is not in the map; otherwise the row has as many cells as the header |
| Normalize.NormaliseTaskColumns | main.py:61-71 | cell by cell in header order: task name, project name, mapped workspace name, due date or `''`, three reformatted timestamps or `''`, the completed flag, assignee gid or `''`, assignee status, parent, truncated notes, task gid |
| Normalize.AbsentFieldsAreBlank | main.py:68-71 | each absent optional field (due date, the three timestamps, assignee, assignee status, parent) is the empty text cell |
| Normalize.PresentFieldsPassThrough | main.py:61-71 | each present optional field reaches its column unchanged, except that timestamps are reformatted and the assignee is reduced to its gid |
| Normalize.HeaderNamesColumns | main.py:29-31 | the header has 13 names and each column position used by the row carries the matching header name |
| Workspaces.WorkspaceDict | main.py:42-47 | the key set is exactly the set of input gids, and each gid maps to the name of its last occurrence in the list |
| Workspaces.WorkspaceDictValues | main.py:42-47 | the gid at any position is a key, and its value is the name of the last workspace with that gid, at or after that position |
| Workspaces.FindWorkspace | main.py:110-111 | the lookup fails with `WorkspaceNotFound(name)` exactly when no workspace has that exact name; otherwise it returns the first workspace in list order whose name equals the argument |
| Workspaces.FoundWorkspaceIsKnown | main.py:107-111 | the workspace found by name is a key of the gid map built from the same list |
| Sequences.MapUntilFailure | main.py:56-72 | a loop whose body may raise returns, on success, one result per input element |
| Sequences.MapSucceeds | main.py:56-72 | the loop succeeds exactly when its body succeeds on every element |
| Sequences.MapValues | main.py:56-72 | on success, result `i` is the body's value on element `i` |
| Sequences.MapFirstFailure | main.py:56-72 | the loop fails with the error of the first failing element |
| Sequences.MapFailureCause | main.py:56-72 | every failure of the loop is the failure of some element |
| Sequences.Flatten | main.py:114-117 | repeated `extend` yields a list whose length is the sum of the lengths of the parts |
| Sequences.SumLengthsPointwise | main.py:114-117 | lists of pairwise equal lengths have equal total length |
| Sequences.FlattenAppend | main.py:114-117 | extending with `a` and then with `b` equals extending with `a` followed by `b` |
| Sequences.FlattenPlacesEachList | main.py:114-117 | list `k` appears unchanged and contiguously, at the offset given by the total length of the lists before it |
| Sequences.FlattenMembers | main.py:114-117 | an element is in the concatenation exactly when it is in one of the lists |
| Sequences.FlattenSingletons | main.py:114-117 | concatenating one-element lists gives their elements in order |
| Export.CollectTasks | main.py:49-75 | one project's collection returns one row per task on success; every failure is an unknown workspace gid |
| Export.CollectTasksSucceeds | main.py:56-72 | collection succeeds exactly when every task's workspace gid is in the map |
| Export.CollectTasksRows | main.py:56-72 | on success, row `i` is the normalisation of task `i` under the project's name |
| Export.CollectTasksFirstUnknown | main.py:56-57 | collection fails with the gid of the first task whose workspace is unknown |
| Export.ProjectRows | main.py:117 | the per-project call succeeds exactly when every task of the project names a workspace in the gid map, and then gives one row per task |
| Export.CollectProjects | main.py:114-117 | collecting all projects returns one row list per project on success; every failure is an unknown workspace gid |
| Export.CollectProjectsRows | main.py:114-117 | collecting succeeds exactly when every project does, and entry `k` holds project `k`'s rows |
| Export.CollectProjectsFirstFailure | main.py:114-117 | a failed collection reports the error of the first failing project |
| Export.ExportWorkspace | main.py:107-117 | the export fails with `WorkspaceNotFound(name)` exactly when no workspace has that exact name; its only other failure is an unknown workspace gid |
| Export.ExportConcatenatesProjects | main.py:110-117 | once the workspace is found, the export succeeds exactly when collecting its projects does; its rows are then the per-project row lists concatenated in project order, and otherwise it fails with the collection's error |
| Export.ExportSucceeds | main.py:107-117 | once the workspace is found, the export succeeds exactly when every task of every one of its projects names a workspace gid present in the map |
| Export.ExportOwnWorkspaceSucceeds | main.py:107-117 | when every task returned for the found workspace's projects names that workspace's gid, the export succeeds |
| Export.ExportRowsMatchHeader | main.py:68-71 | every exported row has exactly as many cells as the header |
| Export.ExportRowCount | main.py:114-117 | a successful export has as many rows as the found workspace's projects have tasks in total |
| Export.SingleTaskProject | main.py:56-72 | a project with one task in a known workspace yields exactly that task's row |
| Export.OneTaskPerProjectFlatten | main.py:114-117 | projects with one known task each give one row per project, in project order |
| Export.OneTaskPerProjectRows | main.py:110-117 | a workspace whose projects have one task each exports one row per project, in project order |
| Export.FileName | main.py:93-94 | the output file name is `root + "_" + workspace + "_" + day + ".csv"` |
| Export.FileNameRoundTrip | main.py:94 | the workspace can be read back from the file name it produced |
| Export.WorkspaceOfFileNameSound | main.py:94 | any workspace read back from a file name rebuilds that same file name |
| Export.FileNameDistinguishesWorkspaces | main.py:94 | two different workspaces exported on the same day get different file names |
| Export.FileNameExample | main.py:93-94 | workspace `Acme` exported on `2024-03-01` goes to `asana_tasks_Acme_2024-03-01.csv` |

## Left out

- Asana client calls (`users.me`, `projects.find_by_workspace`, `tasks.find_by_project`) are remote calls through a library outside this model. The workspace list and the projects with their tasks are parameters; `projectsOf` stands for the two project and task queries.
- The pagination loop (main.py:52-74) and its `'next_page' not in tasks` exit depend on the client library's iterator. A project's tasks arrive as one sequence with every page concatenated in order.
- The `opt_fields` projection and `page_size` option are request parameters of the remote query.
- `write_csv_records`: CSV quoting and file output go through Python's `csv` module and the file system. No file is modelled, so "no file when the workspace is missing" is stated only as the export's failure.
- Argument handling is not modelled: the `sys.argv` arity check, the usage text and `sys.exit(0)`. Neither are the `print` of each project name, `datetime.date.today()` (the day is a parameter) or `os.path.join` with the output directory, whose meaning depends on the platform.
- Hard-coded configuration is not modelled: the access token, the output directory, `REC_LIMIT`, `ITEM_LIMIT`, `PAGE_SIZE` and the first, overwritten `CSV_OUT_HEADER` (main.py:23). The file-name root `asana_tasks` is kept as `OutFileNameRoot` for the file-name example.
- Task `name`, `gid` and `completed`, project and workspace names, and an assignee's gid are modelled as always present. The service always sends them. If one were `None`, the source would render it as `''` (main.py:71).
- A task's workspace reference is modelled as always present. If it were `None`, `task['workspace']['gid']` would raise a TypeError at main.py:57; that failure is not modelled.
- The task's `parent` is a compact object in the service's response, and the CSV writer prints its textual form. It is modelled as optional opaque text.
- A `None` note would make `len` raise at main.py:59. Notes are a required string here, so that failure is not modelled.
