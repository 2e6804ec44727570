/** Per-project collection, aggregation across projects, the output file
    name, and the whole export of one workspace. */
module Export {
  import opened Wrappers
  import opened PyStr
  import opened Records
  import opened Normalize
  import opened Workspaces
  import opened Sequences

  /** A project together with all of its tasks, every page concatenated in
      the order the service returned them. */
  datatype ProjectTasks = ProjectTasks(project: Project, tasks: seq<Task>)

  /** Every task of `tasks` names a workspace gid the map knows. */
  predicate AllKnown(tasks: seq<Task>, wsNames: map<string, string>) {
    forall i :: 0 <= i < |tasks| ==> tasks[i].workspace.gid in wsNames
  }

  /** The rows of one project's tasks, in task order; the first task whose
      workspace gid is unknown aborts the collection. */
  function CollectTasks(tasks: seq<Task>, projectName: string, wsNames: map<string, string>): (r: Result<seq<Row>, Error>)
    ensures r.Success? ==> |r.value| == |tasks|
    ensures r.Failure? ==> r.error.UnknownWorkspaceGid?
  {
    var normalise := (t: Task) => NormaliseTask(t, projectName, wsNames);
    MapFailureCause(tasks, normalise);
    MapUntilFailure(tasks, normalise)
  }

  /** Collecting succeeds exactly when every task's workspace is known. */
  lemma CollectTasksSucceeds(tasks: seq<Task>, projectName: string, wsNames: map<string, string>)
    ensures CollectTasks(tasks, projectName, wsNames).Success? <==> AllKnown(tasks, wsNames)
  {
    MapSucceeds(tasks, (t: Task) => NormaliseTask(t, projectName, wsNames));
  }

  /** On success, row `i` is the normalisation of task `i`. */
  lemma CollectTasksRows(tasks: seq<Task>, projectName: string, wsNames: map<string, string>)
    requires AllKnown(tasks, wsNames)
    ensures CollectTasks(tasks, projectName, wsNames).Success?
    ensures forall i :: 0 <= i < |tasks| ==>
      CollectTasks(tasks, projectName, wsNames).value[i] == NormaliseTask(tasks[i], projectName, wsNames).value
  {
    MapValues(tasks, (t: Task) => NormaliseTask(t, projectName, wsNames));
  }

  /** A failed collection reports the first task with an unknown workspace. */
  lemma CollectTasksFirstUnknown(tasks: seq<Task>, projectName: string, wsNames: map<string, string>, i: nat)
    requires i < |tasks| && tasks[i].workspace.gid !in wsNames
    requires forall j :: 0 <= j < i ==> tasks[j].workspace.gid in wsNames
    ensures CollectTasks(tasks, projectName, wsNames) == Failure(UnknownWorkspaceGid(tasks[i].workspace.gid))
  {
    MapFirstFailure(tasks, (t: Task) => NormaliseTask(t, projectName, wsNames), i);
  }

  /** The rows of one project's tasks, under that project's name: it
      succeeds exactly when all of the project's tasks name a known workspace,
      with one row per task. */
  function ProjectRows(p: ProjectTasks, wsNames: map<string, string>): (r: Result<seq<Row>, Error>)
    ensures r.Success? <==> AllKnown(p.tasks, wsNames)
    ensures r.Success? ==> |r.value| == |p.tasks|
  {
    CollectTasksSucceeds(p.tasks, p.project.name, wsNames);
    CollectTasks(p.tasks, p.project.name, wsNames)
  }

  /** The rows of each project in order; the first project with a failing
      task aborts the export with that task's error. */
  function CollectProjects(ps: seq<ProjectTasks>, wsNames: map<string, string>): (r: Result<seq<seq<Row>>, Error>)
    ensures r.Success? ==> |r.value| == |ps|
    ensures r.Failure? ==> r.error.UnknownWorkspaceGid?
  {
    var collect := (p: ProjectTasks) => ProjectRows(p, wsNames);
    MapFailureCause(ps, collect);
    MapUntilFailure(ps, collect)
  }

  /** Collecting all projects succeeds exactly when each project does, and
      then entry `k` holds the rows of project `k`. */
  lemma CollectProjectsRows(ps: seq<ProjectTasks>, wsNames: map<string, string>)
    ensures CollectProjects(ps, wsNames).Success? <==> forall k :: 0 <= k < |ps| ==> ProjectRows(ps[k], wsNames).Success?
    ensures CollectProjects(ps, wsNames).Success? ==>
      forall k :: 0 <= k < |ps| ==> CollectProjects(ps, wsNames).value[k] == ProjectRows(ps[k], wsNames).value
  {
    var collect := (p: ProjectTasks) => ProjectRows(p, wsNames);
    MapSucceeds(ps, collect);
    if MapUntilFailure(ps, collect).Success? {
      MapValues(ps, collect);
    }
  }

  /** A failed collection reports the error of the first failing project. */
  lemma CollectProjectsFirstFailure(ps: seq<ProjectTasks>, wsNames: map<string, string>, k: nat)
    requires k < |ps| && ProjectRows(ps[k], wsNames).Failure?
    requires forall j :: 0 <= j < k ==> ProjectRows(ps[j], wsNames).Success?
    ensures CollectProjects(ps, wsNames) == Failure(ProjectRows(ps[k], wsNames).error)
  {
    MapFirstFailure(ps, (p: ProjectTasks) => ProjectRows(p, wsNames), k);
  }

  /** The whole export: build the gid map, find the workspace by name, then
      collect and concatenate the rows of its projects. `projectsOf` stands
      for the service's project and task queries. */
  function ExportWorkspace(workspaces: seq<Workspace>, name: string, projectsOf: string -> seq<ProjectTasks>): (r: Result<seq<Row>, Error>)
    ensures (r == Failure(WorkspaceNotFound(name))) <==> forall i :: 0 <= i < |workspaces| ==> workspaces[i].name != name
    ensures r.Failure? ==> r.error.WorkspaceNotFound? || r.error.UnknownWorkspaceGid?
  {
    var wsNames := WorkspaceDict(workspaces);
    var ws :- FindWorkspace(workspaces, name);
    var perProject :- CollectProjects(projectsOf(ws.gid), wsNames);
    Success(Flatten(perProject))
  }

  /** Once the workspace is found, the export is the concatenation, in
      project order, of the rows collected from each of its projects. */
  lemma ExportConcatenatesProjects(workspaces: seq<Workspace>, name: string, projectsOf: string -> seq<ProjectTasks>)
    requires FindWorkspace(workspaces, name).Success?
    ensures var perProject := CollectProjects(projectsOf(FindWorkspace(workspaces, name).value.gid), WorkspaceDict(workspaces));
      && (ExportWorkspace(workspaces, name, projectsOf).Success? <==> perProject.Success?)
      && (perProject.Success? ==> ExportWorkspace(workspaces, name, projectsOf).value == Flatten(perProject.value))
      && (perProject.Failure? ==> ExportWorkspace(workspaces, name, projectsOf) == Failure(perProject.error))
  {
  }

  /** Once the workspace is found, the export succeeds exactly when every
      task of every one of its projects names a workspace in the gid map. */
  lemma ExportSucceeds(workspaces: seq<Workspace>, name: string, projectsOf: string -> seq<ProjectTasks>)
    requires FindWorkspace(workspaces, name).Success?
    ensures var ps := projectsOf(FindWorkspace(workspaces, name).value.gid);
      (ExportWorkspace(workspaces, name, projectsOf).Success? <==>
       forall k :: 0 <= k < |ps| ==> AllKnown(ps[k].tasks, WorkspaceDict(workspaces)))
  {
    ExportConcatenatesProjects(workspaces, name, projectsOf);
    CollectProjectsRows(projectsOf(FindWorkspace(workspaces, name).value.gid), WorkspaceDict(workspaces));
  }

  /** When every task the found workspace's projects return belongs to that
      workspace, the export cannot fail: the found gid is always a key of the
      gid map. */
  lemma ExportOwnWorkspaceSucceeds(workspaces: seq<Workspace>, name: string, projectsOf: string -> seq<ProjectTasks>)
    requires FindWorkspace(workspaces, name).Success?
    requires var found := FindWorkspace(workspaces, name).value;
      var ps := projectsOf(found.gid);
      forall k, i :: 0 <= k < |ps| && 0 <= i < |ps[k].tasks| ==> ps[k].tasks[i].workspace.gid == found.gid
    ensures ExportWorkspace(workspaces, name, projectsOf).Success?
  {
    FoundWorkspaceIsKnown(workspaces, name);
    ExportSucceeds(workspaces, name, projectsOf);
  }

  /** Every exported row has exactly one cell per header column. */
  lemma ExportRowsMatchHeader(workspaces: seq<Workspace>, name: string, projectsOf: string -> seq<ProjectTasks>, row: Row)
    ensures ExportWorkspace(workspaces, name, projectsOf).Success? && row in ExportWorkspace(workspaces, name, projectsOf).value
      ==> |row| == |Header|
  {
    if !(ExportWorkspace(workspaces, name, projectsOf).Success? && row in ExportWorkspace(workspaces, name, projectsOf).value) {
      return;
    }
    ExportConcatenatesProjects(workspaces, name, projectsOf);
    var ps := projectsOf(FindWorkspace(workspaces, name).value.gid);
    var wsNames := WorkspaceDict(workspaces);
    var perProject := CollectProjects(ps, wsNames).value;
    FlattenMembers(perProject, row);
    var k :| 0 <= k < |perProject| && row in perProject[k];
    var i :| 0 <= i < |perProject[k]| && perProject[k][i] == row;
    CollectProjectsRows(ps, wsNames);
    assert perProject[k] == CollectTasks(ps[k].tasks, ps[k].project.name, wsNames).value;
    CollectTasksSucceeds(ps[k].tasks, ps[k].project.name, wsNames);
    CollectTasksRows(ps[k].tasks, ps[k].project.name, wsNames);
    assert row == NormaliseTask(ps[k].tasks[i], ps[k].project.name, wsNames).value;
  }

  /** The task lists of the projects, in project order. */
  function TaskLists(ps: seq<ProjectTasks>): (r: seq<seq<Task>>)
    ensures |r| == |ps| && forall k :: 0 <= k < |ps| ==> r[k] == ps[k].tasks
  {
    seq(|ps|, k requires 0 <= k < |ps| => ps[k].tasks)
  }

  /** A successful export has one row per task of the workspace's projects. */
  lemma ExportRowCount(workspaces: seq<Workspace>, name: string, projectsOf: string -> seq<ProjectTasks>)
    ensures ExportWorkspace(workspaces, name, projectsOf).Success? ==>
      |ExportWorkspace(workspaces, name, projectsOf).value|
        == SumLengths(TaskLists(projectsOf(FindWorkspace(workspaces, name).value.gid)))
  {
    if ExportWorkspace(workspaces, name, projectsOf).Failure? {
      return;
    }
    ExportConcatenatesProjects(workspaces, name, projectsOf);
    var ps := projectsOf(FindWorkspace(workspaces, name).value.gid);
    var wsNames := WorkspaceDict(workspaces);
    CollectProjectsRows(ps, wsNames);
    var perProject := CollectProjects(ps, wsNames).value;
    assert forall k :: 0 <= k < |ps| ==> |perProject[k]| == |ps[k].tasks|;
    SumLengthsPointwise(perProject, TaskLists(ps));
  }

  /** A project with a single task whose workspace is known yields exactly
      that task's row. */
  lemma SingleTaskProject(p: ProjectTasks, wsNames: map<string, string>)
    requires |p.tasks| == 1 && p.tasks[0].workspace.gid in wsNames
    ensures ProjectRows(p, wsNames) == Success([NormaliseTask(p.tasks[0], p.project.name, wsNames).value])
  {
    assert AllKnown(p.tasks, wsNames);
    CollectTasksRows(p.tasks, p.project.name, wsNames);
    var rows := ProjectRows(p, wsNames).value;
    assert rows == [rows[0]];
  }

  /** Collecting projects of one known task each and concatenating their
      rows gives one row per project, in project order. */
  lemma OneTaskPerProjectFlatten(ps: seq<ProjectTasks>, wsNames: map<string, string>)
    requires forall k :: 0 <= k < |ps| ==> |ps[k].tasks| == 1 && ps[k].tasks[0].workspace.gid in wsNames
    ensures CollectProjects(ps, wsNames).Success?
    ensures var rows := Flatten(CollectProjects(ps, wsNames).value);
      && |rows| == |ps|
      && forall k :: 0 <= k < |ps| ==> rows[k] == NormaliseTask(ps[k].tasks[0], ps[k].project.name, wsNames).value
  {
    forall k | 0 <= k < |ps|
      ensures ProjectRows(ps[k], wsNames) == Success([NormaliseTask(ps[k].tasks[0], ps[k].project.name, wsNames).value])
    {
      SingleTaskProject(ps[k], wsNames);
    }
    CollectProjectsRows(ps, wsNames);
    FlattenSingletons(CollectProjects(ps, wsNames).value);
  }

  /** A workspace whose projects have one known task each exports one row
      per project, in project order. */
  lemma OneTaskPerProjectRows(workspaces: seq<Workspace>, name: string, projectsOf: string -> seq<ProjectTasks>)
    requires FindWorkspace(workspaces, name).Success?
    requires var ps := projectsOf(FindWorkspace(workspaces, name).value.gid);
      forall k :: 0 <= k < |ps| ==> |ps[k].tasks| == 1 && ps[k].tasks[0].workspace.gid in WorkspaceDict(workspaces)
    ensures var ps := projectsOf(FindWorkspace(workspaces, name).value.gid);
      var r := ExportWorkspace(workspaces, name, projectsOf);
      && r.Success? && |r.value| == |ps|
      && forall k :: 0 <= k < |ps| ==>
           r.value[k] == NormaliseTask(ps[k].tasks[0], ps[k].project.name, WorkspaceDict(workspaces)).value
  {
    OneTaskPerProjectFlatten(projectsOf(FindWorkspace(workspaces, name).value.gid), WorkspaceDict(workspaces));
    ExportConcatenatesProjects(workspaces, name, projectsOf);
  }

  /** The fixed root of every output file name. */
  const OutFileNameRoot := "asana_tasks"

  /** `'_'.join([root, workspace, day + '.csv'])`. */
  function FileName(root: string, workspace: string, day: string): (r: string)
    ensures r == root + "_" + workspace + "_" + day + ".csv"
  {
    var parts := [root, workspace, day + ".csv"];
    assert parts[1..][1..] == [day + ".csv"];
    assert Join("_", parts[1..]) == workspace + "_" + (day + ".csv");
    Join("_", parts)
  }

  /** Recovers the workspace name from a file name built with the given root
      and day, or `None` if the name does not have that shape. */
  function WorkspaceOfFileName(fileName: string, root: string, day: string): Option<string> {
    var head := root + "_";
    var tail := "_" + day + ".csv";
    if |fileName| >= |head| + |tail| && fileName[..|head|] == head && fileName[|fileName| - |tail|..] == tail
    then Some(fileName[|head|..|fileName| - |tail|])
    else None
  }

  /** Reading the workspace back from a file name gives the workspace it was
      built from. */
  lemma FileNameRoundTrip(root: string, workspace: string, day: string)
    ensures WorkspaceOfFileName(FileName(root, workspace, day), root, day) == Some(workspace)
  {
    var f := FileName(root, workspace, day);
    var head := root + "_";
    var tail := "_" + day + ".csv";
    assert f == head + workspace + tail;
    assert f[..|head|] == head;
    assert f[|f| - |tail|..] == tail;
    assert f[|head|..|f| - |tail|] == workspace;
  }

  /** Every name read back came from building a file name. */
  lemma WorkspaceOfFileNameSound(fileName: string, root: string, day: string)
    requires WorkspaceOfFileName(fileName, root, day).Some?
    ensures FileName(root, WorkspaceOfFileName(fileName, root, day).value, day) == fileName
  {
  }

  /** Different workspaces exported on the same day get different files. */
  lemma FileNameDistinguishesWorkspaces(root: string, w1: string, w2: string, day: string)
    requires FileName(root, w1, day) == FileName(root, w2, day)
    ensures w1 == w2
  {
    FileNameRoundTrip(root, w1, day);
    FileNameRoundTrip(root, w2, day);
  }

  lemma FileNameExample()
    ensures FileName(OutFileNameRoot, "Acme", "2024-03-01") == "asana_tasks_Acme_2024-03-01.csv"
  {
  }
}
