/** The records the exporter reads from the project-management service and
    the flat row it writes per task. */
module Records {
  import opened Wrappers

  /** A compact reference to another remote object: only its gid is read. */
  datatype Ref = Ref(gid: string)

  /** A workspace as listed for the authenticated user. */
  datatype Workspace = Workspace(gid: string, name: string)

  /** A project of the exported workspace. */
  datatype Project = Project(gid: string, name: string)

  /** A task with the fields requested through `opt_fields`. The service may
      send `null` for the optional ones. `notes` is always read with `len`
      before any null handling, so it is a plain string here; `workspace` is
      always dereferenced for the workspace-name lookup. `parent` is carried
      as the opaque text the CSV writer renders for it. */
  datatype Task = Task(
    gid: string,
    name: string,
    workspace: Ref,
    dueOn: Option<string>,
    createdAt: Option<string>,
    modifiedAt: Option<string>,
    completed: bool,
    completedAt: Option<string>,
    assignee: Option<Ref>,
    assigneeStatus: Option<string>,
    parent: Option<string>,
    notes: string)

  /** One CSV cell: text, or the `completed` flag, which the row keeps as a
      boolean. */
  datatype Cell = Text(text: string) | Flag(flag: bool)

  /** One output row; a normalised row has one cell per header column. */
  type Row = seq<Cell>

  /** Why an export run aborts. */
  datatype Error =
    | WorkspaceNotFound(name: string)    // no workspace carries the requested name
    | UnknownWorkspaceGid(gid: string)   // a task names a workspace missing from the gid map

  /** The CSV header, one name per row column, in row order. */
  const Header: seq<string> := ["Task", "Project", "Workspace", "DueDate", "CreatedAt",
    "ModifiedAt", "Completed", "CompletedAt", "Assignee", "AssigneeStatus",
    "Parent", "Notes", "Taskgid"]

  /** Column positions, named after the header entry at that position. */
  const TaskCol := 0
  const ProjectCol := 1
  const WorkspaceCol := 2
  const DueDateCol := 3
  const CreatedAtCol := 4
  const ModifiedAtCol := 5
  const CompletedCol := 6
  const CompletedAtCol := 7
  const AssigneeCol := 8
  const AssigneeStatusCol := 9
  const ParentCol := 10
  const NotesCol := 11
  const TaskGidCol := 12
}
