/** The per-task body of the project task loop, as a pure function from a
    task record to a 13-cell row. */
module Normalize {
  import opened Wrappers
  import opened PyStr
  import opened Records

  /** Notes strictly longer than this are truncated. */
  const NotesLimit: nat := 80
  /** How many leading characters a truncated note keeps (one less than the limit). */
  const NotesKeep: nat := 79

  /** `notes[:79]` when the note has more than 80 characters, else the note itself. */
  function TruncateNotes(notes: string): (r: string)
    ensures |notes| > NotesLimit ==> |r| == NotesKeep && r == notes[..NotesKeep]
    ensures |notes| <= NotesLimit ==> r == notes
  {
    if |notes| > NotesLimit then Slice(notes, 0, NotesKeep) else notes
  }

  /** A truncated note is a prefix of the original no longer than the limit,
      so truncating again changes nothing. */
  lemma TruncateNotesIsBoundedPrefix(notes: string)
    ensures TruncateNotes(notes) <= notes
    ensures |TruncateNotes(notes)| <= NotesLimit
    ensures TruncateNotes(TruncateNotes(notes)) == TruncateNotes(notes)
  {
  }

  /** `t[0:10] + ' ' + t[11:16]`: positional, so a short string yields a
      shorter result rather than an error, and the space is always there. */
  function FormatTimestamp(t: string): (r: string)
    ensures |r| == Min(|t|, 10) + 1 + (if |t| > 11 then Min(|t|, 16) - 11 else 0)
    ensures forall i {:trigger r[i]} :: 0 <= i < Min(|t|, 10) ==> r[i] == t[i]
    ensures r[Min(|t|, 10)] == ' '
    ensures forall j :: Min(|t|, 10) < j < |r| ==> r[j] == t[11 + (j - Min(|t|, 10) - 1)]
    ensures |t| >= 16 ==> |r| == 16 && r[..10] == t[..10] && r[10] == ' ' && r[11..] == t[11..16]
  {
    Slice(t, 0, 10) + " " + Slice(t, 11, 16)
  }

  /** An ISO-8601 stamp `YYYY-MM-DDTHH:MM...` keeps its date and hour:minute,
      joined by a space; the separator, seconds and zone are dropped. */
  lemma FormatIsoTimestamp(date: string, sep: char, hourMinute: string, rest: string)
    requires |date| == 10 && |hourMinute| == 5
    ensures FormatTimestamp(date + [sep] + hourMinute + rest) == date + " " + hourMinute
  {
  }

  lemma FormatTimestampExample()
    ensures FormatTimestamp("2023-05-04T09:30:00.000Z") == "2023-05-04 09:30"
  {
  }

  /** A timestamp field: reformatted when present, `None` when absent. */
  function FormatOptTimestamp(t: Option<string>): (r: Option<string>)
    ensures r.None? <==> t.None?
    ensures t.Some? ==> r.value == FormatTimestamp(t.value)
  {
    match t
    case Some(s) => Some(FormatTimestamp(s))
    case None => None
  }

  /** Lifts an optional text into an optional cell. */
  function TextCell(s: Option<string>): (c: Option<Cell>)
    ensures c.GetOr(Text("")) == OrBlank(s)
  {
    match s
    case Some(v) => Some(Text(v))
    case None => None
  }

  /** The final pass over the row: every `None` becomes the empty string and
      every other value, including a `false` flag, is kept. */
  function BlankNones(raw: seq<Option<Cell>>): (r: Row)
    ensures |r| == |raw|
    ensures forall i :: 0 <= i < |raw| && raw[i].None? ==> r[i] == Text("")
    ensures forall i :: 0 <= i < |raw| && raw[i].Some? ==> r[i] == raw[i].value
  {
    seq(|raw|, i requires 0 <= i < |raw| => raw[i].GetOr(Text("")))
  }

  /** The row as assembled before the `None` pass, in header order. */
  function RawRow(task: Task, projectName: string, workspaceName: string): seq<Option<Cell>> {
    var assignee := if task.assignee.Some? then task.assignee.value.gid else "";
    [ Some(Text(task.name)), Some(Text(projectName)), Some(Text(workspaceName)),
      TextCell(task.dueOn), TextCell(FormatOptTimestamp(task.createdAt)),
      TextCell(FormatOptTimestamp(task.modifiedAt)), Some(Flag(task.completed)),
      TextCell(FormatOptTimestamp(task.completedAt)), Some(Text(assignee)),
      TextCell(task.assigneeStatus), TextCell(task.parent),
      Some(Text(TruncateNotes(task.notes))), Some(Text(task.gid)) ]
  }

  /** The text a present optional field renders as, or `""` when absent. */
  function OrBlank(s: Option<string>): Cell {
    Text(s.GetOr(""))
  }

  /** Normalises one task of a project. The workspace name lookup comes
      first and aborts on an unknown gid. */
  function NormaliseTask(task: Task, projectName: string, wsNames: map<string, string>): (r: Result<Row, Error>)
    ensures r.Failure? <==> task.workspace.gid !in wsNames
    ensures r.Failure? ==> r.error == UnknownWorkspaceGid(task.workspace.gid)
    ensures r.Success? ==> |r.value| == |Header|
  {
    if task.workspace.gid !in wsNames then
      Failure(UnknownWorkspaceGid(task.workspace.gid))
    else
      Success(BlankNones(RawRow(task, projectName, wsNames[task.workspace.gid])))
  }

  /** What each column of a normalised row holds, in header order. */
  lemma NormaliseTaskColumns(task: Task, projectName: string, wsNames: map<string, string>)
    requires task.workspace.gid in wsNames
    ensures var row := NormaliseTask(task, projectName, wsNames).value;
      && row[TaskCol] == Text(task.name)
      && row[ProjectCol] == Text(projectName)
      && row[WorkspaceCol] == Text(wsNames[task.workspace.gid])
      && row[DueDateCol] == OrBlank(task.dueOn)
      && row[CreatedAtCol] == OrBlank(FormatOptTimestamp(task.createdAt))
      && row[ModifiedAtCol] == OrBlank(FormatOptTimestamp(task.modifiedAt))
      && row[CompletedCol] == Flag(task.completed)
      && row[CompletedAtCol] == OrBlank(FormatOptTimestamp(task.completedAt))
      && row[AssigneeCol] == Text(if task.assignee.Some? then task.assignee.value.gid else "")
      && row[AssigneeStatusCol] == OrBlank(task.assigneeStatus)
      && row[ParentCol] == OrBlank(task.parent)
      && row[NotesCol] == Text(TruncateNotes(task.notes))
      && row[TaskGidCol] == Text(task.gid)
  {
  }

  /** Every field the task lacks is an empty text cell in the row. */
  lemma AbsentFieldsAreBlank(task: Task, projectName: string, wsNames: map<string, string>)
    requires task.workspace.gid in wsNames
    ensures var row := NormaliseTask(task, projectName, wsNames).value;
      && (task.dueOn.None? ==> row[DueDateCol] == Text(""))
      && (task.createdAt.None? ==> row[CreatedAtCol] == Text(""))
      && (task.modifiedAt.None? ==> row[ModifiedAtCol] == Text(""))
      && (task.completedAt.None? ==> row[CompletedAtCol] == Text(""))
      && (task.assignee.None? ==> row[AssigneeCol] == Text(""))
      && (task.assigneeStatus.None? ==> row[AssigneeStatusCol] == Text(""))
      && (task.parent.None? ==> row[ParentCol] == Text(""))
  {
  }

  /** Every field the task has reaches its column unchanged, except for the
      reformatted timestamps and the truncated notes. */
  lemma PresentFieldsPassThrough(task: Task, projectName: string, wsNames: map<string, string>)
    requires task.workspace.gid in wsNames
    ensures var row := NormaliseTask(task, projectName, wsNames).value;
      && (task.dueOn.Some? ==> row[DueDateCol] == Text(task.dueOn.value))
      && (task.createdAt.Some? ==> row[CreatedAtCol] == Text(FormatTimestamp(task.createdAt.value)))
      && (task.modifiedAt.Some? ==> row[ModifiedAtCol] == Text(FormatTimestamp(task.modifiedAt.value)))
      && (task.completedAt.Some? ==> row[CompletedAtCol] == Text(FormatTimestamp(task.completedAt.value)))
      && (task.assignee.Some? ==> row[AssigneeCol] == Text(task.assignee.value.gid))
      && (task.assigneeStatus.Some? ==> row[AssigneeStatusCol] == Text(task.assigneeStatus.value))
      && (task.parent.Some? ==> row[ParentCol] == Text(task.parent.value))
  {
  }

  /** The header names each column the row fills. */
  lemma HeaderNamesColumns()
    ensures |Header| == 13
    ensures Header[TaskCol] == "Task" && Header[ProjectCol] == "Project"
    ensures Header[WorkspaceCol] == "Workspace" && Header[DueDateCol] == "DueDate"
    ensures Header[CreatedAtCol] == "CreatedAt" && Header[ModifiedAtCol] == "ModifiedAt"
    ensures Header[CompletedCol] == "Completed" && Header[CompletedAtCol] == "CompletedAt"
    ensures Header[AssigneeCol] == "Assignee" && Header[AssigneeStatusCol] == "AssigneeStatus"
    ensures Header[ParentCol] == "Parent" && Header[NotesCol] == "Notes"
    ensures Header[TaskGidCol] == "Taskgid"
  {
  }
}
