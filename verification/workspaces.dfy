/** The workspace gid-to-name map and the lookup of the requested workspace. */
module Workspaces {
  import opened Wrappers
  import opened Records

  /** No later workspace in `ws` repeats the gid at position `i`. */
  ghost predicate LastWithGid(ws: seq<Workspace>, i: int)
    requires 0 <= i < |ws|
  {
    forall j :: i < j < |ws| ==> ws[j].gid != ws[i].gid
  }

  /** The dictionary built by assigning `dict[w.gid] = w.name` for each
      workspace in list order, so a later duplicate gid overwrites. */
  function WorkspaceDict(ws: seq<Workspace>): (m: map<string, string>)
    ensures m.Keys == set w | w in ws :: w.gid
    ensures forall i :: 0 <= i < |ws| && LastWithGid(ws, i) ==> m[ws[i].gid] == ws[i].name
    decreases |ws|
  {
    if |ws| == 0 then map[]
    else
      var prefix := ws[..|ws| - 1];
      var last := ws[|ws| - 1];
      assert ws == prefix + [last];
      assert (set w | w in ws :: w.gid) == (set w | w in prefix :: w.gid) + {last.gid};
      assert forall i :: 0 <= i < |prefix| && LastWithGid(ws, i) ==>
        LastWithGid(prefix, i) && ws[i] == prefix[i] && ws[i].gid != last.gid;
      WorkspaceDict(prefix)[last.gid := last.name]
  }

  /** The value the dictionary holds for the gid at position `i` is the name
      of the last workspace with that gid, at or after `i`. */
  lemma {:induction false} WorkspaceDictValues(ws: seq<Workspace>, i: nat)
    requires i < |ws|
    ensures ws[i].gid in WorkspaceDict(ws)
    ensures exists j :: (i <= j < |ws| && ws[j].gid == ws[i].gid && LastWithGid(ws, j)
                         && WorkspaceDict(ws)[ws[i].gid] == ws[j].name)
  {
    var j := i;
    while !LastWithGid(ws, j)
      invariant i <= j < |ws| && ws[j].gid == ws[i].gid
      decreases |ws| - j
    {
      var later :| j < later < |ws| && ws[later].gid == ws[j].gid;
      j := later;
    }
  }

  /** The first workspace whose name equals `name` exactly; like `next` on an
      empty generator, the lookup fails when none does. */
  function FindWorkspace(ws: seq<Workspace>, name: string): (r: Result<Workspace, Error>)
    ensures r.Failure? <==> forall i :: 0 <= i < |ws| ==> ws[i].name != name
    ensures r.Failure? ==> r.error == WorkspaceNotFound(name)
    ensures r.Success? ==> exists i :: (0 <= i < |ws| && ws[i] == r.value && ws[i].name == name
                                        && forall j :: 0 <= j < i ==> ws[j].name != name)
    decreases |ws|
  {
    if |ws| == 0 then Failure(WorkspaceNotFound(name))
    else if ws[0].name == name then Success(ws[0])
    else
      var r := FindWorkspace(ws[1..], name);
      assert forall i :: 1 <= i < |ws| ==> ws[i] == ws[1..][i - 1];
      r
  }

  /** The workspace found by name is a key of the dictionary built from the
      same list, so a task that names the found workspace's gid never fails
      the workspace-name lookup. */
  lemma FoundWorkspaceIsKnown(ws: seq<Workspace>, name: string)
    requires FindWorkspace(ws, name).Success?
    ensures FindWorkspace(ws, name).value.gid in WorkspaceDict(ws)
  {
  }
}
