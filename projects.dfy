/**
 * The in-memory project list (src/mocks/projects.ts over the store of
 * src/mocks/project-store.ts): loading once, lookup by id, prepending a
 * draft, merging updates in place, saving, deleting and upserting a
 * project loaded from a file.
 *
 * The persistence API is not modelled: its outcome for each call is a
 * parameter (`Ok`/`None` for success, an error otherwise), and what a call
 * sends to it is an out-parameter.  The clock is a parameter.
 */
module Projects {
  import opened Wrappers
  import opened Chars
  import opened ProjectTypes

  /** `findIndex(p => p.id === id)`: the first position with that id, or -1. */
  function FindIndex(projects: seq<Project>, id: string): (r: int)
    ensures -1 <= r < |projects|
    ensures r == -1 <==> forall j :: 0 <= j < |projects| ==> projects[j].id != id
    ensures r >= 0 ==> projects[r].id == id && forall j :: 0 <= j < r ==> projects[j].id != id
  {
    if |projects| == 0 then -1
    else if projects[0].id == id then 0
    else
      var k := FindIndex(projects[1..], id);
      if k == -1 then -1 else k + 1
  }

  /** A position holding the id, with none before it, is what `FindIndex`
   *  finds. */
  lemma FirstMatch(projects: seq<Project>, id: string, i: nat)
    requires i < |projects| && projects[i].id == id
    requires forall j :: 0 <= j < i ==> projects[j].id != id
    ensures FindIndex(projects, id) == i
  {
  }

  /** `Partial<Project>`: each property is present (`Some`) or absent. */
  datatype ProjectUpdate = ProjectUpdate(
    id: Option<string>,
    title: Option<string>,
    code: Option<string>,
    canvasImage: Option<string>,
    canvasSize: Option<CanvasSize>,
    createdAt: Option<string>,
    lastModified: Option<string>,
    status: Option<Status>,
    hasUnsavedChanges: Option<bool>,
    filePath: Option<string>,
    brushes: Option<seq<Brush>>)

  const NoChanges := ProjectUpdate(None, None, None, None, None, None, None, None, None, None, None)

  function Pick<T>(update: Option<T>, current: T): T
  {
    if update.Some? then update.value else current
  }

  function PickOptional<T>(update: Option<T>, current: Option<T>): Option<T>
  {
    if update.Some? then update else current
  }

  /** `{ ...project, ...updates }`: each property the update carries
   *  replaces the project's. */
  function Merge(p: Project, u: ProjectUpdate): Project
  {
    Project(
      Pick(u.id, p.id),
      Pick(u.title, p.title),
      PickOptional(u.code, p.code),
      PickOptional(u.canvasImage, p.canvasImage),
      Pick(u.canvasSize, p.canvasSize),
      Pick(u.createdAt, p.createdAt),
      Pick(u.lastModified, p.lastModified),
      Pick(u.status, p.status),
      PickOptional(u.hasUnsavedChanges, p.hasUnsavedChanges),
      PickOptional(u.filePath, p.filePath),
      PickOptional(u.brushes, p.brushes))
  }

  /** A whole project used as an update: all its required properties and
   *  those optional ones it has. */
  function AsUpdate(q: Project): ProjectUpdate
  {
    ProjectUpdate(Some(q.id), Some(q.title), q.code, q.canvasImage, Some(q.canvasSize), Some(q.createdAt),
                  Some(q.lastModified), Some(q.status), q.hasUnsavedChanges, q.filePath, q.brushes)
  }

  /** An empty update changes nothing. */
  lemma MergeNothing(p: Project)
    ensures Merge(p, NoChanges) == p
  {
  }

  /** Merging a whole project takes all of its properties, keeping only
   *  those optional properties of the old entry that it lacks. */
  lemma MergeProject(p: Project, q: Project)
    ensures var r := Merge(p, AsUpdate(q));
      && r.(code := q.code, canvasImage := q.canvasImage, hasUnsavedChanges := q.hasUnsavedChanges,
            filePath := q.filePath, brushes := q.brushes) == q
      && r.code == (if q.code.Some? then q.code else p.code)
      && r.canvasImage == (if q.canvasImage.Some? then q.canvasImage else p.canvasImage)
      && r.hasUnsavedChanges == (if q.hasUnsavedChanges.Some? then q.hasUnsavedChanges else p.hasUnsavedChanges)
      && r.filePath == (if q.filePath.Some? then q.filePath else p.filePath)
      && r.brushes == (if q.brushes.Some? then q.brushes else p.brushes)
  {
  }

  /** The brushes that are not marked discarded, in order. */
  function KeepBrushes(brushes: seq<Brush>): (r: seq<Brush>)
    ensures forall b :: b in r <==> b in brushes && !b.discarded
    ensures |brushes| == 1 ==> r == if brushes[0].discarded then [] else brushes
    ensures |r| <= |brushes|
  {
    if |brushes| == 0 then []
    else if brushes[0].discarded then KeepBrushes(brushes[1..])
    else [brushes[0]] + KeepBrushes(brushes[1..])
  }

  /** Each kept brush appears as often as in the input; discarded ones not at all. */
  lemma {:induction false} KeepBrushesCounts(brushes: seq<Brush>)
    ensures forall b :: multiset(KeepBrushes(brushes))[b] == if b.discarded then 0 else multiset(brushes)[b]
    decreases |brushes|
  {
    if brushes != [] {
      KeepBrushesCounts(brushes[1..]);
      assert brushes == [brushes[0]] + brushes[1..];
    }
  }

  /** Filtering two lists in a row filters the first, then the second. */
  lemma {:induction false} KeepBrushesAppend(xs: seq<Brush>, ys: seq<Brush>)
    ensures KeepBrushes(xs + ys) == KeepBrushes(xs) + KeepBrushes(ys)
    decreases |xs|
  {
    if xs == [] {
      assert xs + ys == ys;
    } else {
      assert (xs + ys)[0] == xs[0] && (xs + ys)[1..] == xs[1..] + ys;
      KeepBrushesAppend(xs[1..], ys);
    }
  }

  /** The copy of a project that `saveProject` sends. */
  function ToSave(project: Project, now: string): (r: Project)
  {
    var copy := project.(status := Saved, hasUnsavedChanges := Some(false), lastModified := now);
    if copy.brushes.Some? then copy.(brushes := Some(KeepBrushes(copy.brushes.value))) else copy
  }

  /** The copy sent is marked saved, without unsaved changes and with the
   *  new modification time; it keeps the non-discarded brushes and nothing
   *  else about it changes. */
  lemma ToSaveMarksSaved(project: Project, now: string)
    ensures var r := ToSave(project, now);
      && r.status == Saved && r.hasUnsavedChanges == Some(false) && r.lastModified == now
      && r.brushes.Some? == project.brushes.Some?
      && (r.brushes.Some? ==> forall b :: b in r.brushes.value <==> b in project.brushes.value && !b.discarded)
      && r.(status := project.status, hasUnsavedChanges := project.hasUnsavedChanges,
            lastModified := project.lastModified, brushes := project.brushes) == project
  {
  }

  function NotFoundMessage(id: string): string
  {
    "Project with id " + id + " not found for update."
  }

  class ProjectStore {
    var projects: seq<Project>
    var isLoading: bool
    var isInitialized: bool

    /** The store as first created (src/mocks/project-store.ts:4-7,
     *  src/mocks/projects.ts:5). */
    constructor ()
      ensures projects == [] && isLoading && !isInitialized
    {
      projects := [];
      isLoading := true;
      isInitialized := false;
    }

    /** `initProjects`: `listed` is what the API listed, or `None` when the
     *  listing failed. */
    method InitProjects(listed: Option<seq<Project>>)
      modifies this
      ensures isInitialized
      ensures old(isInitialized) ==> projects == old(projects) && isLoading == old(isLoading)
      ensures !old(isInitialized) ==> !isLoading && projects == listed.GetOr([])
    {
      if isInitialized {
        return;
      }
      isLoading := true;
      if listed.Some? {
        projects := listed.value;
      } else {
        projects := [];
      }
      isLoading := false;
      isInitialized := true;
    }

    /** `getProject`: the first entry with the id, if any. */
    function GetProject(id: string): (r: Option<Project>)
      reads this
      ensures r.None? <==> forall j :: 0 <= j < |projects| ==> projects[j].id != id
      ensures r.Some? ==> r.value.id == id && r.value == projects[FindIndex(projects, id)]
    {
      var i := FindIndex(projects, id);
      if i == -1 then None else Some(projects[i])
    }

    /** `addProject`: `clock` is `Date.now()`, whose decimal text becomes
     *  the id. */
    method AddProject(data: Project, clock: nat) returns (p: Project)
      modifies this
      ensures p == data.(id := NatToString(clock), status := Draft, hasUnsavedChanges := Some(true))
      ensures projects == [p] + old(projects)
      ensures GetProject(p.id) == Some(p)
      ensures isLoading == old(isLoading) && isInitialized == old(isInitialized)
    {
      p := data.(id := NatToString(clock), status := Draft, hasUnsavedChanges := Some(true));
      projects := [p] + projects;
      FirstMatch(projects, p.id, 0);
    }

    /** `updateProject`. */
    method UpdateProject(id: string, updates: ProjectUpdate) returns (r: Result<Project, string>)
      modifies this
      ensures var i := FindIndex(old(projects), id);
        && (i == -1 ==> r == Err(NotFoundMessage(id)) && projects == old(projects))
        && (i >= 0 ==> r == Ok(Merge(old(projects)[i], updates)) && projects == old(projects)[i := r.value])
      ensures r.Ok? && updates.id.None? ==> GetProject(id) == Some(r.value)
      ensures isLoading == old(isLoading) && isInitialized == old(isInitialized)
    {
      var index := FindIndex(projects, id);
      if index == -1 {
        return Err(NotFoundMessage(id));
      }
      var updated := Merge(projects[index], updates);
      projects := projects[index := updated];
      r := Ok(updated);
      if updates.id.None? {
        FirstMatch(projects, id, index);
      }
    }

    /** `saveProject`: `now` is the current time as ISO text and `response`
     *  is what the API returned for the copy `sent`, or its error. */
    method SaveProject(project: Project, now: string, response: Result<Project, string>)
      returns (sent: Project, r: Result<Project, string>)
      modifies this
      ensures sent == ToSave(project, now)
      ensures response.Err? ==> r == Err(response.error) && projects == old(projects)
      ensures response.Ok? ==>
        var i := FindIndex(old(projects), project.id);
        && (i == -1 ==> r == Err(NotFoundMessage(project.id)) && projects == old(projects))
        && (i >= 0 ==> r == response && projects == old(projects)[i := Merge(old(projects)[i], AsUpdate(response.value))])
      ensures isLoading == old(isLoading) && isInitialized == old(isInitialized)
    {
      sent := project.(status := Saved, hasUnsavedChanges := Some(false), lastModified := now);
      if sent.brushes.Some? {
        sent := sent.(brushes := Some(KeepBrushes(sent.brushes.value)));
      }
      if response.Err? {
        return sent, Err(response.error);
      }
      var updated := UpdateProject(project.id, AsUpdate(response.value));
      if updated.Err? {
        return sent, Err(updated.error);
      }
      r := response;
    }

    /** `deleteProject`: `failure` is the API's error, if it failed;
     *  `request` is the id and file path sent to it, if it was called. */
    method DeleteProject(id: string, failure: Option<string>)
      returns (request: Option<(string, Option<string>)>, r: Result<(), string>)
      modifies this
      ensures var i := FindIndex(old(projects), id);
        && (i == -1 ==> request == None && r == Ok(()) && projects == old(projects))
        && (i >= 0 ==> request == Some((id, old(projects)[i].filePath)))
        && (i >= 0 && failure.Some? ==> r == Err(failure.value) && projects == old(projects))
        && (i >= 0 && failure.None? ==> r == Ok(()) && projects == old(projects)[..i] + old(projects)[i + 1..])
      ensures isLoading == old(isLoading) && isInitialized == old(isInitialized)
    {
      var projectToDelete := GetProject(id);
      if projectToDelete.None? {
        return None, Ok(());
      }
      request := Some((id, projectToDelete.value.filePath));
      if failure.Some? {
        return request, Err(failure.value);
      }
      var index := FindIndex(projects, id);
      if index != -1 {
        projects := projects[..index] + projects[index + 1..];
      }
      r := Ok(());
    }

    /** `addLoadedProject` (the browser's local-storage copy is not
     *  modelled). */
    method AddLoadedProject(project: Project)
      modifies this
      ensures var i := FindIndex(old(projects), project.id);
        && (i >= 0 ==> projects == old(projects)[i := project])
        && (i == -1 ==> projects == [project] + old(projects))
      ensures GetProject(project.id) == Some(project)
      ensures isLoading == old(isLoading) && isInitialized == old(isInitialized)
    {
      var existingIndex := FindIndex(projects, project.id);
      if existingIndex != -1 {
        projects := projects[existingIndex := project];
      } else {
        projects := [project] + projects;
      }
      FirstMatch(projects, project.id, if existingIndex == -1 then 0 else existingIndex);
    }
  }

  /** Deleting an entry after the API succeeded removes that one entry and
   *  keeps every other in order. */
  lemma RemovedEntry(before: seq<Project>, i: nat)
    requires i < |before|
    ensures var after := before[..i] + before[i + 1..];
      && |after| == |before| - 1
      && multiset(after) + multiset{before[i]} == multiset(before)
  {
    var after := before[..i] + before[i + 1..];
    assert before == before[..i] + [before[i]] + before[i + 1..];
  }
}
