/**
  The project list: the case-insensitive search filter, the expansion
  toggles of projects and tasks, the selected subtask and the link to a
  subtask's details page.
 */
module TaskList {
  import opened Wrappers
  import opened Strings
  import opened Catalog

  /** A project is kept when its name or its client contains the search term, ignoring case. */
  predicate MatchesSearch(p: Project, term: string) {
    Includes(ToLower(p.name), ToLower(term)) || Includes(ToLower(p.client), ToLower(term))
  }

  /**
    `projects.filter(p => MatchesSearch(p, term))`: every matching project is
    kept as often as it occurs, and no other project is.
   */
  function FilterProjects(projects: seq<Project>, term: string): (r: seq<Project>)
    ensures |r| <= |projects|
    ensures forall p :: p in r ==> p in projects && MatchesSearch(p, term)
    ensures forall p :: p in projects && MatchesSearch(p, term) ==> p in r
    ensures forall q :: multiset(r)[q] == if MatchesSearch(q, term) then multiset(projects)[q] else 0
    decreases |projects|
  {
    if projects == [] then []
    else
      var rest := FilterProjects(projects[1..], term);
      assert projects == [projects[0]] + projects[1..];
      if MatchesSearch(projects[0], term) then [projects[0]] + rest else rest
  }

  /** a is obtained from b by deleting elements, keeping the order of the rest. */
  predicate IsSubsequence<T(==)>(a: seq<T>, b: seq<T>)
    decreases |b|
  {
    if a == [] then true
    else if b == [] then false
    else (a[0] == b[0] && IsSubsequence(a[1..], b[1..])) || IsSubsequence(a, b[1..])
  }

  /** The filter keeps the list's order. */
  lemma {:induction false} FilterIsSubsequence(projects: seq<Project>, term: string)
    ensures IsSubsequence(FilterProjects(projects, term), projects)
    decreases |projects|
  {
    if projects != [] {
      FilterIsSubsequence(projects[1..], term);
      var rest := FilterProjects(projects[1..], term);
      if MatchesSearch(projects[0], term) {
        assert ([projects[0]] + rest)[1..] == rest;
      }
    }
  }

  /** An empty search keeps every project. */
  lemma {:induction false} EmptySearchKeepsAll(projects: seq<Project>)
    ensures FilterProjects(projects, "") == projects
    decreases |projects|
  {
    if projects != [] {
      IncludesEmpty(ToLower(projects[0].name));
      assert ToLower("") == "";
      EmptySearchKeepsAll(projects[1..]);
      assert [projects[0]] + projects[1..] == projects;
    }
  }

  /** Filtering a filtered list again with the same term changes nothing. */
  lemma {:induction false} FilterIdempotent(projects: seq<Project>, term: string)
    ensures FilterProjects(FilterProjects(projects, term), term) == FilterProjects(projects, term)
    decreases |projects|
  {
    if projects != [] {
      FilterIdempotent(projects[1..], term);
      var rest := FilterProjects(projects[1..], term);
      if MatchesSearch(projects[0], term) {
        assert ([projects[0]] + rest)[1..] == rest;
      }
    }
  }

  /** Upper- and lower-case spellings of a search term select the same projects. */
  lemma SearchIgnoresCase(p: Project, term: string)
    ensures MatchesSearch(p, ToLower(term)) == MatchesSearch(p, term)
  {
    ToLowerIdempotent(term);
  }

  /** `!!expanded[id]`: an absent entry reads as collapsed. */
  predicate IsExpanded(expanded: map<string, bool>, id: string) {
    id in expanded && expanded[id]
  }

  /** `{...prev, [id]: !prev[id]}` */
  function Toggle(expanded: map<string, bool>, id: string): (r: map<string, bool>)
    ensures r.Keys == expanded.Keys + {id}
    ensures r[id] == !IsExpanded(expanded, id)
    ensures forall k :: k in expanded && k != id ==> r[k] == expanded[k]
  {
    expanded[id := !IsExpanded(expanded, id)]
  }

  /** Toggling twice restores the state shown, and leaves an explicit entry where there was none. */
  lemma ToggleTwice(expanded: map<string, bool>, id: string)
    ensures Toggle(Toggle(expanded, id), id) == expanded[id := IsExpanded(expanded, id)]
    ensures forall k :: IsExpanded(Toggle(Toggle(expanded, id), id), k) == IsExpanded(expanded, k)
  {
  }

  /** The route of a subtask's details page. */
  function SubtaskLink(projectId: string, taskId: string, subtaskId: string): string {
    "/project/" + projectId + "/task/" + taskId + "/subtask/" + subtaskId
  }

  /**
    Matches a path against /project/:projectId/task/:taskId/subtask/:subtaskId.
    The router configuration is not part of this model; the pattern is inferred
    from the link template and the parameter names the details page reads.
   */
  function MatchSubtaskRoute(path: string): Option<(string, string, string)> {
    var segments := Split(path, '/');
    if |segments| == 7 && segments[0] == "" && segments[1] == "project" && segments[3] == "task"
       && segments[5] == "subtask"
    then Some((segments[2], segments[4], segments[6]))
    else None
  }

  /** The link of a subtask leads back to its three ids when they hold no '/'. */
  lemma SubtaskLinkRoundTrip(projectId: string, taskId: string, subtaskId: string)
    requires Free(projectId, '/') && Free(taskId, '/') && Free(subtaskId, '/')
    ensures MatchSubtaskRoute(SubtaskLink(projectId, taskId, subtaskId)) == Some((projectId, taskId, subtaskId))
  {
    var parts := ["", "project", projectId, "task", taskId, "subtask", subtaskId];
    assert Join(parts[6..], '/') == subtaskId;
    assert Join(parts[5..], '/') == "subtask/" + subtaskId;
    assert Join(parts[4..], '/') == taskId + "/subtask/" + subtaskId;
    assert Join(parts[3..], '/') == "task/" + taskId + "/subtask/" + subtaskId;
    assert Join(parts[2..], '/') == projectId + "/task/" + taskId + "/subtask/" + subtaskId;
    assert Join(parts[1..], '/') == "project/" + projectId + "/task/" + taskId + "/subtask/" + subtaskId;
    assert Join(parts, '/') == SubtaskLink(projectId, taskId, subtaskId);
    SplitJoin(parts, '/');
  }

  /** The list component's state. */
  class TaskListView {
    var searchTerm: string
    var expandedProjects: map<string, bool>
    var expandedTasks: map<string, bool>
    var selectedSubtaskId: Option<string>

    constructor ()
      ensures searchTerm == "" && expandedProjects == map[] && expandedTasks == map[]
      ensures selectedSubtaskId == None
    {
      searchTerm := "";
      expandedProjects := map[];
      expandedTasks := map[];
      selectedSubtaskId := None;
    }

    /** The projects on screen. */
    function FilteredProjects(): seq<Project>
      reads this
    {
      FilterProjects(SampleProjects, searchTerm)
    }

    method SetSearchTerm(term: string)
      modifies this
      ensures searchTerm == term
      ensures expandedProjects == old(expandedProjects) && expandedTasks == old(expandedTasks)
      ensures selectedSubtaskId == old(selectedSubtaskId)
    {
      searchTerm := term;
    }

    method ToggleProject(projectId: string)
      modifies this
      ensures expandedProjects == Toggle(old(expandedProjects), projectId)
      ensures expandedTasks == old(expandedTasks) && searchTerm == old(searchTerm)
      ensures selectedSubtaskId == old(selectedSubtaskId)
    {
      expandedProjects := expandedProjects[projectId := !(projectId in expandedProjects && expandedProjects[projectId])];
    }

    method ToggleTask(taskId: string)
      modifies this
      ensures expandedTasks == Toggle(old(expandedTasks), taskId)
      ensures expandedProjects == old(expandedProjects) && searchTerm == old(searchTerm)
      ensures selectedSubtaskId == old(selectedSubtaskId)
    {
      expandedTasks := expandedTasks[taskId := !(taskId in expandedTasks && expandedTasks[taskId])];
    }

    method SelectSubtask(subtaskId: string)
      modifies this
      ensures selectedSubtaskId == Some(subtaskId)
      ensures expandedProjects == old(expandedProjects) && expandedTasks == old(expandedTasks)
      ensures searchTerm == old(searchTerm)
    {
      selectedSubtaskId := Some(subtaskId);
    }
  }
}
