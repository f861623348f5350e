/**
  The details page: the effect that looks the URL's project, task and
  subtask ids up in the sample data, one level inside the other, and only
  writes a level when the one above it was found.
 */
module TaskDetailsPage {
  import opened Wrappers
  import opened Catalog

  /** The route parameters; a missing one is undefined. */
  datatype Params = Params(projectId: Option<string>, taskId: Option<string>, subtaskId: Option<string>)

  /** The page's three state variables. */
  datatype Selection = Selection(project: Option<Project>, task: Option<Task>, subtask: Option<SubTask>)

  const NoSelection: Selection := Selection(None, None, None)

  function FindProject(projects: seq<Project>, id: Option<string>): Option<Project> {
    Find(projects, (p: Project) => Some(p.id) == id)
  }

  function FindTask(tasks: seq<Task>, id: Option<string>): Option<Task> {
    Find(tasks, (t: Task) => Some(t.id) == id)
  }

  function FindSubtask(subtasks: seq<SubTask>, id: Option<string>): Option<SubTask> {
    Find(subtasks, (s: SubTask) => Some(s.id) == id)
  }

  /** The URL-parameter effect, as a function of the previous state. */
  function Resolve(prev: Selection, params: Params, projects: seq<Project>): Selection {
    var foundProject := FindProject(projects, params.projectId);
    if foundProject.None? then
      Selection(None, prev.task, prev.subtask)
    else
      var foundTask := FindTask(foundProject.value.tasks, params.taskId);
      if foundTask.None? then
        Selection(foundProject, None, prev.subtask)
      else
        Selection(foundProject, foundTask, FindSubtask(foundTask.value.subtasks, params.subtaskId))
  }

  /** The details view is shown only when all three are present. */
  predicate Shown(sel: Selection) {
    sel.project.Some? && sel.task.Some? && sel.subtask.Some?
  }

  /** Each level that is present lies inside the level above it. */
  predicate Nested(sel: Selection) {
    && (sel.task.Some? ==> sel.project.Some? && sel.task.value in sel.project.value.tasks)
    && (sel.subtask.Some? ==> sel.task.Some? && sel.subtask.value in sel.task.value.subtasks)
  }

  /** The project is the first with the requested id; a missed project keeps the old task and subtask, a missed task the old subtask. */
  lemma ResolveLevels(prev: Selection, params: Params, projects: seq<Project>)
    ensures var r := Resolve(prev, params, projects);
      && r.project == FindProject(projects, params.projectId)
      && (r.project.Some? ==> r.project.value in projects && Some(r.project.value.id) == params.projectId)
      && (r.project.None? <==> forall p :: p in projects ==> Some(p.id) != params.projectId)
      && (r.project.None? ==> r.task == prev.task && r.subtask == prev.subtask)
      && (r.project.Some? && r.task.None? ==> r.subtask == prev.subtask)
  {
    FindFirstMatch(projects, (p: Project) => Some(p.id) == params.projectId);
  }

  /** Tasks are looked up only in the found project, subtasks only in the found task. */
  lemma ResolveLooksInside(prev: Selection, params: Params, projects: seq<Project>)
    ensures var r := Resolve(prev, params, projects);
      && (r.project.Some? ==> r.task == FindTask(r.project.value.tasks, params.taskId))
      && (r.project.Some? && r.task.Some? ==> r.subtask == FindSubtask(r.task.value.subtasks, params.subtaskId))
  {
  }

  /** From the initial state, one lookup yields a nested selection. */
  lemma ResolveFromNothingIsNested(params: Params, projects: seq<Project>)
    ensures Nested(Resolve(NoSelection, params, projects))
  {
    var r := Resolve(NoSelection, params, projects);
    if r.project.Some? {
      FindFirstMatch(projects, (p: Project) => Some(p.id) == params.projectId);
      FindFirstMatch(r.project.value.tasks, (t: Task) => Some(t.id) == params.taskId);
      if r.task.Some? {
        FindFirstMatch(r.task.value.subtasks, (s: SubTask) => Some(s.id) == params.subtaskId);
      }
    }
  }

  /**
    Whatever stale values the previous state holds, when the details view is
    shown its project, task and subtask all come from the current ids, each
    inside the one above.
   */
  lemma ShownSelectionIsCurrent(prev: Selection, params: Params, projects: seq<Project>)
    requires Shown(Resolve(prev, params, projects))
    ensures var r := Resolve(prev, params, projects);
      && r.project == FindProject(projects, params.projectId)
      && r.task == FindTask(r.project.value.tasks, params.taskId)
      && r.subtask == FindSubtask(r.task.value.subtasks, params.subtaskId)
      && Nested(r)
  {
    var r := Resolve(prev, params, projects);
    FindFirstMatch(r.project.value.tasks, (t: Task) => Some(t.id) == params.taskId);
    FindFirstMatch(r.task.value.subtasks, (s: SubTask) => Some(s.id) == params.subtaskId);
  }

  /** A second lookup with an unknown project id keeps the earlier task and subtask: stale state survives. */
  lemma StaleTaskSurvives(t: Task, s: SubTask, projects: seq<Project>, id: string)
    requires forall p :: p in projects ==> p.id != id
    ensures Resolve(Selection(None, Some(t), Some(s)), Params(Some(id), None, None), projects)
            == Selection(None, Some(t), Some(s))
    ensures !Nested(Resolve(Selection(None, Some(t), Some(s)), Params(Some(id), None, None), projects))
  {
    FindFirstMatch(projects, (p: Project) => Some(p.id) == Some(id));
  }

  /** The page component's lookup state. */
  class Page {
    var project: Option<Project>
    var task: Option<Task>
    var subtask: Option<SubTask>

    constructor ()
      ensures project == None && task == None && subtask == None
    {
      project, task, subtask := None, None, None;
    }

    function Current(): Selection
      reads this
    {
      Selection(project, task, subtask)
    }

    /** The effect run when the route parameters change. */
    method OnParams(params: Params)
      modifies this
      ensures Current() == Resolve(old(Current()), params, SampleProjects)
    {
      var foundProject := FindProject(SampleProjects, params.projectId);
      project := foundProject;
      if foundProject.Some? {
        var foundTask := FindTask(foundProject.value.tasks, params.taskId);
        task := foundTask;
        if foundTask.Some? {
          var foundSubtask := FindSubtask(foundTask.value.subtasks, params.subtaskId);
          subtask := foundSubtask;
        }
      }
    }
  }
}
