/**
  The project tree shown by the list and the details page (both components
  carry the same sample data), and `Array.prototype.find`.
 */
module Catalog {
  import opened Wrappers

  datatype SubTask = SubTask(id: string, name: string)
  datatype Task = Task(id: string, name: string, subtasks: seq<SubTask>)
  datatype Project = Project(id: string, name: string, client: string, tasks: seq<Task>,
                             hoursTotal: real, hoursCompleted: real)

  const SampleProjects: seq<Project> := [
    Project("1", "EMR / EHR Updates - Dev", "Russell DeGroote, Alumni Sports", [
      Task("1-1", "Frontend Development", [
        SubTask("1-1-1", "Twilio configuration"),
        SubTask("1-1-2", "User authentication")]),
      Task("1-2", "Backend Development", [
        SubTask("1-2-1", "API endpoints"),
        SubTask("1-2-2", "Database schema")])],
      40.0, 9.67),
    Project("2", "Website Redesign", "John Smith, XYZ Corp", [
      Task("2-1", "UI/UX Design", [
        SubTask("2-1-1", "Homepage mockup"),
        SubTask("2-1-2", "Mobile designs")])],
      25.0, 12.0)
  ]

  /** The index `find` stops at: the first element that matches. */
  function FindIndex<T>(s: seq<T>, matches: T -> bool): (r: Option<nat>)
    ensures r.Some? ==> r.value < |s| && matches(s[r.value])
    ensures r.Some? ==> forall j :: 0 <= j < r.value ==> !matches(s[j])
    ensures r.None? ==> forall j :: 0 <= j < |s| ==> !matches(s[j])
    decreases |s|
  {
    if s == [] then None
    else if matches(s[0]) then Some(0)
    else match FindIndex(s[1..], matches)
      case None => None
      case Some(k) => Some(k + 1)
  }

  /** `s.find(matches)`: the first matching element, or undefined. */
  function Find<T>(s: seq<T>, matches: T -> bool): Option<T> {
    match FindIndex(s, matches)
    case None => None
    case Some(i) => Some(s[i])
  }

  /** find yields an element of s that matches, preceded by none that does; undefined exactly when nothing matches. */
  lemma FindFirstMatch<T>(s: seq<T>, matches: T -> bool)
    ensures Find(s, matches).Some? ==>
      exists i :: 0 <= i < |s| && s[i] == Find(s, matches).value && matches(s[i])
                  && forall j :: 0 <= j < i ==> !matches(s[j])
    ensures Find(s, matches).None? <==> forall x :: x in s ==> !matches(x)
  {
    if Find(s, matches).Some? {
      var i := FindIndex(s, matches).value;
      assert s[i] == Find(s, matches).value;
    }
  }
}
