/**
 * The dependency list of a task's detail view,
 * components/tasks/task-details/TaskDetailDependencies.tsx: nothing for a task
 * without links, otherwise one row per link carrying the target's number and
 * name, the link type's label and its code. The `getTask` and `getTaskNumber`
 * callbacks the view receives are modelled as lookups in the task list.
 */
module TaskDetailDependencies {
  import opened Types
  import opened Forest
  import opened TaskUtils

  /** `getLinkTypeLabel`: the four codes get their long names; any other string is shown as it is. */
  function LinkTypeLabel(code: string): (r: string)
    ensures code == "FS" ==> r == "Finish-Start"
    ensures code == "FF" ==> r == "Finish-Finish"
    ensures code == "SS" ==> r == "Start-Start"
    ensures code == "SF" ==> r == "Start-Finish"
    ensures code !in {"FS", "FF", "SS", "SF"} ==> r == code
  {
    match code
    case "FS" => "Finish-Start"
    case "FF" => "Finish-Finish"
    case "SS" => "Start-Start"
    case "SF" => "Start-Finish"
    case _ => code
  }

  /** Different link types are shown under different labels, none of them a bare code. */
  lemma LabelsDistinct(a: LinkType, b: LinkType)
    ensures LinkTypeLabel(LinkTypeName(a)) == LinkTypeLabel(LinkTypeName(b)) <==> a == b
    ensures LinkTypeLabel(LinkTypeName(a)) != LinkTypeName(b)
  {
  }

  /** One row of the list. */
  datatype DependencyRow = DependencyRow(
    number: string,          // getTaskNumber(link.target)
    text: Option<string>,    // dependentTask?.text
    typeLabel: string,       // getLinkTypeLabel(link.type)
    code: string)            // link.type, on the badge

  function Row(l: Link, tasks: seq<Task>): (r: DependencyRow)
    requires Acyclic(tasks)
    ensures r.code == LinkTypeName(l.linkType) && r.typeLabel == LinkTypeLabel(r.code)
    ensures r.number == "" <==> r.text.None?
    ensures r.text.Some? <==> exists t | t in tasks :: t.id == l.target
    ensures r.text.Some? ==> r.number == TaskNumber(l.target, tasks)
  {
    var target := Find(l.target, tasks);
    DependencyRow(
      TaskNumber(l.target, tasks),
      if target.Some? then Some(target.value.text) else None,
      LinkTypeLabel(LinkTypeName(l.linkType)),
      LinkTypeName(l.linkType))
  }

  /**
   * The rendered list: nothing when the task has no links, else one row per
   * link in link order. A row names a task exactly when its number is not
   * empty, that is when the link's target is in the list.
   */
  function DependencyRows(task: Task, tasks: seq<Task>): (r: Option<seq<DependencyRow>>)
    requires Acyclic(tasks)
    ensures r.None? <==> task.links == []
    ensures r.Some? ==> |r.value| == |task.links|
    ensures r.Some? ==> forall i | 0 <= i < |task.links| :: r.value[i] == Row(task.links[i], tasks)
  {
    if task.links == [] then None
    else Some(seq(|task.links|, i requires 0 <= i < |task.links| => Row(task.links[i], tasks)))
  }

  /** A row whose target is missing shows an empty number and no name; the type is still shown. */
  lemma DanglingRow(task: Task, tasks: seq<Task>, i: nat)
    requires Acyclic(tasks) && i < |task.links|
    requires forall t | t in tasks :: t.id != task.links[i].target
    ensures DependencyRows(task, tasks).value[i].number == ""
    ensures DependencyRows(task, tasks).value[i].typeLabel != ""
  {
  }
}
