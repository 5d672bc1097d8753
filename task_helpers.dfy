/**
 * Display helpers over tasks (lib/taskHelpers.tsx): the labels and badge
 * variants of statuses and priorities, the overdue test and the depth of a
 * task in the hierarchy. The file's own copy of `getTaskNumber` is the same
 * definition as lib/taskUtils.ts and is modelled once, as TaskUtils.TaskNumber.
 */
module TaskHelpers {
  import opened Types
  import opened Forest

  /** The badge variants of the component library. */
  datatype Variant = Default | Secondary | Destructive | Outline

  /** `getPriorityVariant`: an absent priority reads like "low". */
  function PriorityVariant(p: Option<Priority>): (v: Variant)
    ensures v == Outline <==> p.None? || p == Some(Low)
    ensures v == Destructive <==> p == Some(Critical)
    ensures v == Default <==> p == Some(High)
    ensures v == Secondary <==> p == Some(Medium)
  {
    match p
    case Some(Critical) => Destructive
    case Some(High) => Default
    case Some(Medium) => Secondary
    case _ => Outline
  }

  /** `getStatusLabel`: an absent status reads like "pending". */
  function StatusLabel(s: Option<Status>): (text: string)
    ensures text == "Pending" <==> s.None? || s == Some(Pending)
    ensures text == "In Progress" <==> s == Some(InProgress)
    ensures text == "Completed" <==> s == Some(Completed)
    ensures text == "Blocked" <==> s == Some(Blocked)
  {
    match s
    case Some(InProgress) => "In Progress"
    case Some(Completed) => "Completed"
    case Some(Blocked) => "Blocked"
    case _ => "Pending"
  }

  /** `getPriorityLabel`: an absent priority reads like "low". */
  function PriorityLabel(p: Option<Priority>): (text: string)
    ensures text == "Low" <==> p.None? || p == Some(Low)
    ensures text == "Medium" <==> p == Some(Medium)
    ensures text == "High" <==> p == Some(High)
    ensures text == "Critical" <==> p == Some(Critical)
  {
    match p
    case Some(Critical) => "Critical"
    case Some(High) => "High"
    case Some(Medium) => "Medium"
    case _ => "Low"
  }

  /** Absent values are read as the default status and priority. */
  function StatusOrDefault(s: Option<Status>): Status {
    if s.Some? then s.value else Pending
  }

  function PriorityOrDefault(p: Option<Priority>): Priority {
    if p.Some? then p.value else Low
  }

  /** Two statuses share a label exactly when they are the same once defaulted. */
  lemma StatusLabelDistinct(a: Option<Status>, b: Option<Status>)
    ensures StatusLabel(a) == StatusLabel(b) <==> StatusOrDefault(a) == StatusOrDefault(b)
  {
  }

  /** Two priorities share a label, and a variant, exactly when they are the same once defaulted. */
  lemma PriorityLabelDistinct(a: Option<Priority>, b: Option<Priority>)
    ensures PriorityLabel(a) == PriorityLabel(b) <==> PriorityOrDefault(a) == PriorityOrDefault(b)
    ensures PriorityVariant(a) == PriorityVariant(b) <==> PriorityOrDefault(a) == PriorityOrDefault(b)
  {
  }

  /**
   * `getStatusBadgeVariant`, which takes any string (project statuses include
   * "planning"): unknown and absent values get the secondary variant.
   */
  function StatusBadgeVariant(s: Option<string>): (v: Variant)
    ensures v == Default <==> s == Some("in-progress")
    ensures v == Outline <==> s == Some("completed")
    ensures v == Destructive <==> s == Some("blocked")
  {
    match s
    case Some("in-progress") => Default
    case Some("planning") => Secondary
    case Some("pending") => Secondary
    case Some("completed") => Outline
    case Some("blocked") => Destructive
    case _ => Secondary
  }

  /** A task status, spelled as on the wire, gets the badge of its own status. */
  lemma BadgeOfStatus(s: Status)
    ensures StatusBadgeVariant(Some(StatusName(s))) == Secondary <==> s == Pending
  {
  }

  /** `isTaskOverdue`, with the current instant passed in. */
  predicate IsTaskOverdue(end: int, status: Option<Status>, now: int)
    ensures status == Some(Completed) ==> !IsTaskOverdue(end, status, now)
    ensures status != Some(Completed) ==> (IsTaskOverdue(end, status, now) <==> end < now)
  {
    status != Some(Completed) && end < now
  }

  /** Once overdue a task stays overdue as time passes, until it is completed. */
  lemma OverdueStays(end: int, status: Option<Status>, now: int, later: int)
    requires IsTaskOverdue(end, status, now) && now <= later
    ensures IsTaskOverdue(end, status, later)
  {
  }

  /** A completed task is never overdue, whatever its end date. */
  lemma CompletedNeverOverdue(end: int, now: int)
    ensures !IsTaskOverdue(end, Some(Completed), now)
  {
  }

  /**
   * `getTaskDepth`: walk the parent links, counting each truthy parent id,
   * and stop after counting a parent id that is not in the list.
   */
  method GetTaskDepth(task: Task, tasks: seq<Task>) returns (depth: nat)
    requires Acyclic(tasks)
    ensures depth == |Ancestors(task, tasks)|
  {
    depth := 0;
    var current := task;
    while HasParent(current)
      invariant depth + |Ancestors(current, tasks)| == |Ancestors(task, tasks)|
      decreases Up(current, tasks)
    {
      depth := depth + 1;
      var parent := Find(current.parent.value, tasks);
      if parent.None? {
        break;
      }
      LevelStep(current.parent.value, tasks, parent.value);
      current := parent.value;
    }
  }

  /** A task with no (truthy) parent has depth 0. */
  lemma DepthOfRoot(t: Task, tasks: seq<Task>)
    requires Acyclic(tasks) && !HasParent(t)
    ensures |Ancestors(t, tasks)| == 0
  {
  }

  /** A task whose parent is in the list is one deeper than its parent. */
  lemma DepthOfChild(t: Task, p: Task, tasks: seq<Task>)
    requires Acyclic(tasks) && HasParent(t) && Find(t.parent.value, tasks) == Some(p)
    ensures |Ancestors(t, tasks)| == |Ancestors(p, tasks)| + 1
  {
  }

  /** The hop to a parent missing from the list is counted, so the depth is 1. */
  lemma DepthOfOrphan(t: Task, tasks: seq<Task>)
    requires Acyclic(tasks) && HasParent(t) && Find(t.parent.value, tasks).None?
    ensures |Ancestors(t, tasks)| == 1
  {
  }
}
