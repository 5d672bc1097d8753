/**
 * The records of the task-hierarchy engine: tasks, their dependency links and
 * the enumerations they draw on (types/index.ts). Dates are milliseconds since
 * the epoch; costs and completion fractions are exact reals.
 */
module Types {

  datatype Option<+T> = None | Some(value: T)

  /** The kind of a dependency link: Finish-Start, Finish-Finish, Start-Start, Start-Finish. */
  datatype LinkType = FS | FF | SS | SF

  /** A dependency on another task, by id. */
  datatype Link = Link(target: int, linkType: LinkType)

  datatype Status = Pending | InProgress | Completed | Blocked

  datatype Priority = Low | Medium | High | Critical

  /** The `type` field: "task", "group" or "milestone". */
  datatype TaskKind = PlainTask | Group | Milestone

  /**
   * A task record. Every field that is optional in the source is an Option;
   * `parent` refers to another task's id and `cost` is recomputed for groups.
   */
  datatype Task = Task(
    id: int,
    parent: Option<int>,
    kind: Option<TaskKind>,
    text: string,
    description: Option<string>,
    start: int,
    end: int,
    percent: real,
    links: seq<Link>,
    status: Option<Status>,
    priority: Option<Priority>,
    assignee: Option<string>,
    cost: Option<real>)

  /** `task.type === "group"` */
  predicate IsGroup(t: Task) {
    t.kind == Some(Group)
  }

  /** `child.cost || 0`: an absent cost counts as zero. */
  function CostOrZero(t: Task): real {
    match t.cost
    case Some(c) => c
    case None => 0.0
  }

  /** The enumeration spellings used on the wire and in the forms. */
  function StatusName(s: Status): string {
    match s
    case Pending => "pending"
    case InProgress => "in-progress"
    case Completed => "completed"
    case Blocked => "blocked"
  }

  function PriorityName(p: Priority): string {
    match p
    case Low => "low"
    case Medium => "medium"
    case High => "high"
    case Critical => "critical"
  }

  function KindName(k: TaskKind): string {
    match k
    case PlainTask => "task"
    case Group => "group"
    case Milestone => "milestone"
  }

  function LinkTypeName(l: LinkType): string {
    match l
    case FS => "FS"
    case FF => "FF"
    case SS => "SS"
    case SF => "SF"
  }
}
