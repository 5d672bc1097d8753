/**
 * The application store of store/useAppStore.ts: the project list, the task
 * lists kept per project id, the current project and the task id counter,
 * together with the operations that replace them. The clock readings the
 * source takes (`Date.now()` as a project id, creation and update stamps)
 * are parameters or left out.
 */
module AppStore {
  import opened Types
  import opened Forest
  import opened TaskUtils
  import opened SampleData
  import opened CascadeDelete

  /** The first id the counter hands out. */
  const FirstTaskId: int := 1000

  /** A project; its creation and update stamps are not modelled. */
  datatype Project = Project(
    id: string,
    name: string,
    description: Option<string>,
    startDate: int,
    endDate: int,
    userId: string)

  // ---------------------------------------------------------------------------
  // Ordered insertion: a new task goes right after its parent's subtree
  // ---------------------------------------------------------------------------

  /** The loop's test: `task.parent === newTask.parent || isDescendantOf(task, parent, tasks)`. */
  predicate InRun(t: Task, p: int, tasks: seq<Task>)
    requires Acyclic(tasks)
  {
    t.parent == Some(p) || IsDescendantOf(t, p, tasks)
  }

  /** The first position from `j` on whose record is not below `p`, or the length. */
  function RunEnd(tasks: seq<Task>, p: int, j: nat): (r: nat)
    requires Acyclic(tasks) && j <= |tasks|
    ensures j <= r <= |tasks|
    ensures forall k | j <= k < r :: IsDescendantOf(tasks[k], p, tasks)
    ensures r < |tasks| ==> !IsDescendantOf(tasks[r], p, tasks)
    decreases |tasks| - j
  {
    if j == |tasks| || !InRun(tasks[j], p, tasks) then j
    else RunEnd(tasks, p, j + 1)
  }

  /**
   * Where `addTask` puts a task with this parent: at the end when it has no
   * parent or the parent is not in the list; otherwise right after the
   * parent and the unbroken run of its descendants that follows it.
   */
  function InsertionPoint(tasks: seq<Task>, parent: Option<int>): (r: nat)
    requires parent.Some? ==> Acyclic(tasks)
    ensures r <= |tasks|
    ensures parent.None? || FindIndex(parent.value, tasks).None? ==> r == |tasks|
    ensures parent.Some? && FindIndex(parent.value, tasks).Some? ==>
      var k := FindIndex(parent.value, tasks).value;
      k + 1 <= r &&
      (forall j | k < j < r :: IsDescendantOf(tasks[j], parent.value, tasks)) &&
      (r < |tasks| ==> !IsDescendantOf(tasks[r], parent.value, tasks))
  {
    if parent.None? then |tasks|
    else
      match FindIndex(parent.value, tasks)
      case None => |tasks|
      case Some(k) => RunEnd(tasks, parent.value, k + 1)
  }

  /** Only one position after the parent closes its run of descendants. */
  lemma InsertionPointUnique(tasks: seq<Task>, p: int, i: nat)
    requires Acyclic(tasks) && FindIndex(p, tasks).Some? && i <= |tasks|
    requires FindIndex(p, tasks).value < i
    requires forall j | FindIndex(p, tasks).value < j < i :: IsDescendantOf(tasks[j], p, tasks)
    requires i < |tasks| ==> !IsDescendantOf(tasks[i], p, tasks)
    ensures i == InsertionPoint(tasks, Some(p))
  {
    var r := InsertionPoint(tasks, Some(p));
  }

  /** The insertion index search of `addTask`, with its `for` loop and `break`. */
  method InsertionIndex(projectTasks: seq<Task>, parent: Option<int>) returns (insertIndex: nat)
    requires parent.Some? ==> Acyclic(projectTasks)
    ensures insertIndex == InsertionPoint(projectTasks, parent)
  {
    insertIndex := |projectTasks|;
    if parent.Some? {
      var parentIndex := FindIndex(parent.value, projectTasks);
      if parentIndex.Some? {
        var lastChildIndex := parentIndex.value;
        var i := parentIndex.value + 1;
        while i < |projectTasks|
          invariant parentIndex.value + 1 <= i <= |projectTasks|
          invariant lastChildIndex == i - 1
          invariant RunEnd(projectTasks, parent.value, i) == RunEnd(projectTasks, parent.value, parentIndex.value + 1)
          decreases |projectTasks| - i
        {
          var task := projectTasks[i];
          if task.parent == parent || IsDescendantOf(task, parent.value, projectTasks) {
            lastChildIndex := i;
          } else {
            break;
          }
          i := i + 1;
        }
        insertIndex := lastChildIndex + 1;
      }
    }
  }

  /** `[...tasks.slice(0, i), x, ...tasks.slice(i)]` */
  function Insert(tasks: seq<Task>, i: nat, x: Task): (r: seq<Task>)
    requires i <= |tasks|
    ensures |r| == |tasks| + 1 && r[i] == x
  {
    tasks[..i] + [x] + tasks[i..]
  }

  /** Taking the new record out again gives back the old list: the others keep their order. */
  lemma InsertKeepsOrder(tasks: seq<Task>, i: nat, x: Task)
    requires i <= |tasks|
    ensures Insert(tasks, i, x)[..i] + Insert(tasks, i, x)[i + 1..] == tasks
    ensures forall t :: t in Insert(tasks, i, x) <==> t == x || t in tasks
  {
    var r := Insert(tasks, i, x);
    assert r[..i] == tasks[..i];
    assert r[i + 1..] == tasks[i..];
    assert tasks == tasks[..i] + tasks[i..];
  }

  lemma InsertIds(tasks: seq<Task>, i: nat, x: Task)
    requires i <= |tasks|
    ensures Ids(Insert(tasks, i, x)) == Ids(tasks) + {x.id}
  {
    InsertKeepsOrder(tasks, i, x);
  }

  /** A record with a fresh id keeps the ids unique wherever it goes. */
  lemma {:induction false} InsertUnique(tasks: seq<Task>, i: nat, x: Task)
    requires i <= |tasks| && UniqueIds(tasks) && x.id !in Ids(tasks)
    ensures UniqueIds(Insert(tasks, i, x))
  {
    var r := Insert(tasks, i, x);
    if i == 0 {
      assert r[1..] == tasks;
    } else {
      var rest := tasks[1..];
      assert tasks[0] in tasks;
      InsertUnique(rest, i - 1, x);
      InsertIds(rest, i - 1, x);
      assert r[1..] == Insert(rest, i - 1, x);
    }
  }

  // ---------------------------------------------------------------------------
  // Merging an update into a record
  // ---------------------------------------------------------------------------

  /**
   * `Partial<Omit<Task, "id">>`: `None` leaves a field alone. For a field
   * the record may lack, `Some(None)` is an explicit `undefined`, which the
   * spread copies over and so clears the field.
   */
  datatype TaskUpdate = TaskUpdate(
    parent: Option<Option<int>>,
    kind: Option<Option<TaskKind>>,
    text: Option<string>,
    description: Option<Option<string>>,
    start: Option<int>,
    end: Option<int>,
    percent: Option<real>,
    links: Option<seq<Link>>,
    status: Option<Option<Status>>,
    priority: Option<Option<Priority>>,
    assignee: Option<Option<string>>,
    cost: Option<Option<real>>)

  /** The update that names no field. */
  const NoChange: TaskUpdate :=
    TaskUpdate(None, None, None, None, None, None, None, None, None, None, None, None)

  /** One field of the spread: the update's value when it names the field. */
  function Pick<T>(u: Option<T>, v: T): T {
    if u.Some? then u.value else v
  }

  /**
   * `{ ...task, ...updates }`: every field the update names takes the
   * update's value, every other field keeps the record's, and the id, which
   * an update cannot carry, stays.
   */
  function Merge(t: Task, u: TaskUpdate): (r: Task)
    ensures r.id == t.id
    ensures if u.parent.Some? then r.parent == u.parent.value else r.parent == t.parent
    ensures if u.kind.Some? then r.kind == u.kind.value else r.kind == t.kind
    ensures if u.text.Some? then r.text == u.text.value else r.text == t.text
    ensures if u.description.Some? then r.description == u.description.value else r.description == t.description
    ensures if u.start.Some? then r.start == u.start.value else r.start == t.start
    ensures if u.end.Some? then r.end == u.end.value else r.end == t.end
    ensures if u.percent.Some? then r.percent == u.percent.value else r.percent == t.percent
    ensures if u.links.Some? then r.links == u.links.value else r.links == t.links
    ensures if u.status.Some? then r.status == u.status.value else r.status == t.status
    ensures if u.priority.Some? then r.priority == u.priority.value else r.priority == t.priority
    ensures if u.assignee.Some? then r.assignee == u.assignee.value else r.assignee == t.assignee
    ensures if u.cost.Some? then r.cost == u.cost.value else r.cost == t.cost
  {
    Task(t.id, Pick(u.parent, t.parent), Pick(u.kind, t.kind), Pick(u.text, t.text),
      Pick(u.description, t.description), Pick(u.start, t.start), Pick(u.end, t.end),
      Pick(u.percent, t.percent), Pick(u.links, t.links), Pick(u.status, t.status),
      Pick(u.priority, t.priority), Pick(u.assignee, t.assignee), Pick(u.cost, t.cost))
  }

  lemma MergeNoChange(t: Task)
    ensures Merge(t, NoChange) == t
  {
  }

  /** Merging the same update twice is merging it once. */
  lemma MergeIdempotent(t: Task, u: TaskUpdate)
    ensures Merge(Merge(t, u), u) == Merge(t, u)
  {
  }

  /** The update naming a field when the later one `v` names it, the earlier `u`'s value otherwise. */
  function Or<T>(later: Option<T>, earlier: Option<T>): (r: Option<T>)
    ensures later.Some? ==> r == later
    ensures later.None? ==> r == earlier
  {
    if later.Some? then later else earlier
  }

  /** Two updates in turn as one: the later one's fields win. */
  function Then(u: TaskUpdate, v: TaskUpdate): (w: TaskUpdate)
    ensures v == NoChange ==> w == u
    ensures u == NoChange ==> w == v
  {
    TaskUpdate(Or(v.parent, u.parent), Or(v.kind, u.kind), Or(v.text, u.text), Or(v.description, u.description), Or(v.start, u.start), Or(v.end, u.end), Or(v.percent, u.percent), Or(v.links, u.links), Or(v.status, u.status), Or(v.priority, u.priority), Or(v.assignee, u.assignee), Or(v.cost, u.cost))
  }

  /**
   * Applying `u` and then `v` is applying their combination, where the later
   * update wins on every field both name and each keeps the fields only it names.
   */
  lemma MergeLater(t: Task, u: TaskUpdate, v: TaskUpdate)
    ensures Merge(Merge(t, u), v) == Merge(t, Then(u, v))
  {
  }

  /** `tasks.map((task) => task.id === id ? { ...task, ...updates } : task)` */
  function UpdateInList(tasks: seq<Task>, id: int, u: TaskUpdate): (r: seq<Task>)
    ensures SameIdSeq(tasks, r)
    ensures forall i | 0 <= i < |tasks| && tasks[i].id != id :: r[i] == tasks[i]
    ensures forall i | 0 <= i < |tasks| && tasks[i].id == id :: r[i] == Merge(tasks[i], u)
  {
    seq(|tasks|, i requires 0 <= i < |tasks| => if tasks[i].id == id then Merge(tasks[i], u) else tasks[i])
  }

  /** Applying the same update twice changes nothing more. */
  lemma UpdateInListIdempotent(tasks: seq<Task>, id: int, u: TaskUpdate)
    ensures UpdateInList(UpdateInList(tasks, id, u), id, u) == UpdateInList(tasks, id, u)
  {
    var r := UpdateInList(tasks, id, u);
    var rr := UpdateInList(r, id, u);
    forall i | 0 <= i < |tasks|
      ensures rr[i] == r[i]
    {
      MergeIdempotent(tasks[i], u);
    }
  }

  /** An update for an id no record carries leaves the list as it was. */
  lemma UpdateInListAbsent(tasks: seq<Task>, id: int, u: TaskUpdate)
    requires id !in Ids(tasks)
    ensures UpdateInList(tasks, id, u) == tasks
  {
    var r := UpdateInList(tasks, id, u);
    forall i | 0 <= i < |tasks|
      ensures r[i] == tasks[i]
    {
      assert tasks[i] in tasks;
    }
  }

  /** The ids the store has handed out to one project's list: unique, and drawn from the counter. */
  predicate ListOk(tasks: seq<Task>, next: int) {
    UniqueIds(tasks) && forall x | x in Ids(tasks) :: FirstTaskId <= x < next
  }

  /** `projects.filter((p) => p.id !== id)` */
  function ProjectsWithout(ps: seq<Project>, id: string): (r: seq<Project>)
    ensures forall p :: p in r <==> p in ps && p.id != id
  {
    if ps == [] then []
    else (if ps[0].id == id then [] else [ps[0]]) + ProjectsWithout(ps[1..], id)
  }

  /** `projects.find((p) => p.id === id)` */
  function FindProject(ps: seq<Project>, id: string): (r: Option<Project>)
    ensures r.Some? ==> r.value in ps && r.value.id == id
    ensures r.None? <==> forall p | p in ps :: p.id != id
  {
    if ps == [] then None
    else if ps[0].id == id then Some(ps[0])
    else FindProject(ps[1..], id)
  }

  /** A record of the rolled-up list is a record of the list, or a group of it with its rollup as cost. */
  lemma CalculatedCostsMember(tasks: seq<Task>, t: Task)
    requires WellFormed(tasks) && t in WithCalculatedCosts(tasks)
    ensures exists s | s in tasks :: t == WithGroupCost(s, tasks)
    ensures !IsGroup(t) ==> t in tasks
    ensures IsGroup(t) ==> t.cost == Some(GroupCost(t.id, tasks))
  {
    var r := WithCalculatedCosts(tasks);
    var i :| 0 <= i < |r| && r[i] == t;
    assert tasks[i] in tasks && t == WithGroupCost(tasks[i], tasks);
  }

  /** The records of `xs`, in order, each with its group cost rolled up over `tasks`. */
  function Costed(xs: seq<Task>, tasks: seq<Task>): (r: seq<Task>)
    requires WellFormed(tasks)
    ensures |r| == |xs| && forall i | 0 <= i < |xs| :: r[i] == WithGroupCost(xs[i], tasks)
  {
    if xs == [] then [] else [WithGroupCost(xs[0], tasks)] + Costed(xs[1..], tasks)
  }

  /**
   * Looking a record up in a costed list finds the costed copy of the record
   * the plain lookup finds, and nothing when that finds nothing.
   */
  lemma {:induction false} FindCosted(id: int, xs: seq<Task>, tasks: seq<Task>)
    requires WellFormed(tasks)
    ensures Find(id, Costed(xs, tasks)).Some? <==> Find(id, xs).Some?
    ensures Find(id, xs).Some? ==> Find(id, Costed(xs, tasks)) == Some(WithGroupCost(Find(id, xs).value, tasks))
  {
    if xs != [] {
      assert Costed(xs, tasks)[1..] == Costed(xs[1..], tasks);
      FindCosted(id, xs[1..], tasks);
    }
  }

  /** The children of a costed list are the costed children, in the same order. */
  lemma {:induction false} ChildrenCosted(id: int, xs: seq<Task>, tasks: seq<Task>)
    requires WellFormed(tasks)
    ensures Children(id, Costed(xs, tasks)) == Costed(Children(id, xs), tasks)
  {
    if xs != [] {
      var c := Costed(xs, tasks);
      assert c[1..] == Costed(xs[1..], tasks);
      ChildrenCosted(id, xs[1..], tasks);
      assert Children(id, c) == (if ChildOf(id)(c[0]) then [c[0]] else []) + Children(id, c[1..]);
      assert Children(id, xs) == (if ChildOf(id)(xs[0]) then [xs[0]] else []) + Children(id, xs[1..]);
      if ChildOf(id)(xs[0]) {
        assert Costed(Children(id, xs), tasks)[1..] == Costed(Children(id, xs[1..]), tasks);
      }
    }
  }

  /** Every list of the map is one the store can hold with this counter value. */
  ghost predicate MapOk(m: map<string, seq<Task>>, next: int) {
    forall k | k in m :: ListOk(m[k], next)
  }

  /** `updateTask`'s rewrite of every project's list. */
  function UpdateAll(m: map<string, seq<Task>>, id: int, u: TaskUpdate): (r: map<string, seq<Task>>)
    ensures r.Keys == m.Keys
    ensures forall k | k in m :: SameIdSeq(m[k], r[k])
  {
    map k | k in m :: UpdateInList(m[k], id, u)
  }

  /** Merging never changes an id, so the store's invariant survives. */
  lemma UpdateAllOk(m: map<string, seq<Task>>, id: int, u: TaskUpdate, next: int)
    requires MapOk(m, next)
    ensures MapOk(UpdateAll(m, id, u), next)
  {
    var r := UpdateAll(m, id, u);
    forall k | k in r
      ensures ListOk(r[k], next)
    {
      IdsSameIdSeq(m[k], r[k]);
      UniqueSameIdSeq(m[k], r[k]);
    }
  }

  /** `deleteTask`'s rewrite of every project's list. */
  function PruneAll(m: map<string, seq<Task>>, id: int): (r: map<string, seq<Task>>)
    ensures r.Keys == m.Keys
  {
    map k | k in m :: Prune(m[k], id)
  }

  /** Removal only drops records, so the store's invariant survives. */
  lemma PruneAllOk(m: map<string, seq<Task>>, id: int, next: int)
    requires MapOk(m, next)
    ensures MapOk(PruneAll(m, id), next)
  {
    var r := PruneAll(m, id);
    forall k | k in r
      ensures ListOk(r[k], next)
    {
      PruneListOk(m[k], id, next);
    }
  }

  lemma PruneListOk(tasks: seq<Task>, id: int, next: int)
    requires ListOk(tasks, next)
    ensures ListOk(Prune(tasks, id), next)
  {
    var r := Prune(tasks, id);
    PruneSubset(tasks, id);
    forall x | x in Ids(r)
      ensures FirstTaskId <= x < next
    {
      var t :| t in r && t.id == x;
      assert x in Ids(tasks);
    }
  }

  /** In every well-formed list, exactly the id and its descendants are gone. */
  lemma PruneAllKeeps(m: map<string, seq<Task>>, id: int)
    ensures forall k | k in m && WellFormed(m[k]) ::
      forall t :: t in PruneAll(m, id)[k] <==> t in m[k] && t.id != id && !IsDescendantOf(t, id, m[k])
  {
    forall k | k in m && WellFormed(m[k])
      ensures forall t :: t in PruneAll(m, id)[k] <==> t in m[k] && t.id != id && !IsDescendantOf(t, id, m[k])
    {
      PruneKeeps(m[k], id);
    }
  }

  /** The `forEach` over `Object.keys(newTasksMap)` of `updateTask`, one key at a time. */
  method UpdateEveryList(m: map<string, seq<Task>>, id: int, u: TaskUpdate) returns (r: map<string, seq<Task>>)
    ensures r == UpdateAll(m, id, u)
  {
    r := m;
    var keys := m.Keys;
    while keys != {}
      invariant keys <= m.Keys && r.Keys == m.Keys
      invariant forall k | k in m :: r[k] == if k in keys then m[k] else UpdateInList(m[k], id, u)
      decreases keys
    {
      var k :| k in keys;
      r := r[k := UpdateInList(r[k], id, u)];
      keys := keys - {k};
    }
  }

  /** The `forEach` over `Object.keys(newTasksMap)` of `deleteTask`, one key at a time. */
  method PruneEveryList(m: map<string, seq<Task>>, id: int) returns (r: map<string, seq<Task>>)
    ensures r == PruneAll(m, id)
  {
    r := m;
    var keys := m.Keys;
    while keys != {}
      invariant keys <= m.Keys && r.Keys == m.Keys
      invariant forall k | k in m :: r[k] == if k in keys then m[k] else Prune(m[k], id)
      decreases keys
    {
      var k :| k in keys;
      var filtered := RemoveTaskAndChildren(r[k], id);
      r := r[k := filtered];
      keys := keys - {k};
    }
  }

  // ---------------------------------------------------------------------------
  // The store
  // ---------------------------------------------------------------------------

  class TaskStore {
    var projects: seq<Project>
    var currentProjectId: Option<string>
    var tasksMap: map<string, seq<Task>>
    var nextTaskId: int

    /**
     * The counter never falls below its start, and every list holds unique
     * ids, each handed out by the counter before.
     */
    ghost predicate Valid()
      reads this
    {
      FirstTaskId <= nextTaskId && MapOk(tasksMap, nextTaskId)
    }

    constructor()
      ensures Valid()
      ensures projects == [] && currentProjectId == None
      ensures tasksMap == map[] && nextTaskId == FirstTaskId
    {
      projects := [];
      currentProjectId := None;
      tasksMap := map[];
      nextTaskId := FirstTaskId;
    }

    /** `tasksMap[projectId] || []` */
    function ProjectTasks(projectId: string): (r: seq<Task>)
      reads this
      ensures projectId !in tasksMap ==> r == []
    {
      if projectId in tasksMap then tasksMap[projectId] else []
    }

    /** The current project's list, or `None` when the current id is missing or "" (falsy). */
    function CurrentTasks(): (r: Option<seq<Task>>)
      reads this
      ensures r.None? <==> currentProjectId.None? || currentProjectId.value == ""
      ensures r.Some? ==> r.value == ProjectTasks(currentProjectId.value)
    {
      if currentProjectId.None? || currentProjectId.value == "" then None
      else Some(ProjectTasks(currentProjectId.value))
    }

    method SetCurrentProjectId(id: Option<string>)
      requires Valid()
      modifies this
      ensures Valid()
      ensures currentProjectId == id
      ensures projects == old(projects) && tasksMap == old(tasksMap) && nextTaskId == old(nextTaskId)
    {
      currentProjectId := id;
    }

    function GetProject(id: string): (r: Option<Project>)
      reads this
      ensures r.Some? ==> r.value in projects && r.value.id == id
      ensures r.None? <==> forall p | p in projects :: p.id != id
    {
      FindProject(projects, id)
    }

    /**
     * `addProject`: the new project, with the id the clock gave, goes at the
     * end of the list and gets an empty task list (replacing any list under
     * the same id).
     */
    method AddProject(data: Project, id: string) returns (newProject: Project)
      requires Valid()
      modifies this
      ensures Valid()
      ensures newProject == data.(id := id)
      ensures projects == old(projects) + [newProject]
      ensures tasksMap == old(tasksMap)[id := []]
      ensures currentProjectId == old(currentProjectId) && nextTaskId == old(nextTaskId)
    {
      newProject := data.(id := id);
      projects := projects + [newProject];
      tasksMap := tasksMap[id := []];
    }

    /** `deleteProject`: the project and its task list go; every other entry stays. */
    method DeleteProject(id: string)
      requires Valid()
      modifies this
      ensures Valid()
      ensures projects == ProjectsWithout(old(projects), id)
      ensures tasksMap == old(tasksMap) - {id}
      ensures currentProjectId == old(currentProjectId) && nextTaskId == old(nextTaskId)
    {
      projects := ProjectsWithout(projects, id);
      tasksMap := tasksMap - {id};
    }

    /**
     * `addTask`: the task takes the counter's value as its id, the counter
     * moves on by one, and the task is spliced into the project's list (an
     * absent list counts as empty) at its insertion point.
     */
    method AddTask(projectId: string, data: Task) returns (newTask: Task)
      requires Valid()
      requires data.parent.Some? ==> Acyclic(ProjectTasks(projectId))
      modifies this
      ensures Valid()
      ensures newTask == data.(id := old(nextTaskId))
      ensures nextTaskId == old(nextTaskId) + 1
      ensures tasksMap == old(tasksMap)[projectId :=
        Insert(old(ProjectTasks(projectId)), InsertionPoint(old(ProjectTasks(projectId)), data.parent), newTask)]
      ensures projects == old(projects) && currentProjectId == old(currentProjectId)
    {
      newTask := data.(id := nextTaskId);
      var projectTasks := ProjectTasks(projectId);
      var insertIndex := InsertionIndex(projectTasks, newTask.parent);
      var updatedTasks := projectTasks[..insertIndex] + [newTask] + projectTasks[insertIndex..];
      InsertUnique(projectTasks, insertIndex, newTask);
      InsertIds(projectTasks, insertIndex, newTask);
      tasksMap := tasksMap[projectId := updatedTasks];
      nextTaskId := nextTaskId + 1;
    }

    /** `updateTask`: the update is merged into the matching record of every project's list. */
    method UpdateTask(id: int, u: TaskUpdate)
      requires Valid()
      modifies this
      ensures Valid()
      ensures tasksMap == UpdateAll(old(tasksMap), id, u)
      ensures projects == old(projects) && currentProjectId == old(currentProjectId)
      ensures nextTaskId == old(nextTaskId)
    {
      var newTasksMap := UpdateEveryList(tasksMap, id, u);
      UpdateAllOk(tasksMap, id, u, nextTaskId);
      tasksMap := newTasksMap;
    }

    /**
     * `deleteTask`: in every project's list, the record with the id and,
     * child by child, everything below it is removed.
     */
    method DeleteTask(id: int)
      requires Valid()
      modifies this
      ensures Valid()
      ensures tasksMap == PruneAll(old(tasksMap), id)
      ensures forall k | k in tasksMap && WellFormed(old(tasksMap)[k]) ::
        forall t :: t in tasksMap[k] <==>
          t in old(tasksMap)[k] && t.id != id && !IsDescendantOf(t, id, old(tasksMap)[k])
      ensures projects == old(projects) && currentProjectId == old(currentProjectId)
      ensures nextTaskId == old(nextTaskId)
    {
      var newTasksMap := PruneEveryList(tasksMap, id);
      PruneAllOk(tasksMap, id, nextTaskId);
      PruneAllKeeps(tasksMap, id);
      tasksMap := newTasksMap;
    }

    /** `getTask`: the record with the id, with group costs rolled up; none without a current project. */
    function GetTask(id: int): (r: Option<Task>)
      reads this
      requires CurrentTasks().Some? ==> WellFormed(CurrentTasks().value)
      ensures CurrentTasks().None? ==> r.None?
      ensures CurrentTasks().Some? ==>
        (r.None? <==> forall t | t in CurrentTasks().value :: t.id != id)
      ensures r.Some? ==> r.value.id == id
      ensures r.Some? && !IsGroup(r.value) ==> r.value in CurrentTasks().value
      ensures r.Some? && IsGroup(r.value) ==> r.value.cost == Some(GroupCost(id, CurrentTasks().value))
      ensures CurrentTasks().Some? && r.Some? ==>
        Find(id, CurrentTasks().value).Some? &&
        r.value == WithGroupCost(Find(id, CurrentTasks().value).value, CurrentTasks().value)
    {
      match CurrentTasks()
      case None => None
      case Some(tasks) =>
        var withCosts := WithCalculatedCosts(tasks);
        IdsSameIdSeq(tasks, withCosts);
        assert WithCalculatedCosts(tasks) == Costed(tasks, tasks);
        FindCosted(id, tasks, tasks);
        var r := Find(id, withCosts);
        if r.Some? then CalculatedCostsMember(tasks, r.value); r else r
    }

    /** `getTaskNumber`: the dotted number in the current project, "" without one. */
    function GetTaskNumber(taskId: int): (r: string)
      reads this
      requires CurrentTasks().Some? ==> Acyclic(CurrentTasks().value)
      ensures r == "" <==> CurrentTasks().None? || Find(taskId, CurrentTasks().value).None?
      ensures r != "" ==> r == TaskNumber(taskId, CurrentTasks().value)
    {
      match CurrentTasks()
      case None => ""
      case Some(tasks) => TaskNumber(taskId, tasks)
    }

    /** `hasChildren`: some record of the current project names the id as parent. */
    function HasChildrenNow(taskId: int): (r: bool)
      reads this
      ensures r <==> CurrentTasks().Some? && exists t | t in CurrentTasks().value :: t.parent == Some(taskId)
    {
      match CurrentTasks()
      case None => false
      case Some(tasks) => HasChildren(taskId, tasks)
    }

    /** `getChildren`: the children of the id in the current project, with group costs rolled up. */
    function GetChildren(taskId: int): (r: seq<Task>)
      reads this
      requires CurrentTasks().Some? ==> WellFormed(CurrentTasks().value)
      ensures CurrentTasks().None? ==> r == []
      ensures CurrentTasks().Some? ==>
        forall t :: t in r <==> t in WithCalculatedCosts(CurrentTasks().value) && t.parent == Some(taskId)
      ensures CurrentTasks().Some? ==> r == Children(taskId, WithCalculatedCosts(CurrentTasks().value))
      ensures CurrentTasks().Some? ==>
        r == Costed(Children(taskId, CurrentTasks().value), CurrentTasks().value)
    {
      match CurrentTasks()
      case None => []
      case Some(tasks) =>
        assert WithCalculatedCosts(tasks) == Costed(tasks, tasks);
        ChildrenCosted(taskId, tasks, tasks);
        Children(taskId, WithCalculatedCosts(tasks))
    }
  }
}
