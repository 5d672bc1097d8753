/**
 * The task form's logic, components/forms/hooks/useTaskFormLogic.ts: the list
 * the form works on, the default field values, whether the edited task is a
 * group with children, and the two pick lists `potentialParents` and
 * `potentialDependencies`, which leave out the edited task and everything
 * below it by walking each candidate's parent chain.
 */
module TaskFormLogic {
  import opened Types
  import opened Forest
  import opened TaskUtils
  import opened SampleData
  import opened CascadeDelete
  import opened AppStore
  import opened Validations

  /** The form's `tasks`: nothing without a current project, else its list with group costs rolled up. */
  function FormTasks(store: TaskStore): (r: seq<Task>)
    reads store
    requires store.CurrentTasks().Some? ==> WellFormed(store.CurrentTasks().value)
    ensures store.CurrentTasks().None? ==> r == []
    ensures store.CurrentTasks().Some? ==> SameShape(store.CurrentTasks().value, r) && WellFormed(r)
  {
    match store.CurrentTasks()
    case None => []
    case Some(tasks) =>
      WellFormedSameShape(tasks, WithCalculatedCosts(tasks));
      WithCalculatedCosts(tasks)
  }

  /** `isGroupWithChildren`: the edited task is a group with a (truthy) id that some record names as parent. */
  function IsGroupWithChildren(task: Option<Task>, store: TaskStore): (r: bool)
    reads store
    ensures r <==> (task.Some? && IsGroup(task.value) && task.value.id != 0 &&
      store.CurrentTasks().Some? && exists t | t in store.CurrentTasks().value :: t.parent == Some(task.value.id))
  {
    task.Some? && IsGroup(task.value) && task.value.id != 0 && store.HasChildrenNow(task.value.id)
  }

  // ---------------------------------------------------------------------------
  // Default values
  // ---------------------------------------------------------------------------

  /**
   * The form's `defaultValues`: the edited task's fields where there is one,
   * else empty text, pending, medium priority, a plain task of cost 0 and
   * progress 0. The clock readings (`new Date()` and a week later) are the
   * parameters `now` and `weekLater`.
   */
  function DefaultValues(task: Option<Task>, parentId: Option<int>, now: int, weekLater: int): (r: TaskFormData)
    ensures r.parent == if parentId.Some? then parentId else if task.Some? then task.value.parent else None
    ensures task.None? ==>
      r.text == "" && r.start == now && r.end == weekLater && r.status == Pending && r.priority == Medium &&
      r.kind == PlainTask && r.cost == Some(0.0) && r.percent == 0.0 && r.links == Some([])
    ensures task.Some? ==>
      r.text == task.value.text && r.start == task.value.start && r.end == task.value.end &&
      r.percent == task.value.percent && r.links == Some(task.value.links) &&
      (task.value.status.Some? ==> r.status == task.value.status.value) &&
      (task.value.kind.Some? ==> r.kind == task.value.kind.value) &&
      (task.value.cost.Some? ==> r.cost == task.value.cost)
  {
    TaskFormData(
      text := if task.Some? then task.value.text else "",
      description := Some(if task.Some? && task.value.description.Some? then task.value.description.value else ""),
      start := if task.Some? then task.value.start else now,
      end := if task.Some? then task.value.end else weekLater,
      status := if task.Some? && task.value.status.Some? then task.value.status.value else Pending,
      priority := if task.Some? && task.value.priority.Some? then task.value.priority.value else Medium,
      assignee := Some(if task.Some? && task.value.assignee.Some? then task.value.assignee.value else ""),
      parent := if parentId.Some? then parentId else if task.Some? then task.value.parent else None,
      kind := if task.Some? && task.value.kind.Some? then task.value.kind.value else PlainTask,
      cost := Some(if task.Some? && task.value.cost.Some? then task.value.cost.value else 0.0),
      percent := if task.Some? then task.value.percent else 0.0,
      links := Some(if task.Some? then task.value.links else []))
  }

  /** A new task's form is refused until a name is typed in: the default text is empty. */
  lemma NewTaskFormNeedsName(parentId: Option<int>, now: int, weekLater: int)
    ensures !FormDataValid(DefaultValues(None, parentId, now, weekLater))
    ensures FormDataValid(DefaultValues(None, parentId, now, weekLater).(text := "x")) <==> now <= weekLater
  {
  }

  // ---------------------------------------------------------------------------
  // Pick lists
  // ---------------------------------------------------------------------------

  /**
   * What the pick lists offer: everything when no task is edited; otherwise
   * every record other than the edited task that is not below it.
   */
  predicate Eligible(t: Task, task: Option<Task>, tasks: seq<Task>)
    requires Acyclic(tasks)
  {
    task.None? || (t.id != task.value.id && !(task.value.id != 0 && IsDescendantOf(t, task.value.id, tasks)))
  }

  function DependencyTest(task: Option<Task>, tasks: seq<Task>): Task -> bool
    requires Acyclic(tasks)
  {
    t => Eligible(t, task, tasks)
  }

  function ParentTest(task: Option<Task>, tasks: seq<Task>): Task -> bool
    requires Acyclic(tasks)
  {
    t => IsGroup(t) && Eligible(t, task, tasks)
  }

  /** `potentialDependencies`, as the in-order sublist of the eligible records. */
  function Dependencies(tasks: seq<Task>, task: Option<Task>): (r: seq<Task>)
    requires Acyclic(tasks)
    ensures forall t :: t in r <==> t in tasks && Eligible(t, task, tasks)
  {
    Filter(tasks, DependencyTest(task, tasks))
  }

  /** `potentialParents`, as the in-order sublist of the eligible groups. */
  function Parents(tasks: seq<Task>, task: Option<Task>): (r: seq<Task>)
    requires Acyclic(tasks)
    ensures forall t :: t in r <==> t in tasks && IsGroup(t) && Eligible(t, task, tasks)
  {
    Filter(tasks, ParentTest(task, tasks))
  }

  /**
   * The loop of the filter callbacks: walks from `t` up its parent chain while
   * the parent id is truthy, and reports whether it meets `taskId` before the
   * chain ends or leaves the list.
   */
  method ReachesTask(t: Task, taskId: int, tasks: seq<Task>) returns (reaches: bool)
    requires Acyclic(tasks)
    ensures reaches <==> taskId in Ancestors(t, tasks)
    ensures reaches <==> taskId != 0 && IsDescendantOf(t, taskId, tasks)
  {
    if taskId != 0 {
      DescendantIffAncestor(t, taskId, tasks);
    } else {
      NoZeroAncestor(t, tasks);
    }
    var current := t;
    while HasParent(current)
      invariant taskId in Ancestors(t, tasks) <==> taskId in Ancestors(current, tasks)
      decreases Up(current, tasks)
    {
      if current.parent.value == taskId {
        return true;
      }
      var parent := Find(current.parent.value, tasks);
      if parent.None? {
        break;
      }
      LevelStep(current.parent.value, tasks, parent.value);
      current := parent.value;
    }
    return false;
  }

  /** The ancestor walk only ever meets truthy ids. */
  lemma {:induction false} NoZeroAncestor(t: Task, tasks: seq<Task>)
    requires Acyclic(tasks)
    ensures 0 !in Ancestors(t, tasks)
    decreases Up(t, tasks)
  {
    if HasParent(t) {
      match Find(t.parent.value, tasks)
      case None =>
      case Some(p) =>
        LevelStep(t.parent.value, tasks, p);
        NoZeroAncestor(p, tasks);
    }
  }

  /** The callback of `potentialDependencies`. */
  method KeepAsDependency(t: Task, task: Option<Task>, tasks: seq<Task>) returns (keep: bool)
    requires Acyclic(tasks)
    ensures keep == Eligible(t, task, tasks)
  {
    if task.Some? && t.id == task.value.id {
      return false;
    }
    if task.Some? {
      var reaches := ReachesTask(t, task.value.id, tasks);
      if reaches {
        return false;
      }
    }
    return true;
  }

  /** The callback of `potentialParents`: the same test, behind a group test. */
  method KeepAsParent(t: Task, task: Option<Task>, tasks: seq<Task>) returns (keep: bool)
    requires Acyclic(tasks)
    ensures keep == (IsGroup(t) && Eligible(t, task, tasks))
  {
    if !IsGroup(t) {
      return false;
    }
    keep := KeepAsDependency(t, task, tasks);
  }

  method PotentialDependencies(tasks: seq<Task>, task: Option<Task>) returns (r: seq<Task>)
    requires Acyclic(tasks)
    ensures r == Dependencies(tasks, task)
  {
    r := [];
    for i := 0 to |tasks|
      invariant r == Filter(tasks[..i], DependencyTest(task, tasks))
    {
      var keep := KeepAsDependency(tasks[i], task, tasks);
      assert keep == DependencyTest(task, tasks)(tasks[i]);
      FilterSnoc(tasks, i, DependencyTest(task, tasks));
      if keep {
        r := r + [tasks[i]];
      }
    }
    assert tasks[..|tasks|] == tasks;
  }

  method PotentialParents(tasks: seq<Task>, task: Option<Task>) returns (r: seq<Task>)
    requires Acyclic(tasks)
    ensures r == Parents(tasks, task)
  {
    r := [];
    for i := 0 to |tasks|
      invariant r == Filter(tasks[..i], ParentTest(task, tasks))
    {
      var keep := KeepAsParent(tasks[i], task, tasks);
      assert keep == ParentTest(task, tasks)(tasks[i]);
      FilterSnoc(tasks, i, ParentTest(task, tasks));
      if keep {
        r := r + [tasks[i]];
      }
    }
    assert tasks[..|tasks|] == tasks;
  }

  // ---------------------------------------------------------------------------
  // What the pick lists are
  // ---------------------------------------------------------------------------

  lemma FilterSnoc(xs: seq<Task>, i: nat, keep: Task -> bool)
    requires i < |xs|
    ensures Filter(xs[..i + 1], keep) == Filter(xs[..i], keep) + if keep(xs[i]) then [xs[i]] else []
  {
    FilterAppend(xs[..i], [xs[i]], keep);
    assert xs[..i + 1] == xs[..i] + [xs[i]];
  }

  lemma {:induction false} FilterAll(xs: seq<Task>, keep: Task -> bool)
    requires forall t | t in xs :: keep(t)
    ensures Filter(xs, keep) == xs
  {
    if xs != [] {
      FilterAll(xs[1..], keep);
    }
  }

  lemma {:induction false} FilterThenFilter(xs: seq<Task>, p: Task -> bool, q: Task -> bool, both: Task -> bool)
    requires forall t | t in xs :: both(t) == (p(t) && q(t))
    ensures Filter(xs, both) == Filter(Filter(xs, p), q)
  {
    if xs != [] {
      var x, rest := xs[0], xs[1..];
      assert forall t | t in rest :: t in xs;
      assert x in xs;
      assert both(x) == (p(x) && q(x));
      FilterThenFilter(rest, p, q, both);
      FilterCons(xs, both);
      FilterCons(xs, p);
      if p(x) {
        var kept := Filter(xs, p);
        assert kept == [x] + Filter(rest, p);
        assert kept[1..] == Filter(rest, p);
        FilterCons(kept, q);
        assert Filter(kept, q) == (if q(x) then [x] else []) + Filter(Filter(rest, p), q);
        assert Filter(xs, both) == (if q(x) then [x] else []) + Filter(rest, both);
      } else {
        assert Filter(xs, p) == Filter(rest, p);
        assert Filter(xs, both) == Filter(rest, both);
      }
    }
  }

  lemma {:induction false} FilterIsFilterOut(xs: seq<Task>, keep: Task -> bool, drop: set<int>)
    requires forall t | t in xs :: keep(t) <==> t.id !in drop
    ensures Filter(xs, keep) == FilterOut(xs, drop)
  {
    if xs != [] {
      FilterIsFilterOut(xs[1..], keep, drop);
    }
  }

  /** The parents offered are exactly the groups among the dependencies offered, in the same order. */
  lemma ParentsAreGroupDependencies(tasks: seq<Task>, task: Option<Task>)
    requires Acyclic(tasks)
    ensures Parents(tasks, task) == Filter(Dependencies(tasks, task), t => IsGroup(t))
  {
    FilterThenFilter(tasks, DependencyTest(task, tasks), t => IsGroup(t), ParentTest(task, tasks));
  }

  /** For a new task every record is a potential dependency and every group a potential parent. */
  lemma NewTaskOffersAll(tasks: seq<Task>)
    requires Acyclic(tasks)
    ensures Dependencies(tasks, None) == tasks
    ensures Parents(tasks, None) == Filter(tasks, t => IsGroup(t))
  {
    FilterAll(tasks, DependencyTest(None, tasks));
    ParentsAreGroupDependencies(tasks, None);
  }

  /** The edited task itself is never offered, under any record carrying its id. */
  lemma EditedTaskNotOffered(tasks: seq<Task>, task: Task)
    requires Acyclic(tasks)
    ensures forall t | t in Dependencies(tasks, Some(task)) :: t.id != task.id
    ensures forall t | t in Parents(tasks, Some(task)) :: t.id != task.id
  {
  }

  /**
   * In a well-formed list, the dependencies offered while editing a task are
   * exactly the records that deleting that task would leave: the task and its
   * whole subtree are held back, everything else is offered in list order.
   */
  lemma DependenciesSurviveDelete(tasks: seq<Task>, task: Task)
    requires WellFormed(tasks) && task.id != 0
    ensures Dependencies(tasks, Some(task)) == Prune(tasks, task.id)
  {
    var a := task.id;
    forall t | t in tasks
      ensures DependencyTest(Some(task), tasks)(t) <==> t.id !in Subtree(tasks, a)
    {
      SubtreeMember(tasks, a, t);
    }
    FilterIsFilterOut(tasks, DependencyTest(Some(task), tasks), Subtree(tasks, a));
    PruneSubtree(tasks, a);
  }
}
