/**
 * The cost rollup of lib/sampleData.ts: a group's cost is the sum of its
 * children's contributions, where a child group contributes its own rollup and
 * any other child (milestones included) its stored cost, or 0 when it has none.
 * The sample list of that file appears only as the fixture at the end.
 */
module SampleData {
  import opened Types
  import opened Forest
  import opened TaskUtils

  /** Distance from `g` to the deepest level a well-formed list can have; children are one closer. */
  ghost function Rank(g: int, tasks: seq<Task>): nat
    requires Acyclic(tasks)
  {
    LevelBound(g, tasks);
    |Ids(tasks)| + 1 - Level(g, tasks)
  }

  /** `calculateGroupCost`: the sum of the contributions of the records whose parent is `g`. */
  function GroupCost(g: int, tasks: seq<Task>): (r: real)
    requires WellFormed(tasks)
    ensures Children(g, tasks) == [] ==> r == 0.0
    decreases Rank(g, tasks), 1
  {
    SumCosts(Children(g, tasks), g, tasks)
  }

  /**
   * The `reduce` over the children `cs` of `g`, adding their contributions
   * from the left.
   */
  function SumCosts(cs: seq<Task>, g: int, tasks: seq<Task>): real
    requires WellFormed(tasks)
    requires forall c | c in cs :: c in tasks && c.parent == Some(g)
    decreases Rank(g, tasks), 0, |cs|
  {
    if cs == [] then 0.0
    else SumCosts(cs[..|cs| - 1], g, tasks) + Contribution(cs[|cs| - 1], g, tasks)
  }

  /** A child group adds its own rollup; any other child (a milestone too) adds `cost || 0`. */
  function Contribution(c: Task, g: int, tasks: seq<Task>): real
    requires WellFormed(tasks) && c in tasks && c.parent == Some(g)
    decreases Rank(g, tasks), 0, 0
  {
    if IsGroup(c) then
      ChildLevel(c, g, tasks);
      GroupCost(c.id, tasks)
    else CostOrZero(c)
  }

  /** An id that nobody names as parent rolls up to 0. */
  lemma GroupCostNoChildren(g: int, tasks: seq<Task>)
    requires WellFormed(tasks) && !HasChildren(g, tasks)
    ensures GroupCost(g, tasks) == 0.0
  {
    HasChildrenIffChildren(g, tasks);
  }

  /** With no negative stored costs outside groups, no rollup is negative. */
  lemma {:induction false} GroupCostNonNegative(g: int, tasks: seq<Task>)
    requires WellFormed(tasks)
    requires forall t | t in tasks && !IsGroup(t) :: CostOrZero(t) >= 0.0
    ensures GroupCost(g, tasks) >= 0.0
    decreases Rank(g, tasks), 1
  {
    SumCostsNonNegative(Children(g, tasks), g, tasks);
  }

  lemma {:induction false} SumCostsNonNegative(cs: seq<Task>, g: int, tasks: seq<Task>)
    requires WellFormed(tasks)
    requires forall t | t in tasks && !IsGroup(t) :: CostOrZero(t) >= 0.0
    requires forall c | c in cs :: c in tasks && c.parent == Some(g)
    ensures SumCosts(cs, g, tasks) >= 0.0
    decreases Rank(g, tasks), 0, |cs|
  {
    if cs != [] {
      var c := cs[|cs| - 1];
      SumCostsNonNegative(cs[..|cs| - 1], g, tasks);
      if IsGroup(c) {
        ChildLevel(c, g, tasks);
        GroupCostNonNegative(c.id, tasks);
      }
    }
  }

  lemma ContributionNonNegative(c: Task, g: int, tasks: seq<Task>)
    requires WellFormed(tasks) && c in tasks && c.parent == Some(g)
    requires forall t | t in tasks && !IsGroup(t) :: CostOrZero(t) >= 0.0
    ensures Contribution(c, g, tasks) >= 0.0
  {
    if IsGroup(c) {
      GroupCostNonNegative(c.id, tasks);
    }
  }

  lemma {:induction false} SumCostsAtLeast(cs: seq<Task>, g: int, tasks: seq<Task>, c: Task)
    requires WellFormed(tasks)
    requires forall t | t in tasks && !IsGroup(t) :: CostOrZero(t) >= 0.0
    requires forall d | d in cs :: d in tasks && d.parent == Some(g)
    requires c in cs
    ensures SumCosts(cs, g, tasks) >= Contribution(c, g, tasks)
    decreases |cs|
  {
    var n := |cs| - 1;
    assert forall d | d in cs[..n] :: d in cs;
    assert cs[n] in cs;
    if cs[n] == c {
      SumCostsNonNegative(cs[..n], g, tasks);
    } else {
      assert c in cs[..n] by {
        var k :| 0 <= k < |cs| && cs[k] == c;
        assert k < n && cs[..n][k] == c;
      }
      SumCostsAtLeast(cs[..n], g, tasks, c);
      ContributionNonNegative(cs[n], g, tasks);
    }
  }

  /**
   * With no negative stored costs, a child never adds more than its parent's
   * rollup: a child group's own rollup, and any other child's stored cost, is
   * at most the rollup of the group above it.
   */
  lemma ChildAtMostParent(c: Task, tasks: seq<Task>)
    requires WellFormed(tasks) && c in tasks && c.parent.Some?
    requires forall t | t in tasks && !IsGroup(t) :: CostOrZero(t) >= 0.0
    ensures IsGroup(c) ==> GroupCost(c.id, tasks) <= GroupCost(c.parent.value, tasks)
    ensures !IsGroup(c) ==> CostOrZero(c) <= GroupCost(c.parent.value, tasks)
  {
    var g := c.parent.value;
    SumCostsAtLeast(Children(g, tasks), g, tasks, c);
  }

  // ---------------------------------------------------------------------------
  // The rollup never reads a group's stored cost
  // ---------------------------------------------------------------------------

  /**
   * Two lists of the same shape that agree on which records are groups and on
   * the cost of every record that is not a group.
   */
  predicate SameButGroupCosts(a: seq<Task>, b: seq<Task>) {
    SameShape(a, b) &&
    forall i | 0 <= i < |a| ::
      IsGroup(a[i]) == IsGroup(b[i]) && (!IsGroup(a[i]) ==> CostOrZero(a[i]) == CostOrZero(b[i]))
  }

  lemma SameButGroupCostsTail(a: seq<Task>, b: seq<Task>)
    requires SameButGroupCosts(a, b) && a != []
    ensures SameButGroupCosts(a[1..], b[1..])
  {
    forall i | 0 <= i < |a| - 1
      ensures a[1..][i] == a[i + 1] && b[1..][i] == b[i + 1]
    {
    }
  }

  lemma SameButGroupCostsPrefix(a: seq<Task>, b: seq<Task>, n: nat)
    requires SameButGroupCosts(a, b) && n <= |a|
    ensures SameButGroupCosts(a[..n], b[..n])
  {
  }

  lemma {:induction false} ChildrenSameCosts(g: int, a: seq<Task>, b: seq<Task>)
    requires SameButGroupCosts(a, b)
    ensures SameButGroupCosts(Children(g, a), Children(g, b))
  {
    if a != [] {
      SameButGroupCostsTail(a, b);
      ChildrenSameCosts(g, a[1..], b[1..]);
      FilterCons(a, ChildOf(g));
      FilterCons(b, ChildOf(g));
      var ra := Children(g, a[1..]);
      var rb := Children(g, b[1..]);
      if a[0].parent == Some(g) {
        var x := [a[0]] + ra;
        var y := [b[0]] + rb;
        forall i | 0 <= i < |x|
          ensures x[i].id == y[i].id && x[i].parent == y[i].parent
          ensures IsGroup(x[i]) == IsGroup(y[i])
          ensures !IsGroup(x[i]) ==> CostOrZero(x[i]) == CostOrZero(y[i])
        {
          if i > 0 {
            assert x[i] == ra[i - 1] && y[i] == rb[i - 1];
          }
        }
      }
    }
  }

  /**
   * Changing the stored costs of groups changes no rollup: the rollup reads
   * ids, parents, types and the costs of non-group records only.
   */
  lemma {:induction false} GroupCostIgnoresGroupCosts(g: int, a: seq<Task>, b: seq<Task>)
    requires WellFormed(a) && SameButGroupCosts(a, b)
    ensures WellFormed(b) && GroupCost(g, a) == GroupCost(g, b)
    decreases Rank(g, a), 1
  {
    WellFormedSameShape(a, b);
    ChildrenSameCosts(g, a, b);
    SumCostsIgnoresGroupCosts(Children(g, a), Children(g, b), g, a, b);
  }

  lemma {:induction false} SumCostsIgnoresGroupCosts(ca: seq<Task>, cb: seq<Task>, g: int, a: seq<Task>, b: seq<Task>)
    requires WellFormed(a) && WellFormed(b) && SameButGroupCosts(a, b) && SameButGroupCosts(ca, cb)
    requires forall c | c in ca :: c in a && c.parent == Some(g)
    requires forall c | c in cb :: c in b && c.parent == Some(g)
    ensures SumCosts(ca, g, a) == SumCosts(cb, g, b)
    decreases Rank(g, a), 0, |ca|
  {
    if ca != [] {
      var n := |ca| - 1;
      assert SumCosts(ca[..n], g, a) == SumCosts(cb[..n], g, b) by {
        SameButGroupCostsPrefix(ca, cb, n);
        SumCostsIgnoresGroupCosts(ca[..n], cb[..n], g, a, b);
      }
      assert Contribution(ca[n], g, a) == Contribution(cb[n], g, b) by {
        assert ca[n] in ca && cb[n] in cb;
        ContributionIgnoresGroupCosts(ca[n], cb[n], g, a, b);
      }
    }
  }

  lemma {:induction false} ContributionIgnoresGroupCosts(ca: Task, cb: Task, g: int, a: seq<Task>, b: seq<Task>)
    requires WellFormed(a) && WellFormed(b) && SameButGroupCosts(a, b)
    requires ca in a && ca.parent == Some(g) && cb in b && cb.parent == Some(g)
    requires ca.id == cb.id && IsGroup(ca) == IsGroup(cb)
    requires !IsGroup(ca) ==> CostOrZero(ca) == CostOrZero(cb)
    ensures Contribution(ca, g, a) == Contribution(cb, g, b)
    decreases Rank(g, a), 0, 0
  {
    if IsGroup(ca) {
      ChildLevel(ca, g, a);
      GroupCostIgnoresGroupCosts(ca.id, a, b);
    }
  }

  // ---------------------------------------------------------------------------
  // getTasksWithCalculatedCosts
  // ---------------------------------------------------------------------------

  /** One record of the map: a group gets its rollup as cost, any other record is kept. */
  function WithGroupCost(t: Task, tasks: seq<Task>): (r: Task)
    requires WellFormed(tasks)
    ensures r.id == t.id && r.parent == t.parent && IsGroup(r) == IsGroup(t)
    ensures !IsGroup(t) ==> r == t
    ensures IsGroup(t) ==> r == t.(cost := Some(GroupCost(t.id, tasks)))
  {
    if IsGroup(t) then t.(cost := Some(GroupCost(t.id, tasks))) else t
  }

  /**
   * `getTasksWithCalculatedCosts`: the list in the same order, each group
   * carrying its rollup over the input list and every other record unchanged.
   */
  function WithCalculatedCosts(tasks: seq<Task>): (r: seq<Task>)
    requires WellFormed(tasks)
    ensures SameButGroupCosts(tasks, r)
    ensures forall i | 0 <= i < |tasks| && !IsGroup(tasks[i]) :: r[i] == tasks[i]
    ensures forall i | 0 <= i < |tasks| && IsGroup(tasks[i]) ::
      r[i] == tasks[i].(cost := Some(GroupCost(tasks[i].id, tasks)))
  {
    seq(|tasks|, i requires 0 <= i < |tasks| => WithGroupCost(tasks[i], tasks))
  }

  /** Recomputing the costs of a recomputed list changes nothing. */
  lemma CalculatedCostsIdempotent(tasks: seq<Task>)
    requires WellFormed(tasks)
    ensures WellFormed(WithCalculatedCosts(tasks))
    ensures WithCalculatedCosts(WithCalculatedCosts(tasks)) == WithCalculatedCosts(tasks)
  {
    var r := WithCalculatedCosts(tasks);
    WellFormedSameShape(tasks, r);
    var rr := WithCalculatedCosts(r);
    forall i | 0 <= i < |r|
      ensures rr[i] == r[i]
    {
      if IsGroup(r[i]) {
        GroupCostIgnoresGroupCosts(r[i].id, tasks, r);
      }
    }
  }

  /** Every group of the result carries a rollup that is already up to date. */
  lemma CalculatedCostsConsistent(tasks: seq<Task>, i: nat)
    requires WellFormed(tasks) && i < |tasks| && IsGroup(tasks[i])
    ensures WellFormed(WithCalculatedCosts(tasks))
    ensures var r := WithCalculatedCosts(tasks);
      r[i].cost == Some(GroupCost(r[i].id, r))
  {
    var r := WithCalculatedCosts(tasks);
    GroupCostIgnoresGroupCosts(tasks[i].id, tasks, r);
  }

  // ---------------------------------------------------------------------------
  // The sample list
  // ---------------------------------------------------------------------------

  /** A sample record, with the fields the rollup reads. */
  function Sample(id: int, parent: Option<int>, kind: Option<TaskKind>, cost: real): Task {
    Task(id, parent, kind, "", None, 0, 0, 0.0, [], None, None, None, Some(cost))
  }

  /** `sampleTasks`: four groups, each followed by its tasks and a closing milestone. */
  function SampleTasks(): seq<Task> {
    (Planning() + Development()) + (Testing() + Deployment())
  }

  function Planning(): seq<Task> {
    [ Sample(1, None, Some(Group), 0.0),
      Sample(11, Some(1), None, 75000000.0),
      Sample(12, Some(1), None, 120000000.0),
      Sample(13, Some(1), None, 52500000.0),
      Sample(14, Some(1), Some(Milestone), 0.0) ]
  }

  function Development(): seq<Task> {
    [ Sample(2, None, Some(Group), 0.0),
      Sample(21, Some(2), None, 225000000.0),
      Sample(22, Some(2), None, 270000000.0),
      Sample(23, Some(2), None, 112500000.0),
      Sample(24, Some(2), None, 90000000.0),
      Sample(25, Some(2), None, 60000000.0),
      Sample(26, Some(2), Some(Milestone), 0.0) ]
  }

  function Testing(): seq<Task> {
    [ Sample(3, None, Some(Group), 0.0),
      Sample(31, Some(3), None, 120000000.0),
      Sample(32, Some(3), None, 75000000.0),
      Sample(33, Some(3), None, 180000000.0),
      Sample(34, Some(3), Some(Milestone), 0.0) ]
  }

  function Deployment(): seq<Task> {
    [ Sample(4, None, Some(Group), 0.0),
      Sample(41, Some(4), None, 120000000.0),
      Sample(42, Some(4), None, 225000000.0),
      Sample(43, Some(4), None, 75000000.0),
      Sample(44, Some(4), Some(Milestone), 0.0) ]
  }

  /** A record whose parent, if found, has no parent itself starts a walk that ends. */
  lemma ChainOfShallow(t: Task, tasks: seq<Task>)
    requires Find(t.id, tasks) == Some(t)
    requires HasParent(t) ==> Find(t.parent.value, tasks).None? || !HasParent(Find(t.parent.value, tasks).value)
    ensures Chain(t.id, tasks, {}).Some?
  {
    if HasParent(t) {
      CardRemove(Ids(tasks), {}, t.id);
    }
  }

  /**
   * The sample's ids in list order, with each group's id read as ten times
   * itself, climb strictly; so no id repeats.
   */
  function SampleKey(id: int): int {
    if id < 10 then 10 * id else id
  }

  lemma PlanningKeys() ensures KeysIncreasing(Planning(), SampleKey) { }
  lemma DevelopmentKeys() ensures KeysIncreasing(Development(), SampleKey) { }
  lemma TestingKeys() ensures KeysIncreasing(Testing(), SampleKey) { }
  lemma DeploymentKeys() ensures KeysIncreasing(Deployment(), SampleKey) { }

  lemma SampleUnique()
    ensures UniqueIds(SampleTasks())
  {
    PlanningKeys();
    DevelopmentKeys();
    TestingKeys();
    DeploymentKeys();
    KeysIncreasingAppend(Planning(), Development(), SampleKey);
    KeysIncreasingAppend(Testing(), Deployment(), SampleKey);
    KeysIncreasingAppend(Planning() + Development(), Testing() + Deployment(), SampleKey);
    KeysIncreasingUnique(SampleTasks(), SampleKey);
  }

  /** A family of records all hanging from one parentless record of a list with unique ids. */
  lemma FamilyChains(family: seq<Task>, root: Task, tasks: seq<Task>)
    requires UniqueIds(tasks) && root in tasks && !HasParent(root)
    requires forall t | t in family :: t in tasks && (!HasParent(t) || t.parent == Some(root.id))
    ensures forall t | t in family :: Chain(t.id, tasks, {}).Some?
  {
    FindUnique(tasks, root);
    forall t | t in family
      ensures Chain(t.id, tasks, {}).Some?
    {
      FindUnique(tasks, t);
      ChainOfShallow(t, tasks);
    }
  }

  /** Every record has a positive id and either no parent or the parent `g`, checked record by record. */
  predicate AllHangFrom(tasks: seq<Task>, g: int) {
    tasks == [] ||
    (tasks[0].id > 0 && (!HasParent(tasks[0]) || tasks[0].parent == Some(g)) && AllHangFrom(tasks[1..], g))
  }

  lemma {:induction false} AllHangFromMember(tasks: seq<Task>, g: int, t: Task)
    requires AllHangFrom(tasks, g) && t in tasks
    ensures t.id > 0 && (!HasParent(t) || t.parent == Some(g))
  {
    if t != tasks[0] {
      AllHangFromMember(tasks[1..], g, t);
    }
  }

  lemma SampleFamily(family: seq<Task>, root: Task, tasks: seq<Task>)
    requires UniqueIds(tasks) && root in tasks && !HasParent(root)
    requires AllHangFrom(family, root.id) && forall t | t in family :: t in tasks
    ensures forall t | t in family :: t.id > 0 && Chain(t.id, tasks, {}).Some?
  {
    forall t | t in family
      ensures t.id > 0 && (!HasParent(t) || t.parent == Some(root.id))
    {
      AllHangFromMember(family, root.id, t);
    }
    FamilyChains(family, root, tasks);
  }

  /** Every record of one of four families is a record of the four laid end to end. */
  lemma InFamilies(a: seq<Task>, b: seq<Task>, c: seq<Task>, d: seq<Task>)
    ensures forall t | t in a :: t in (a + b) + (c + d)
    ensures forall t | t in b :: t in (a + b) + (c + d)
    ensures forall t | t in c :: t in (a + b) + (c + d)
    ensures forall t | t in d :: t in (a + b) + (c + d)
  {
  }

  lemma PlanningShape()
    ensures Planning()[0].id == 1 && !HasParent(Planning()[0]) && AllHangFrom(Planning(), 1)
  {
  }

  lemma PlanningChains()
    ensures forall t | t in Planning() :: t.id > 0 && Chain(t.id, SampleTasks(), {}).Some?
  {
    var s, f := SampleTasks(), Planning();
    assert UniqueIds(s) by { SampleUnique(); }
    assert forall t | t in f :: t in s by { InFamilies(Planning(), Development(), Testing(), Deployment()); }
    assert f[0].id == 1 && !HasParent(f[0]) && AllHangFrom(f, 1) by { PlanningShape(); }
    SampleFamily(f, f[0], s);
  }

  lemma DevelopmentShape()
    ensures Development()[0].id == 2 && !HasParent(Development()[0]) && AllHangFrom(Development(), 2)
  {
  }

  lemma DevelopmentChains()
    ensures forall t | t in Development() :: t.id > 0 && Chain(t.id, SampleTasks(), {}).Some?
  {
    var s, f := SampleTasks(), Development();
    assert UniqueIds(s) by { SampleUnique(); }
    assert forall t | t in f :: t in s by { InFamilies(Planning(), Development(), Testing(), Deployment()); }
    assert f[0].id == 2 && !HasParent(f[0]) && AllHangFrom(f, 2) by { DevelopmentShape(); }
    SampleFamily(f, f[0], s);
  }

  lemma TestingShape()
    ensures Testing()[0].id == 3 && !HasParent(Testing()[0]) && AllHangFrom(Testing(), 3)
  {
  }

  lemma TestingChains()
    ensures forall t | t in Testing() :: t.id > 0 && Chain(t.id, SampleTasks(), {}).Some?
  {
    var s, f := SampleTasks(), Testing();
    assert UniqueIds(s) by { SampleUnique(); }
    assert forall t | t in f :: t in s by { InFamilies(Planning(), Development(), Testing(), Deployment()); }
    assert f[0].id == 3 && !HasParent(f[0]) && AllHangFrom(f, 3) by { TestingShape(); }
    SampleFamily(f, f[0], s);
  }

  lemma DeploymentShape()
    ensures Deployment()[0].id == 4 && !HasParent(Deployment()[0]) && AllHangFrom(Deployment(), 4)
  {
  }

  lemma DeploymentChains()
    ensures forall t | t in Deployment() :: t.id > 0 && Chain(t.id, SampleTasks(), {}).Some?
  {
    var s, f := SampleTasks(), Deployment();
    assert UniqueIds(s) by { SampleUnique(); }
    assert forall t | t in f :: t in s by { InFamilies(Planning(), Development(), Testing(), Deployment()); }
    assert f[0].id == 4 && !HasParent(f[0]) && AllHangFrom(f, 4) by { DeploymentShape(); }
    SampleFamily(f, f[0], s);
  }

  lemma SampleCover(t: Task)
    requires t in SampleTasks()
    ensures t in Planning() || t in Development() || t in Testing() || t in Deployment()
  {
  }

  lemma SampleWellFormed()
    ensures WellFormed(SampleTasks())
  {
    SampleUnique();
    PlanningChains();
    DevelopmentChains();
    TestingChains();
    DeploymentChains();
    forall t | t in SampleTasks()
      ensures t.id > 0 && Chain(t.id, SampleTasks(), {}).Some?
    {
      SampleCover(t);
    }
  }

  /** The plain total of the stored costs, `cost || 0` each. */
  function StoredCosts(cs: seq<Task>): real {
    if cs == [] then 0.0 else StoredCosts(cs[..|cs| - 1]) + CostOrZero(cs[|cs| - 1])
  }

  /**
   * A group none of whose children is a group rolls up to the plain total of
   * its children's stored costs: milestones count like any other task.
   */
  lemma {:induction false} LeafChildrenSum(cs: seq<Task>, g: int, tasks: seq<Task>)
    requires WellFormed(tasks)
    requires forall c | c in cs :: c in tasks && c.parent == Some(g) && !IsGroup(c)
    ensures SumCosts(cs, g, tasks) == StoredCosts(cs)
  {
    if cs != [] {
      LeafChildrenSum(cs[..|cs| - 1], g, tasks);
    }
  }

  /** No record hangs from `g`, checked record by record. */
  predicate NoneHangFrom(tasks: seq<Task>, g: int) {
    tasks == [] || (tasks[0].parent != Some(g) && NoneHangFrom(tasks[1..], g))
  }

  lemma {:induction false} NoneHangFromChildren(tasks: seq<Task>, g: int)
    requires NoneHangFrom(tasks, g)
    ensures Children(g, tasks) == []
  {
    if tasks != [] {
      FilterCons(tasks, ChildOf(g));
      NoneHangFromChildren(tasks[1..], g);
    }
  }

  /** Every record is a non-group hanging from `g`, checked record by record. */
  predicate LeavesOf(tasks: seq<Task>, g: int) {
    tasks == [] || (tasks[0].parent == Some(g) && !IsGroup(tasks[0]) && LeavesOf(tasks[1..], g))
  }

  lemma {:induction false} LeavesOfChildren(tasks: seq<Task>, g: int)
    requires LeavesOf(tasks, g)
    ensures Children(g, tasks) == tasks
    ensures forall c | c in tasks :: !IsGroup(c)
  {
    if tasks != [] {
      FilterCons(tasks, ChildOf(g));
      LeavesOfChildren(tasks[1..], g);
      assert forall c | c in tasks :: c == tasks[0] || c in tasks[1..];
    }
  }

  lemma PlanningHead()
    ensures NoneHangFrom([Planning()[0]], 1)
  {
  }

  lemma PlanningLeaves()
    ensures LeavesOf(Planning()[1..], 1)
  {
  }

  lemma DeploymentHead()
    ensures NoneHangFrom([Deployment()[0]], 4)
  {
  }

  lemma DeploymentLeaves()
    ensures LeavesOf(Deployment()[1..], 4)
  {
  }

  lemma ChildrenOfPlanning()
    ensures Children(1, Planning()) == Planning()[1..]
    ensures forall c | c in Planning()[1..] :: !IsGroup(c)
  {
    var p := Planning();
    assert p == [p[0]] + p[1..];
    ChildrenAppend(1, [p[0]], p[1..]);
    PlanningHead();
    NoneHangFromChildren([p[0]], 1);
    PlanningLeaves();
    LeavesOfChildren(p[1..], 1);
  }

  lemma ChildrenOfDeployment()
    ensures Children(4, Deployment()) == Deployment()[1..]
    ensures forall c | c in Deployment()[1..] :: !IsGroup(c)
  {
    var d := Deployment();
    assert d == [d[0]] + d[1..];
    ChildrenAppend(4, [d[0]], d[1..]);
    DeploymentHead();
    NoneHangFromChildren([d[0]], 4);
    DeploymentLeaves();
    LeavesOfChildren(d[1..], 4);
  }

  lemma DevelopmentNotUnder1() ensures NoneHangFrom(Development(), 1) { }
  lemma TestingNotUnder1() ensures NoneHangFrom(Testing(), 1) { }
  lemma DeploymentNotUnder1() ensures NoneHangFrom(Deployment(), 1) { }
  lemma PlanningNotUnder4() ensures NoneHangFrom(Planning(), 4) { }
  lemma DevelopmentNotUnder4() ensures NoneHangFrom(Development(), 4) { }
  lemma TestingNotUnder4() ensures NoneHangFrom(Testing(), 4) { }

  /** The families other than Planning hold no child of group 1. */
  lemma NoPlanningChildElsewhere()
    ensures Children(1, Development()) == []
    ensures Children(1, Testing()) == []
    ensures Children(1, Deployment()) == []
  {
    DevelopmentNotUnder1();
    NoneHangFromChildren(Development(), 1);
    TestingNotUnder1();
    NoneHangFromChildren(Testing(), 1);
    DeploymentNotUnder1();
    NoneHangFromChildren(Deployment(), 1);
  }

  /** The families other than Deployment hold no child of group 4. */
  lemma NoDeploymentChildElsewhere()
    ensures Children(4, Planning()) == []
    ensures Children(4, Development()) == []
    ensures Children(4, Testing()) == []
  {
    PlanningNotUnder4();
    NoneHangFromChildren(Planning(), 4);
    DevelopmentNotUnder4();
    NoneHangFromChildren(Development(), 4);
    TestingNotUnder4();
    NoneHangFromChildren(Testing(), 4);
  }

  /**
   * The children of `g` in four families laid end to end, when only the first
   * (or only the last) family holds any.
   */
  lemma {:induction false} FamilyChildren(g: int, a: seq<Task>, b: seq<Task>, c: seq<Task>, d: seq<Task>, kids: seq<Task>)
    requires Children(g, b) == [] && Children(g, c) == []
    requires (Children(g, a) == kids && Children(g, d) == []) || (Children(g, a) == [] && Children(g, d) == kids)
    ensures Children(g, (a + b) + (c + d)) == kids
  {
    ChildrenAppend(g, a + b, c + d);
    ChildrenAppend(g, a, b);
    ChildrenAppend(g, c, d);
    if Children(g, a) == kids && Children(g, d) == [] {
      OneFamily(kids, Children(g, b), Children(g, c), Children(g, d));
    } else {
      OneFamily(kids, Children(g, a), Children(g, b), Children(g, c));
    }
  }

  lemma OneFamily<T>(x: seq<T>, a: seq<T>, b: seq<T>, c: seq<T>)
    requires a == [] && b == [] && c == []
    ensures (x + a) + (b + c) == x && (a + b) + (c + x) == x
  {
  }

  lemma PlanningChildrenInSample()
    ensures Children(1, SampleTasks()) == Planning()[1..]
  {
    ChildrenOfPlanning();
    NoPlanningChildElsewhere();
    FamilyChildren(1, Planning(), Development(), Testing(), Deployment(), Planning()[1..]);
  }

  lemma DeploymentChildrenInSample()
    ensures Children(4, SampleTasks()) == Deployment()[1..]
  {
    ChildrenOfDeployment();
    NoDeploymentChildElsewhere();
    FamilyChildren(4, Planning(), Development(), Testing(), Deployment(), Deployment()[1..]);
  }

  lemma PlanningLeafList()
    ensures Planning()[1..] == [ Sample(11, Some(1), None, 75000000.0), Sample(12, Some(1), None, 120000000.0),
                                 Sample(13, Some(1), None, 52500000.0), Sample(14, Some(1), Some(Milestone), 0.0) ]
  {
  }

  lemma DeploymentLeafList()
    ensures Deployment()[1..] == [ Sample(41, Some(4), None, 120000000.0), Sample(42, Some(4), None, 225000000.0),
                                   Sample(43, Some(4), None, 75000000.0), Sample(44, Some(4), Some(Milestone), 0.0) ]
  {
  }

  lemma StoredCostsOfFour(w: Task, x: Task, y: Task, z: Task)
    ensures StoredCosts([w, x, y, z]) == CostOrZero(w) + CostOrZero(x) + CostOrZero(y) + CostOrZero(z)
  {
    assert [w, x, y, z][..3] == [w, x, y];
    assert [w, x, y][..2] == [w, x];
    assert [w, x][..1] == [w];
    assert [w][..0] == [];
    assert StoredCosts([w]) == CostOrZero(w);
    assert StoredCosts([w, x]) == CostOrZero(w) + CostOrZero(x);
    assert StoredCosts([w, x, y]) == CostOrZero(w) + CostOrZero(x) + CostOrZero(y);
  }

  lemma PlanningStoredCosts()
    ensures StoredCosts(Planning()[1..]) == 247500000.0
  {
    PlanningLeafList();
    StoredCostsOfFour(Sample(11, Some(1), None, 75000000.0), Sample(12, Some(1), None, 120000000.0),
                      Sample(13, Some(1), None, 52500000.0), Sample(14, Some(1), Some(Milestone), 0.0));
  }

  lemma DeploymentStoredCosts()
    ensures StoredCosts(Deployment()[1..]) == 420000000.0
  {
    DeploymentLeafList();
    StoredCostsOfFour(Sample(41, Some(4), None, 120000000.0), Sample(42, Some(4), None, 225000000.0),
                      Sample(43, Some(4), None, 75000000.0), Sample(44, Some(4), Some(Milestone), 0.0));
  }

  lemma PlanningRollup()
    ensures WellFormed(SampleTasks())
    ensures GroupCost(1, SampleTasks()) == 247500000.0
  {
    SampleWellFormed();
    var cs := Planning()[1..];
    PlanningChildrenInSample();
    ChildrenOfPlanning();
    LeafChildrenSum(cs, 1, SampleTasks());
    PlanningStoredCosts();
  }

  lemma DeploymentRollup()
    ensures WellFormed(SampleTasks())
    ensures GroupCost(4, SampleTasks()) == 420000000.0
  {
    SampleWellFormed();
    var cs := Deployment()[1..];
    DeploymentChildrenInSample();
    ChildrenOfDeployment();
    LeafChildrenSum(cs, 4, SampleTasks());
    DeploymentStoredCosts();
  }

  /** The sample's first group rolls up to 247500000 and its last to 420000000. */
  lemma SampleRollups()
    ensures WellFormed(SampleTasks())
    ensures GroupCost(1, SampleTasks()) == 247500000.0
    ensures GroupCost(4, SampleTasks()) == 420000000.0
  {
    PlanningRollup();
    DeploymentRollup();
  }
}
