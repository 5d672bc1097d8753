/**
 * The cascading removal inside `deleteTask` (store/useAppStore.ts): remove the
 * records carrying an id, then, one child id after another, remove each child
 * together with its own children. The recursion needs no well-formedness to
 * end; on a well-formed list it removes exactly the id's subtree.
 */
module CascadeDelete {
  import opened Types
  import opened Forest
  import opened TaskUtils

  /** `tasks.filter((t) => t.parent === id).map((t) => t.id)`, in list order. */
  function ChildIds(tasks: seq<Task>, id: int): (r: seq<int>)
    ensures |r| <= |tasks|
  {
    if tasks == [] then []
    else (if tasks[0].parent == Some(id) then [tasks[0].id] else []) + ChildIds(tasks[1..], id)
  }

  /** The child ids are exactly the ids of the records whose parent is `id`. */
  lemma {:induction false} ChildIdsMembers(tasks: seq<Task>, id: int)
    ensures forall t | t in tasks && t.parent == Some(id) :: t.id in ChildIds(tasks, id)
    ensures forall c | c in ChildIds(tasks, id) :: exists t | t in tasks :: t.id == c && t.parent == Some(id)
  {
    if tasks != [] {
      ChildIdsMembers(tasks[1..], id);
      assert forall t | t in tasks :: t == tasks[0] || t in tasks[1..];
    }
  }

  lemma ChildIdsPresent(tasks: seq<Task>, id: int)
    ensures AllPresent(ChildIds(tasks, id), tasks)
  {
    ChildIdsMembers(tasks, id);
    forall c | c in ChildIds(tasks, id)
      ensures c in Ids(tasks)
    {
      var t :| t in tasks && t.id == c && t.parent == Some(id);
    }
  }

  /** Every id of the list is carried by some record. */
  ghost predicate AllPresent(ids: seq<int>, tasks: seq<Task>) {
    forall c | c in ids :: c in Ids(tasks)
  }

  /** Dropping one id either shortens the list or leaves it as it was, the id being absent. */
  lemma FilterOutOne(tasks: seq<Task>, id: int)
    ensures |FilterOut(tasks, {id})| < |tasks| || (FilterOut(tasks, {id}) == tasks && id !in Ids(tasks))
    ensures Ids(FilterOut(tasks, {id})) == Ids(tasks) - {id}
  {
    FilterOutIds(tasks, {id});
    if id in Ids(tasks) {
      var t :| t in tasks && t.id == id;
      FilterOutShorter(tasks, {id}, t);
    } else {
      FilterOutNone(tasks, {id});
    }
  }

  /**
   * `removeTaskAndChildren(tasks, id)`: every record with this id is dropped,
   * then each child id found in `tasks` is removed in turn from what is left.
   * The result is shorter, or the list itself.
   */
  function Prune(tasks: seq<Task>, id: int): (r: seq<Task>)
    ensures |r| < |tasks| || r == tasks
    decreases |tasks|, if id in Ids(tasks) then 0 else 2, 0
  {
    FilterOutOne(tasks, id);
    ChildIdsPresent(tasks, id);
    PruneEach(FilterOut(tasks, {id}), ChildIds(tasks, id))
  }

  /** The `forEach` over the child ids: each removal works on the previous one's result. */
  function PruneEach(tasks: seq<Task>, ids: seq<int>): (r: seq<Task>)
    ensures |r| < |tasks| || r == tasks
    decreases |tasks|, if AllPresent(ids, tasks) then 1 else 3, |ids|
  {
    if ids == [] then tasks
    else
      var init := ids[..|ids| - 1];
      assert forall c | c in init :: c in ids;
      Prune(PruneEach(tasks, init), ids[|ids| - 1])
  }

  /** One more child id: the `forEach` takes one more removal. */
  lemma PruneEachSnoc(tasks: seq<Task>, ids: seq<int>, i: nat)
    requires i < |ids|
    ensures PruneEach(tasks, ids[..i + 1]) == Prune(PruneEach(tasks, ids[..i]), ids[i])
  {
    assert ids[..i + 1][..i] == ids[..i];
  }

  /** The source's recursive function, with its `forEach` written as a loop. */
  method RemoveTaskAndChildren(tasks: seq<Task>, taskId: int) returns (filtered: seq<Task>)
    ensures filtered == Prune(tasks, taskId)
    decreases |tasks|, if taskId in Ids(tasks) then 0 else 2, 1
  {
    var childIds := ChildIds(tasks, taskId);
    FilterOutOne(tasks, taskId);
    ChildIdsPresent(tasks, taskId);
    var rest := FilterOut(tasks, {taskId});
    filtered := rest;
    var i := 0;
    while i < |childIds|
      invariant i <= |childIds|
      invariant filtered == PruneEach(rest, childIds[..i])
      invariant |filtered| < |tasks| || (filtered == tasks && taskId !in Ids(tasks))
    {
      PruneEachSnoc(rest, childIds, i);
      assert childIds[i] in Ids(tasks) by {
        assert childIds[i] in childIds;
      }
      filtered := RemoveTaskAndChildren(filtered, childIds[i]);
      i := i + 1;
    }
    assert childIds[..i] == childIds;
  }

  /**
   * On any list, cycles and repeated ids included, what is left is a sub-list
   * without the id and without any record naming it as parent.
   */
  lemma {:induction false} PruneSubset(tasks: seq<Task>, id: int)
    ensures forall t | t in Prune(tasks, id) :: t in tasks && t.id != id && t.parent != Some(id)
    ensures UniqueIds(tasks) ==> UniqueIds(Prune(tasks, id))
    decreases |tasks|, if id in Ids(tasks) then 0 else 2, 0
  {
    FilterOutOne(tasks, id);
    ChildIdsPresent(tasks, id);
    ChildIdsMembers(tasks, id);
    var rest := FilterOut(tasks, {id});
    PruneEachSubset(rest, ChildIds(tasks, id));
    if UniqueIds(tasks) {
      FilterOutUnique(tasks, {id});
    }
  }

  lemma {:induction false} PruneEachSubset(tasks: seq<Task>, ids: seq<int>)
    ensures forall t | t in PruneEach(tasks, ids) :: t in tasks && t.id !in ids
    ensures UniqueIds(tasks) ==> UniqueIds(PruneEach(tasks, ids))
    decreases |tasks|, if AllPresent(ids, tasks) then 1 else 3, |ids|
  {
    if ids != [] {
      var init, c := ids[..|ids| - 1], ids[|ids| - 1];
      assert forall x | x in init :: x in ids;
      PruneEachSubset(tasks, init);
      var left := PruneEach(tasks, init);
      PruneSubset(left, c);
      assert PruneEach(tasks, ids) == Prune(left, c);
      assert forall x | x in ids :: x in init || x == c;
    }
  }

  // ---------------------------------------------------------------------------
  // What the removal removes
  // ---------------------------------------------------------------------------

  /** The id itself and the ids of all records whose parent walk reaches it. */
  ghost function Subtree(tasks: seq<Task>, a: int): set<int>
    requires Acyclic(tasks)
  {
    {a} + set t | t in tasks && IsDescendantOf(t, a, tasks) :: t.id
  }

  lemma SubtreeMember(tasks: seq<Task>, a: int, t: Task)
    requires Acyclic(tasks) && UniqueIds(tasks) && t in tasks
    ensures t.id in Subtree(tasks, a) <==> t.id == a || IsDescendantOf(t, a, tasks)
  {
    if t.id in Subtree(tasks, a) && t.id != a {
      var u :| u in tasks && IsDescendantOf(u, a, tasks) && u.id == t.id;
      UniqueMembers(tasks, u, t);
    }
  }

  /** The union of the subtrees of a list of ids. */
  ghost function Union(tasks: seq<Task>, ids: seq<int>): set<int>
    requires Acyclic(tasks)
  {
    if ids == [] then {} else Union(tasks, ids[..|ids| - 1]) + Subtree(tasks, ids[|ids| - 1])
  }

  lemma {:induction false} UnionMember(tasks: seq<Task>, ids: seq<int>, x: int)
    requires Acyclic(tasks)
    ensures x in Union(tasks, ids) <==> exists c | c in ids :: x in Subtree(tasks, c)
  {
    if ids != [] {
      var init := ids[..|ids| - 1];
      UnionMember(tasks, init, x);
      assert ids == init + [ids[|ids| - 1]];
    }
  }

  /**
   * A set of removed ids is closed below `r` when the children of every id in
   * it other than `r` are in it too.
   */
  ghost predicate ClosedBelow(tasks: seq<Task>, s: set<int>, r: int) {
    forall x | x in tasks && x.parent.Some? && x.parent.value in s && x.parent.value != r :: x.id in s
  }

  /** The record with id `c` is in the list and is a child of `r`. */
  ghost predicate ChildOfIn(c: int, r: int, tasks: seq<Task>) {
    Find(c, tasks).Some? && Find(c, tasks).value.parent == Some(r)
  }

  /** A descent in a sub-list is a descent in the full list. */
  lemma {:induction false} DescentInSublist(t: Task, c: int, sub: seq<Task>, tasks: seq<Task>)
    requires UniqueIds(tasks) && Acyclic(tasks) && Acyclic(sub) && forall u | u in sub :: u in tasks
    requires IsDescendantOf(t, c, sub)
    ensures IsDescendantOf(t, c, tasks)
    decreases Up(t, sub)
  {
    if t.parent != Some(c) {
      var p := Find(t.parent.value, sub).value;
      LevelStep(t.parent.value, sub, p);
      DescentInSublist(p, c, sub, tasks);
      FindUnique(tasks, p);
    }
  }

  /** Below a child of `r`, no walk passes through `r` again. */
  lemma NotThroughRoot(p: Task, c: int, r: int, tasks: seq<Task>)
    requires WellFormed(tasks) && ChildOfIn(c, r, tasks)
    requires p in tasks && IsDescendantOf(p, c, tasks)
    ensures p.id != r
  {
    var cr := Find(c, tasks).value;
    FindUnique(tasks, p);
    if p.id == r {
      DescendantTransitive(p, cr, r, tasks);
      NoSelfDescent(p, tasks);
    }
  }

  /** A child of `r` is not `r` itself. */
  lemma ChildNotRoot(c: int, r: int, tasks: seq<Task>)
    requires WellFormed(tasks) && ChildOfIn(c, r, tasks)
    ensures c != r
  {
    var cr := Find(c, tasks).value;
    if c == r {
      NoSelfDescent(cr, tasks);
    }
  }

  /** When `c` was already removed, so was everything below it. */
  lemma {:induction false} SubtreeInside(t: Task, c: int, r: int, s: set<int>, tasks: seq<Task>)
    requires WellFormed(tasks) && ClosedBelow(tasks, s, r) && ChildOfIn(c, r, tasks)
    requires c in s && c != r
    requires t in tasks && IsDescendantOf(t, c, tasks)
    ensures t.id in s
    decreases Up(t, tasks)
  {
    if t.parent != Some(c) {
      var p := Find(t.parent.value, tasks).value;
      LevelStep(t.parent.value, tasks, p);
      SubtreeInside(p, c, r, s, tasks);
      NotThroughRoot(p, c, r, tasks);
    }
  }

  /** When `c` was not removed, every walk from a kept record up to `c` is still whole. */
  lemma {:induction false} DescentKept(t: Task, c: int, r: int, s: set<int>, tasks: seq<Task>)
    requires WellFormed(tasks) && ClosedBelow(tasks, s, r) && ChildOfIn(c, r, tasks)
    requires r in s && c !in s
    requires t in tasks && t.id !in s && IsDescendantOf(t, c, tasks)
    ensures Acyclic(FilterOut(tasks, s)) && IsDescendantOf(t, c, FilterOut(tasks, s))
    decreases Up(t, tasks)
  {
    var kept := FilterOut(tasks, s);
    WellFormedFilterOut(tasks, s);
    if t.parent != Some(c) {
      var p := Find(t.parent.value, tasks).value;
      LevelStep(t.parent.value, tasks, p);
      NotThroughRoot(p, c, r, tasks);
      DescentKept(p, c, r, s, tasks);
      FindUnique(kept, p);
    }
  }

  /** Removing `c`'s subtree from what is left removes the subtree `c` has in the full list. */
  lemma StepAgree(tasks: seq<Task>, s: set<int>, r: int, c: int)
    requires WellFormed(tasks) && r in s && ClosedBelow(tasks, s, r) && ChildOfIn(c, r, tasks)
    ensures Acyclic(FilterOut(tasks, s))
    ensures forall t | t in tasks ::
      t.id in s + Subtree(FilterOut(tasks, s), c) <==> t.id in s + Subtree(tasks, c)
  {
    var kept := FilterOut(tasks, s);
    WellFormedFilterOut(tasks, s);
    ChildNotRoot(c, r, tasks);
    forall t | t in tasks && t.id !in s
      ensures t.id in Subtree(kept, c) <==> t.id in Subtree(tasks, c)
    {
      SubtreeMember(kept, c, t);
      SubtreeMember(tasks, c, t);
      if IsDescendantOf(t, c, kept) {
        DescentInSublist(t, c, kept, tasks);
      }
      if IsDescendantOf(t, c, tasks) {
        if c in s {
          SubtreeInside(t, c, r, s, tasks);
        } else {
          DescentKept(t, c, r, s, tasks);
        }
      }
    }
  }

  /** Adding `c`'s subtree keeps the removed set closed below `r`. */
  lemma ClosedStep(tasks: seq<Task>, s: set<int>, r: int, c: int)
    requires WellFormed(tasks) && ClosedBelow(tasks, s, r)
    ensures ClosedBelow(tasks, s + Subtree(tasks, c), r)
  {
    forall x | x in tasks && x.parent.Some? && x.parent.value in Subtree(tasks, c) && x.parent.value != c
      ensures IsDescendantOf(x, c, tasks)
    {
      var q := x.parent.value;
      var u :| u in tasks && IsDescendantOf(u, c, tasks) && u.id == q;
      FindUnique(tasks, u);
    }
  }

  /** One step of the `forEach`: removing `c`'s subtree from what is left, given how `Prune` acts there. */
  lemma PruneStep(tasks: seq<Task>, r: int, s: set<int>, c: int)
    requires WellFormed(tasks) && r in s && ClosedBelow(tasks, s, r) && ChildOfIn(c, r, tasks)
    requires WellFormed(FilterOut(tasks, s))
    requires Prune(FilterOut(tasks, s), c) == FilterOut(FilterOut(tasks, s), Subtree(FilterOut(tasks, s), c))
    ensures Prune(FilterOut(tasks, s), c) == FilterOut(tasks, s + Subtree(tasks, c))
    ensures ClosedBelow(tasks, s + Subtree(tasks, c), r)
  {
    var left := FilterOut(tasks, s);
    FilterOutTwice(tasks, s, Subtree(left, c));
    StepAgree(tasks, s, r, c);
    FilterOutAgree(tasks, s + Subtree(left, c), s + Subtree(tasks, c));
    ClosedStep(tasks, s, r, c);
  }

  /** The last child's step, stated on the whole list of child ids. */
  lemma PruneEachStep(tasks: seq<Task>, r: int, s: set<int>, ids: seq<int>)
    requires WellFormed(tasks) && r in s && ids != [] && ChildOfIn(ids[|ids| - 1], r, tasks)
    requires ClosedBelow(tasks, s + Union(tasks, ids[..|ids| - 1]), r)
    requires PruneEach(FilterOut(tasks, s), ids[..|ids| - 1]) == FilterOut(tasks, s + Union(tasks, ids[..|ids| - 1]))
    requires WellFormed(FilterOut(tasks, s + Union(tasks, ids[..|ids| - 1])))
    requires var left := FilterOut(tasks, s + Union(tasks, ids[..|ids| - 1]));
      Prune(left, ids[|ids| - 1]) == FilterOut(left, Subtree(left, ids[|ids| - 1]))
    ensures PruneEach(FilterOut(tasks, s), ids) == FilterOut(tasks, s + Union(tasks, ids))
    ensures ClosedBelow(tasks, s + Union(tasks, ids), r)
  {
    var init, c := ids[..|ids| - 1], ids[|ids| - 1];
    var s1 := s + Union(tasks, init);
    PruneStep(tasks, r, s1, c);
    assert s + Union(tasks, ids) == s1 + Subtree(tasks, c);
  }

  /** Removing the children's subtrees one after another, from a list closed below `r`. */
  lemma {:induction false} PruneEachSubtree(tasks: seq<Task>, r: int, s: set<int>, ids: seq<int>)
    requires WellFormed(tasks) && r in s && ClosedBelow(tasks, s, r)
    requires forall c | c in ids :: ChildOfIn(c, r, tasks)
    ensures PruneEach(FilterOut(tasks, s), ids) == FilterOut(tasks, s + Union(tasks, ids))
    ensures ClosedBelow(tasks, s + Union(tasks, ids), r)
    decreases |FilterOut(tasks, s)|, if AllPresent(ids, FilterOut(tasks, s)) then 1 else 3, |ids|
  {
    if ids == [] {
      assert s + Union(tasks, ids) == s;
    } else {
      var init, c := ids[..|ids| - 1], ids[|ids| - 1];
      assert forall x | x in init :: x in ids;
      PruneEachSubtree(tasks, r, s, init);
      var s1 := s + Union(tasks, init);
      var left := FilterOut(tasks, s1);
      assert left == PruneEach(FilterOut(tasks, s), init);
      assert |left| < |FilterOut(tasks, s)| || left == FilterOut(tasks, s);
      assert c in ids;
      WellFormedFilterOut(tasks, s1);
      PruneSubtree(left, c);
      PruneEachStep(tasks, r, s, ids);
    }
  }

  /** Every descendant of `a` lies in the subtree of one of `a`'s children. */
  lemma {:induction false} DescentThroughChild(t: Task, a: int, tasks: seq<Task>)
    requires WellFormed(tasks) && t in tasks && IsDescendantOf(t, a, tasks)
    ensures t.id in Union(tasks, ChildIds(tasks, a))
    decreases Up(t, tasks)
  {
    var cs := ChildIds(tasks, a);
    ChildIdsMembers(tasks, a);
    if t.parent == Some(a) {
      SubtreeMember(tasks, t.id, t);
      UnionMember(tasks, cs, t.id);
    } else {
      var p := Find(t.parent.value, tasks).value;
      LevelStep(t.parent.value, tasks, p);
      DescentThroughChild(p, a, tasks);
      UnionMember(tasks, cs, p.id);
      var c :| c in cs && p.id in Subtree(tasks, c);
      SubtreeMember(tasks, c, p);
      FindUnique(tasks, p);
      assert IsDescendantOf(t, c, tasks);
      SubtreeMember(tasks, c, t);
      UnionMember(tasks, cs, t.id);
    }
  }

  /** The subtrees of `a`'s children hold only descendants of `a`. */
  lemma ThroughChildIsDescent(t: Task, a: int, c: int, tasks: seq<Task>)
    requires WellFormed(tasks) && t in tasks && c in ChildIds(tasks, a) && t.id in Subtree(tasks, c)
    ensures IsDescendantOf(t, a, tasks)
  {
    ChildIdsMembers(tasks, a);
    var cr :| cr in tasks && cr.id == c && cr.parent == Some(a);
    FindUnique(tasks, cr);
    SubtreeMember(tasks, c, t);
    if t.id == c {
      UniqueMembers(tasks, t, cr);
    } else {
      DescendantTransitive(t, cr, a, tasks);
    }
  }

  lemma FinalAgree(tasks: seq<Task>, a: int)
    requires WellFormed(tasks)
    ensures forall t | t in tasks ::
      t.id in {a} + Union(tasks, ChildIds(tasks, a)) <==> t.id in Subtree(tasks, a)
  {
    var cs := ChildIds(tasks, a);
    forall t | t in tasks
      ensures t.id in {a} + Union(tasks, cs) <==> t.id in Subtree(tasks, a)
    {
      SubtreeMember(tasks, a, t);
      UnionMember(tasks, cs, t.id);
      if IsDescendantOf(t, a, tasks) {
        DescentThroughChild(t, a, tasks);
      }
      if t.id in Union(tasks, cs) {
        var c :| c in cs && t.id in Subtree(tasks, c);
        ThroughChildIsDescent(t, a, c, tasks);
      }
    }
  }

  /**
   * On a well-formed list the removal drops exactly the records with the id
   * and every record whose parent walk reaches it, and keeps the rest in order.
   */
  lemma {:induction false} PruneSubtree(tasks: seq<Task>, a: int)
    requires WellFormed(tasks)
    ensures Prune(tasks, a) == FilterOut(tasks, Subtree(tasks, a))
    decreases |tasks|, if a in Ids(tasks) then 0 else 2, 0
  {
    var cs := ChildIds(tasks, a);
    FilterOutOne(tasks, a);
    ChildIdsPresent(tasks, a);
    ChildIdsMembers(tasks, a);
    forall c | c in cs
      ensures ChildOfIn(c, a, tasks)
    {
      var cr :| cr in tasks && cr.id == c && cr.parent == Some(a);
      FindUnique(tasks, cr);
    }
    PruneEachSubtree(tasks, a, {a}, cs);
    FinalAgree(tasks, a);
    FilterOutAgree(tasks, {a} + Union(tasks, cs), Subtree(tasks, a));
  }

  /**
   * On a well-formed list a record survives the removal exactly when it is
   * neither the removed task nor below it, and what is left is well-formed.
   */
  lemma PruneKeeps(tasks: seq<Task>, a: int)
    requires WellFormed(tasks)
    ensures WellFormed(Prune(tasks, a))
    ensures forall t :: t in Prune(tasks, a) <==> t in tasks && t.id != a && !IsDescendantOf(t, a, tasks)
  {
    PruneSubtree(tasks, a);
    WellFormedFilterOut(tasks, Subtree(tasks, a));
    forall t | t in tasks
      ensures t.id in Subtree(tasks, a) <==> t.id == a || IsDescendantOf(t, a, tasks)
    {
      SubtreeMember(tasks, a, t);
    }
  }

  /** Nothing left after the removal hangs from the removed task. */
  lemma PruneLeavesNoChildren(tasks: seq<Task>, a: int)
    requires WellFormed(tasks)
    ensures forall t | t in Prune(tasks, a) :: t.parent != Some(a)
  {
    PruneKeeps(tasks, a);
  }

  /** Removing an id no record carries or points to leaves the list as it was. */
  lemma PruneAbsent(tasks: seq<Task>, a: int)
    requires a !in Ids(tasks)
    requires forall t | t in tasks :: t.parent != Some(a)
    ensures Prune(tasks, a) == tasks
  {
    FilterOutNone(tasks, {a});
    NoChildIds(tasks, a);
  }

  lemma {:induction false} NoChildIds(tasks: seq<Task>, a: int)
    requires forall t | t in tasks :: t.parent != Some(a)
    ensures ChildIds(tasks, a) == []
  {
    if tasks != [] {
      assert tasks[0] in tasks;
      NoChildIds(tasks[1..], a);
    }
  }
}
