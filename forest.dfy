/**
 * Lookup by id and the shape of the parent relation over a flat task list.
 *
 * The source walks parent links with no cycle guard. Here a walk is measured
 * by Chain, which follows `parent` through `Find` while remembering the ids it
 * has visited: it is None exactly when the walk would come back to a visited
 * id. A list is Acyclic when no walk starting at one of its records does, and
 * Level(id) (the number of records on the walk) is the measure that every
 * recursive walk of the model decreases.
 */
module Forest {
  import opened Types

  /** JavaScript truthiness of `task.parent`: absent and 0 both read as "no parent". */
  predicate HasParent(t: Task) {
    t.parent.Some? && t.parent.value != 0
  }

  /** `tasks.find((t) => t.id === id)`: the first record with that id. */
  function Find(id: int, tasks: seq<Task>): (r: Option<Task>)
    ensures r.Some? ==> r.value in tasks && r.value.id == id
    ensures r.None? <==> forall t | t in tasks :: t.id != id
  {
    if tasks == [] then None
    else if tasks[0].id == id then Some(tasks[0])
    else Find(id, tasks[1..])
  }

  /** `tasks.findIndex((t) => t.id === id)`, with None for -1. */
  function FindIndex(id: int, tasks: seq<Task>): (r: Option<nat>)
    ensures r.Some? ==> r.value < |tasks| && tasks[r.value].id == id
    ensures r.Some? ==> forall k | 0 <= k < r.value :: tasks[k].id != id
    ensures r.None? <==> forall t | t in tasks :: t.id != id
  {
    if tasks == [] then None
    else if tasks[0].id == id then Some(0)
    else match FindIndex(id, tasks[1..])
      case None => None
      case Some(k) => Some(k + 1)
  }

  /** `find` returns the record at the index `findIndex` reports. */
  lemma {:induction false} FindAtFindIndex(id: int, tasks: seq<Task>)
    ensures FindIndex(id, tasks).Some? <==> Find(id, tasks).Some?
    ensures FindIndex(id, tasks).Some? ==> Find(id, tasks) == Some(tasks[FindIndex(id, tasks).value])
  {
    if tasks != [] && tasks[0].id != id {
      FindAtFindIndex(id, tasks[1..]);
    }
  }

  function Ids(tasks: seq<Task>): set<int> {
    set t | t in tasks :: t.id
  }

  /** No two records of the list share an id. */
  predicate UniqueIds(tasks: seq<Task>) {
    tasks == [] || (tasks[0].id !in Ids(tasks[1..]) && UniqueIds(tasks[1..]))
  }

  predicate PositiveIds(tasks: seq<Task>) {
    forall t | t in tasks :: t.id > 0
  }

  lemma {:induction false} UniqueMembers(tasks: seq<Task>, a: Task, b: Task)
    requires UniqueIds(tasks) && a in tasks && b in tasks && a.id == b.id
    ensures a == b
  {
    if a != tasks[0] && b != tasks[0] {
      UniqueMembers(tasks[1..], a, b);
    }
  }

  /** With unique ids, `find` returns the one record carrying the id. */
  lemma FindUnique(tasks: seq<Task>, r: Task)
    requires UniqueIds(tasks) && r in tasks
    ensures Find(r.id, tasks) == Some(r)
  {
    UniqueMembers(tasks, r, Find(r.id, tasks).value);
  }

  lemma CardRemove(a: set<int>, seen: set<int>, id: int)
    requires id in a && id !in seen
    ensures |a - (seen + {id})| < |a - seen|
  {
    assert a - seen == (a - (seen + {id})) + {id};
  }

  /**
   * The parent walk from the record with this id: the number of records met
   * before a parentless record or a missing parent id ends it, or None when it
   * returns to an id in `seen`.
   */
  ghost function Chain(id: int, tasks: seq<Task>, seen: set<int>): Option<nat>
    decreases |Ids(tasks) - seen|
  {
    match Find(id, tasks)
    case None => Some(0)
    case Some(r) =>
      if id in seen then None
      else if !HasParent(r) then Some(1)
      else
        CardRemove(Ids(tasks), seen, id);
        match Chain(r.parent.value, tasks, seen + {id})
        case None => None
        case Some(n) => Some(n + 1)
  }

  /** No parent walk starting at a record of the list comes back on itself. */
  ghost predicate Acyclic(tasks: seq<Task>) {
    forall t | t in tasks :: Chain(t.id, tasks, {}).Some?
  }

  ghost predicate WellFormed(tasks: seq<Task>) {
    UniqueIds(tasks) && PositiveIds(tasks) && Acyclic(tasks)
  }

  /** The number of records on the parent walk from `id`; 0 for an id not in the list. */
  ghost function Level(id: int, tasks: seq<Task>): nat {
    match Chain(id, tasks, {})
    case Some(n) => n
    case None => 0
  }

  /** The level of a record's parent, or 0 when the record has no parent. */
  ghost function Up(t: Task, tasks: seq<Task>): nat {
    if HasParent(t) then Level(t.parent.value, tasks) else 0
  }

  lemma {:induction false} ChainSmallerSeen(id: int, tasks: seq<Task>, seen: set<int>, seen': set<int>)
    requires seen' <= seen
    requires Chain(id, tasks, seen).Some?
    ensures Chain(id, tasks, seen') == Chain(id, tasks, seen)
    decreases |Ids(tasks) - seen|
  {
    match Find(id, tasks)
    case None =>
    case Some(r) =>
      if HasParent(r) {
        CardRemove(Ids(tasks), seen, id);
        ChainSmallerSeen(r.parent.value, tasks, seen + {id}, seen' + {id});
      }
  }

  lemma {:induction false} ChainBound(id: int, tasks: seq<Task>, seen: set<int>)
    requires Chain(id, tasks, seen).Some?
    ensures Chain(id, tasks, seen).value <= |Ids(tasks) - seen|
    decreases |Ids(tasks) - seen|
  {
    match Find(id, tasks)
    case None =>
    case Some(r) =>
      assert id in Ids(tasks) - seen;
      if HasParent(r) {
        CardRemove(Ids(tasks), seen, id);
        ChainBound(r.parent.value, tasks, seen + {id});
      }
  }

  /** A found record's level is one more than its parent's level. */
  lemma LevelStep(id: int, tasks: seq<Task>, r: Task)
    requires Acyclic(tasks) && Find(id, tasks) == Some(r)
    ensures Level(id, tasks) == 1 + Up(r, tasks)
    ensures Level(id, tasks) <= |Ids(tasks)|
  {
    assert Chain(r.id, tasks, {}).Some?;
    ChainBound(id, tasks, {});
    if HasParent(r) {
      ChainSmallerSeen(r.parent.value, tasks, {id}, {});
    }
  }

  lemma LevelBound(id: int, tasks: seq<Task>)
    requires Acyclic(tasks)
    ensures Level(id, tasks) <= |Ids(tasks)|
  {
    match Find(id, tasks)
    case None =>
    case Some(r) => LevelStep(id, tasks, r);
  }

  /** The records whose id is not among the dropped ids, in list order: what every removal in the store leaves. */
  function FilterOut(tasks: seq<Task>, drop: set<int>): (r: seq<Task>)
    ensures |r| <= |tasks|
    ensures forall t :: t in r <==> t in tasks && t.id !in drop
  {
    if tasks == [] then []
    else (if tasks[0].id in drop then [] else [tasks[0]]) + FilterOut(tasks[1..], drop)
  }

  lemma FilterOutIds(tasks: seq<Task>, drop: set<int>)
    ensures Ids(FilterOut(tasks, drop)) == Ids(tasks) - drop
  {
  }

  lemma {:induction false} FilterOutTwice(tasks: seq<Task>, d1: set<int>, d2: set<int>)
    ensures FilterOut(FilterOut(tasks, d1), d2) == FilterOut(tasks, d1 + d2)
  {
    if tasks != [] {
      FilterOutTwice(tasks[1..], d1, d2);
      var rest := FilterOut(tasks[1..], d1);
      if tasks[0].id !in d1 {
        assert FilterOut(tasks, d1) == [tasks[0]] + rest;
        assert FilterOut(tasks, d1)[1..] == rest;
      } else {
        assert FilterOut(tasks, d1) == rest;
      }
    }
  }

  /** Two drop sets that agree on the ids present drop the same records. */
  lemma {:induction false} FilterOutAgree(tasks: seq<Task>, d1: set<int>, d2: set<int>)
    requires forall t | t in tasks :: t.id in d1 <==> t.id in d2
    ensures FilterOut(tasks, d1) == FilterOut(tasks, d2)
  {
    if tasks != [] {
      FilterOutAgree(tasks[1..], d1, d2);
    }
  }

  lemma {:induction false} FilterOutNone(tasks: seq<Task>, drop: set<int>)
    requires forall t | t in tasks :: t.id !in drop
    ensures FilterOut(tasks, drop) == tasks
  {
    if tasks != [] {
      FilterOutNone(tasks[1..], drop);
    }
  }

  lemma {:induction false} FilterOutShorter(tasks: seq<Task>, drop: set<int>, t: Task)
    requires t in tasks && t.id in drop
    ensures |FilterOut(tasks, drop)| < |tasks|
  {
    if tasks[0] != t {
      FilterOutShorter(tasks[1..], drop, t);
    }
  }

  lemma {:induction false} FilterOutUnique(tasks: seq<Task>, drop: set<int>)
    requires UniqueIds(tasks)
    ensures UniqueIds(FilterOut(tasks, drop))
  {
    if tasks != [] {
      FilterOutUnique(tasks[1..], drop);
      var rest := FilterOut(tasks[1..], drop);
      if tasks[0].id !in drop {
        FilterOutIds(tasks[1..], drop);
        assert tasks[0].id !in Ids(rest);
        var r := [tasks[0]] + rest;
        assert r[1..] == rest;
        assert UniqueIds(r);
        assert FilterOut(tasks, drop) == r;
      } else {
        assert FilterOut(tasks, drop) == rest;
      }
    }
  }

  /** A walk in a sub-list follows the same records as in the full list, so it cannot loop either. */
  lemma {:induction false} ChainOfSublist(id: int, sub: seq<Task>, tasks: seq<Task>, seen: set<int>)
    requires UniqueIds(tasks) && forall t | t in sub :: t in tasks
    requires Chain(id, tasks, seen).Some?
    ensures Chain(id, sub, seen).Some?
    decreases |Ids(sub) - seen|
  {
    match Find(id, sub)
    case None =>
    case Some(r) =>
      FindUnique(tasks, r);
      if HasParent(r) {
        CardRemove(Ids(sub), seen, id);
        ChainOfSublist(r.parent.value, sub, tasks, seen + {id});
      }
  }

  lemma AcyclicSublist(sub: seq<Task>, tasks: seq<Task>)
    requires UniqueIds(tasks) && Acyclic(tasks) && forall t | t in sub :: t in tasks
    ensures Acyclic(sub)
  {
    forall t | t in sub
      ensures Chain(t.id, sub, {}).Some?
    {
      ChainOfSublist(t.id, sub, tasks, {});
    }
  }

  lemma WellFormedFilterOut(tasks: seq<Task>, drop: set<int>)
    requires WellFormed(tasks)
    ensures WellFormed(FilterOut(tasks, drop))
  {
    FilterOutUnique(tasks, drop);
    AcyclicSublist(FilterOut(tasks, drop), tasks);
  }

  /** `tasks.filter(keep)`: the records that pass, in list order. */
  function Filter(tasks: seq<Task>, keep: Task -> bool): (r: seq<Task>)
    ensures |r| <= |tasks|
    ensures forall t :: t in r <==> t in tasks && keep(t)
  {
    if tasks == [] then []
    else (if keep(tasks[0]) then [tasks[0]] else []) + Filter(tasks[1..], keep)
  }

  /** Filtering keeps list order: it distributes over concatenation. */
  lemma {:induction false} FilterAppend(a: seq<Task>, b: seq<Task>, keep: Task -> bool)
    ensures Filter(a + b, keep) == Filter(a, keep) + Filter(b, keep)
  {
    if a == [] {
      assert a + b == b;
    } else {
      var head := if keep(a[0]) then [a[0]] else [];
      assert (a + b)[0] == a[0];
      assert (a + b)[1..] == a[1..] + b;
      FilterAppend(a[1..], b, keep);
      assert Filter(a + b, keep) == head + Filter(a[1..] + b, keep);
      assert Filter(a, keep) == head + Filter(a[1..], keep);
    }
  }

  lemma FilterCons(tasks: seq<Task>, keep: Task -> bool)
    requires tasks != []
    ensures Filter(tasks, keep) == (if keep(tasks[0]) then [tasks[0]] else []) + Filter(tasks[1..], keep)
  {
  }

  /** `findIndex` skips a prefix that holds no record with the id. */
  lemma {:induction false} FindIndexAfter(id: int, a: seq<Task>, b: seq<Task>)
    requires forall t | t in a :: t.id != id
    requires b != [] && b[0].id == id
    ensures FindIndex(id, a + b) == Some(|a|)
  {
    if a == [] {
      assert a + b == b;
    } else {
      assert (a + b)[0] == a[0];
      assert (a + b)[1..] == a[1..] + b;
      FindIndexAfter(id, a[1..], b);
    }
  }

  /**
   * The position of a kept record among the kept records is the number of kept
   * records before it in the full list.
   */
  lemma FilterFindIndex(tasks: seq<Task>, keep: Task -> bool, i: nat)
    requires i < |tasks| && keep(tasks[i])
    requires forall k | 0 <= k < i :: tasks[k].id != tasks[i].id
    ensures FindIndex(tasks[i].id, Filter(tasks, keep)) == Some(|Filter(tasks[..i], keep)|)
  {
    var id := tasks[i].id;
    assert tasks == tasks[..i] + tasks[i..];
    FilterAppend(tasks[..i], tasks[i..], keep);
    FilterCons(tasks[i..], keep);
    var before := Filter(tasks[..i], keep);
    forall t | t in before
      ensures t.id != id
    {
      assert t in tasks[..i];
    }
    FindIndexAfter(id, before, Filter(tasks[i..], keep));
  }

  /**
   * The parent ids met walking up from a record: its truthy parent id, then
   * (when that record exists) that record's parent id, and so on.
   */
  function Ancestors(t: Task, tasks: seq<Task>): (r: seq<int>)
    requires Acyclic(tasks)
    ensures r == [] <==> !HasParent(t)
    ensures Up(t, tasks) <= |r| <= Up(t, tasks) + 1
    decreases Up(t, tasks)
  {
    if !HasParent(t) then []
    else
      match Find(t.parent.value, tasks)
      case None => [t.parent.value]
      case Some(p) =>
        LevelStep(t.parent.value, tasks, p);
        [t.parent.value] + Ancestors(p, tasks)
  }

  /**
   * In a well-formed list, a record one step below `g` sits one level deeper
   * than `g`; for g = 0 both sides count from the absent record 0.
   */
  lemma ChildLevel(c: Task, g: int, tasks: seq<Task>)
    requires WellFormed(tasks) && c in tasks && c.parent == Some(g)
    ensures Level(c.id, tasks) == 1 + Level(g, tasks)
  {
    FindUnique(tasks, c);
    LevelStep(c.id, tasks, c);
    if g == 0 {
      assert Find(0, tasks).None?;
    }
  }

  // ---------------------------------------------------------------------------
  // Lists with the same shape: the same ids and parents, position by position
  // ---------------------------------------------------------------------------

  predicate SameShape(a: seq<Task>, b: seq<Task>) {
    |a| == |b| &&
    forall i | 0 <= i < |a| :: a[i].id == b[i].id && a[i].parent == b[i].parent
  }

  lemma {:induction false} FindIndexSameShape(id: int, a: seq<Task>, b: seq<Task>)
    requires SameShape(a, b)
    ensures FindIndex(id, a) == FindIndex(id, b)
  {
    if a != [] {
      assert SameShape(a[1..], b[1..]) by {
        forall i | 0 <= i < |a| - 1
          ensures a[1..][i].id == b[1..][i].id && a[1..][i].parent == b[1..][i].parent
        {
          assert a[1..][i] == a[i + 1] && b[1..][i] == b[i + 1];
        }
      }
      FindIndexSameShape(id, a[1..], b[1..]);
    }
  }

  /** Lists of one shape find records of one shape. */
  lemma FindSameShape(id: int, a: seq<Task>, b: seq<Task>)
    requires SameShape(a, b)
    ensures Find(id, a).None? <==> Find(id, b).None?
    ensures Find(id, a).Some? ==> Find(id, a).value.parent == Find(id, b).value.parent
  {
    FindIndexSameShape(id, a, b);
    FindAtFindIndex(id, a);
    FindAtFindIndex(id, b);
  }

  /** The same ids, position by position; the other fields may differ. */
  predicate SameIdSeq(a: seq<Task>, b: seq<Task>) {
    |a| == |b| && forall i | 0 <= i < |a| :: a[i].id == b[i].id
  }

  lemma IdsSameIdSeq(a: seq<Task>, b: seq<Task>)
    requires SameIdSeq(a, b)
    ensures Ids(a) == Ids(b)
  {
    forall x | x in Ids(a)
      ensures x in Ids(b)
    {
      var t :| t in a && t.id == x;
      var i :| 0 <= i < |a| && a[i] == t;
      assert b[i] in b;
    }
    forall x | x in Ids(b)
      ensures x in Ids(a)
    {
      var t :| t in b && t.id == x;
      var i :| 0 <= i < |b| && b[i] == t;
      assert a[i] in a;
    }
  }

  /** The two lists agree on whether `x` is found, and on the parent of what is found. */
  ghost predicate SameAt(x: int, a: seq<Task>, b: seq<Task>) {
    (Find(x, a).None? <==> Find(x, b).None?) &&
    (Find(x, a).Some? ==> Find(x, a).value.parent == Find(x, b).value.parent)
  }

  /** Two lists that answer every lookup with records of the same parent. */
  ghost predicate SameLookup(a: seq<Task>, b: seq<Task>) {
    forall x :: SameAt(x, a, b)
  }

  lemma SameShapeLookup(a: seq<Task>, b: seq<Task>)
    requires SameShape(a, b)
    ensures SameLookup(a, b)
  {
    forall x
      ensures SameAt(x, a, b)
    {
      FindSameShape(x, a, b);
    }
  }

  lemma {:induction false} ChainSameShape(id: int, a: seq<Task>, b: seq<Task>, seen: set<int>)
    requires SameLookup(a, b)
    ensures Chain(id, a, seen) == Chain(id, b, seen)
    decreases |Ids(a) - seen|
  {
    assert SameAt(id, a, b);
    var fa := Find(id, a);
    if fa.Some? && id !in seen && HasParent(fa.value) {
      var p := fa.value.parent.value;
      CardRemove(Ids(a), seen, id);
      ChainSameShape(p, a, b, seen + {id});
      ChainSameStep(id, a, b, seen, p);
    } else {
      ChainSameEnd(id, a, b, seen);
    }
  }

  lemma ChainSameEnd(id: int, a: seq<Task>, b: seq<Task>, seen: set<int>)
    requires SameAt(id, a, b)
    requires Find(id, a).None? || id in seen || !HasParent(Find(id, a).value)
    ensures Chain(id, a, seen) == Chain(id, b, seen)
  {
    ChainEnd(id, a, seen);
    ChainEnd(id, b, seen);
  }

  lemma ChainSameStep(id: int, a: seq<Task>, b: seq<Task>, seen: set<int>, p: int)
    requires SameAt(id, a, b) && Find(id, a).Some? && Find(id, a).value.parent == Some(p) && p != 0 && id !in seen
    requires Chain(p, a, seen + {id}) == Chain(p, b, seen + {id})
    ensures Chain(id, a, seen) == Chain(id, b, seen)
  {
    ChainStep(id, a, seen, p);
    ChainStep(id, b, seen, p);
  }

  /** The walks that stop at once: a missing id, a revisit, a parentless record. */
  lemma ChainEnd(id: int, tasks: seq<Task>, seen: set<int>)
    ensures Find(id, tasks).None? ==> Chain(id, tasks, seen) == Some(0)
    ensures Find(id, tasks).Some? && id in seen ==> Chain(id, tasks, seen).None?
    ensures Find(id, tasks).Some? && id !in seen && !HasParent(Find(id, tasks).value) ==>
      Chain(id, tasks, seen) == Some(1)
  {
  }

  /** One step of the walk, from a record to its parent id `p`. */
  lemma ChainStep(id: int, tasks: seq<Task>, seen: set<int>, p: int)
    requires Find(id, tasks).Some? && Find(id, tasks).value.parent == Some(p) && p != 0 && id !in seen
    ensures Chain(p, tasks, seen + {id}).None? ==> Chain(id, tasks, seen).None?
    ensures Chain(p, tasks, seen + {id}).Some? ==>
      Chain(id, tasks, seen) == Some(Chain(p, tasks, seen + {id}).value + 1)
  {
  }

  /** Well-formedness depends on ids and parents only. */
  lemma {:induction false} WellFormedSameShape(a: seq<Task>, b: seq<Task>)
    requires SameShape(a, b) && WellFormed(a)
    ensures WellFormed(b)
    ensures forall id :: Level(id, a) == Level(id, b)
  {
    UniqueSameIdSeq(a, b);
    SameShapeLookup(a, b);
    forall t | t in b
      ensures t.id > 0 && Chain(t.id, b, {}).Some?
    {
      var i :| 0 <= i < |b| && b[i] == t;
      assert a[i] in a;
      ChainSameShape(t.id, a, b, {});
    }
    forall id
      ensures Level(id, a) == Level(id, b)
    {
      ChainSameShape(id, a, b, {});
    }
  }

  lemma {:induction false} UniqueSameIdSeq(a: seq<Task>, b: seq<Task>)
    requires SameIdSeq(a, b) && UniqueIds(a)
    ensures UniqueIds(b)
  {
    if a != [] {
      assert SameIdSeq(a[1..], b[1..]) by {
        forall i | 0 <= i < |a| - 1
          ensures a[1..][i].id == b[1..][i].id
        {
          assert a[1..][i] == a[i + 1] && b[1..][i] == b[i + 1];
        }
      }
      IdsSameIdSeq(a[1..], b[1..]);
      UniqueSameIdSeq(a[1..], b[1..]);
    }
  }

  /** The ids, read through `key`, climb strictly along the list. */
  predicate KeysIncreasing(tasks: seq<Task>, key: int -> int) {
    |tasks| < 2 || (key(tasks[0].id) < key(tasks[1].id) && KeysIncreasing(tasks[1..], key))
  }

  lemma {:induction false} KeysIncreasingAppend(a: seq<Task>, b: seq<Task>, key: int -> int)
    requires KeysIncreasing(a, key) && KeysIncreasing(b, key)
    requires a != [] && b != [] && key(a[|a| - 1].id) < key(b[0].id)
    ensures KeysIncreasing(a + b, key)
  {
    if |a| > 1 {
      assert (a + b)[1..] == a[1..] + b;
      KeysIncreasingAppend(a[1..], b, key);
    } else {
      assert (a + b)[1..] == b;
    }
  }

  lemma {:induction false} KeysIncreasingBelow(tasks: seq<Task>, key: int -> int, t: Task)
    requires KeysIncreasing(tasks, key) && |tasks| >= 2 && t in tasks[1..]
    ensures key(tasks[0].id) < key(t.id)
  {
    if t != tasks[1] {
      KeysIncreasingBelow(tasks[1..], key, t);
    }
  }

  /** Keys that climb strictly never repeat, so neither do the ids. */
  lemma {:induction false} KeysIncreasingUnique(tasks: seq<Task>, key: int -> int)
    requires KeysIncreasing(tasks, key)
    ensures UniqueIds(tasks)
  {
    if tasks != [] {
      forall t | t in tasks[1..]
        ensures t.id != tasks[0].id
      {
        KeysIncreasingBelow(tasks, key, t);
      }
      KeysIncreasingUnique(tasks[1..], key);
    }
  }
}
