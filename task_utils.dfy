/**
 * Hierarchy queries over a flat task list (lib/taskUtils.ts): the dotted
 * display number, the children of a task, the ancestor test and the duration
 * of a date range.
 */
module TaskUtils {
  import opened Types
  import opened Forest

  const MillisPerDay: nat := 86400000

  // ---------------------------------------------------------------------------
  // Decimal rendering of the 1-based positions, `(index + 1).toString()`
  // ---------------------------------------------------------------------------

  predicate IsDigit(c: char) {
    '0' <= c <= '9'
  }

  function DigitChar(d: nat): (c: char)
    requires d < 10
    ensures IsDigit(c) && c as int - '0' as int == d
  {
    ('0' as int + d) as char
  }

  /** The decimal spelling of n, without leading zeros. */
  function NatToString(n: nat): (r: string)
    ensures |r| >= 1
    ensures forall k | 0 <= k < |r| :: IsDigit(r[k])
    ensures r[0] == '0' ==> n == 0
  {
    if n < 10 then [DigitChar(n)]
    else NatToString(n / 10) + [DigitChar(n % 10)]
  }

  /** The number a string of digits spells. */
  function DigitsValue(s: string): nat
    requires forall k | 0 <= k < |s| :: IsDigit(s[k])
  {
    if s == [] then 0
    else
      assert IsDigit(s[|s| - 1]);
      10 * DigitsValue(s[..|s| - 1]) + (s[|s| - 1] as int - '0' as int)
  }

  /** Reading a rendered number back gives the number: the rendering loses nothing. */
  lemma {:induction false} NatToStringRoundTrip(n: nat)
    ensures DigitsValue(NatToString(n)) == n
  {
    if n >= 10 {
      var s := NatToString(n / 10);
      var r := s + [DigitChar(n % 10)];
      assert r[..|r| - 1] == s;
      NatToStringRoundTrip(n / 10);
    }
  }

  lemma NatToStringInjective(m: nat, n: nat)
    requires NatToString(m) == NatToString(n)
    ensures m == n
  {
    NatToStringRoundTrip(m);
    NatToStringRoundTrip(n);
  }

  // ---------------------------------------------------------------------------
  // Top-level tasks and children
  // ---------------------------------------------------------------------------

  /** `!t.parent`: no parent, or the falsy parent id 0. */
  predicate IsTopLevel(t: Task) {
    !HasParent(t)
  }

  /** `(t) => t.parent === pid` */
  function ChildOf(pid: int): Task -> bool {
    (t: Task) => t.parent == Some(pid)
  }

  /** `tasks.filter((t) => !t.parent)` */
  function TopLevel(tasks: seq<Task>): (r: seq<Task>)
    ensures forall t :: t in r <==> t in tasks && !HasParent(t)
  {
    Filter(tasks, IsTopLevel)
  }

  /** `getChildren`: the records whose parent is the id, in list order. */
  function Children(id: int, tasks: seq<Task>): (r: seq<Task>)
    ensures forall t :: t in r <==> t in tasks && t.parent == Some(id)
  {
    Filter(tasks, ChildOf(id))
  }

  /** Children keep list order: the children of a concatenation are the concatenated children. */
  lemma ChildrenAppend(id: int, a: seq<Task>, b: seq<Task>)
    ensures Children(id, a + b) == Children(id, a) + Children(id, b)
  {
    FilterAppend(a, b, ChildOf(id));
  }

  /** `hasChildren`: `tasks.some((t) => t.parent === id)`. */
  function HasChildren(id: int, tasks: seq<Task>): (r: bool)
    ensures r <==> exists t | t in tasks :: t.parent == Some(id)
  {
    if tasks == [] then false
    else tasks[0].parent == Some(id) || HasChildren(id, tasks[1..])
  }

  /** `hasChildren` holds exactly when `getChildren` is non-empty. */
  lemma HasChildrenIffChildren(id: int, tasks: seq<Task>)
    ensures HasChildren(id, tasks) <==> Children(id, tasks) != []
  {
    var c := Children(id, tasks);
    if c != [] {
      assert c[0] in c;
    }
  }

  // ---------------------------------------------------------------------------
  // Dotted numbering
  // ---------------------------------------------------------------------------

  /**
   * `getTaskNumber`: "" for an unknown id; a top-level record's 1-based position
   * among the top-level records; otherwise the parent's number, a dot and the
   * record's 1-based position among its siblings.
   */
  function TaskNumber(id: int, tasks: seq<Task>): (r: string)
    requires Acyclic(tasks)
    ensures r == "" <==> Find(id, tasks).None?
    decreases Level(id, tasks)
  {
    match Find(id, tasks)
    case None => ""
    case Some(t) =>
      if !HasParent(t) then
        NatToString(FindIndex(id, TopLevel(tasks)).value + 1)
      else
        var pid := t.parent.value;
        LevelStep(id, tasks, t);
        TaskNumber(pid, tasks) + "." + NatToString(FindIndex(id, Children(pid, tasks)).value + 1)
  }

  /**
   * A top-level record, taken at the first position i carrying its id, is
   * numbered one more than the number of top-level records before i.
   */
  lemma TopLevelNumber(tasks: seq<Task>, i: nat)
    requires Acyclic(tasks) && i < |tasks| && FindIndex(tasks[i].id, tasks) == Some(i)
    requires !HasParent(tasks[i])
    ensures TaskNumber(tasks[i].id, tasks) == NatToString(|TopLevel(tasks[..i])| + 1)
  {
    FindAtFindIndex(tasks[i].id, tasks);
    FilterFindIndex(tasks, IsTopLevel, i);
  }

  /**
   * A record with parent p, taken at the first position i carrying its id, is
   * numbered p's number, a dot, and one more than the number of p's children
   * before i.
   */
  lemma ChildNumber(tasks: seq<Task>, i: nat)
    requires Acyclic(tasks) && i < |tasks| && FindIndex(tasks[i].id, tasks) == Some(i)
    requires HasParent(tasks[i])
    ensures var p := tasks[i].parent.value;
      TaskNumber(tasks[i].id, tasks)
        == TaskNumber(p, tasks) + "." + NatToString(|Children(p, tasks[..i])| + 1)
  {
    var t := tasks[i];
    var p := t.parent.value;
    var j := |Children(p, tasks[..i])|;
    assert Find(t.id, tasks) == Some(t) by {
      FindAtFindIndex(t.id, tasks);
    }
    assert FindIndex(t.id, Children(p, tasks)) == Some(j) by {
      FilterFindIndex(tasks, ChildOf(p), i);
    }
    ChildNumberUnfold(t.id, tasks, t);
  }

  /** When the parent is not in the list its number is empty, so the result starts with the dot. */
  lemma OrphanNumber(tasks: seq<Task>, i: nat)
    requires Acyclic(tasks) && i < |tasks| && FindIndex(tasks[i].id, tasks) == Some(i)
    requires HasParent(tasks[i]) && Find(tasks[i].parent.value, tasks).None?
    ensures TaskNumber(tasks[i].id, tasks)
      == "." + NatToString(|Children(tasks[i].parent.value, tasks[..i])| + 1)
  {
    var p := tasks[i].parent.value;
    var digits := NatToString(|Children(p, tasks[..i])| + 1);
    ChildNumber(tasks, i);
    DotAfterEmpty(TaskNumber(p, tasks), digits);
  }

  lemma DotAfterEmpty(prefix: string, digits: string)
    requires prefix == ""
    ensures prefix + "." + digits == "." + digits
  {
  }

  lemma ChildNumberUnfold(id: int, tasks: seq<Task>, t: Task)
    requires Acyclic(tasks) && Find(id, tasks) == Some(t) && HasParent(t)
    ensures FindIndex(id, Children(t.parent.value, tasks)).Some?
    ensures TaskNumber(id, tasks) == TaskNumber(t.parent.value, tasks) + "."
      + NatToString(FindIndex(id, Children(t.parent.value, tasks)).value + 1)
  {
    ChildInChildren(id, tasks, t);
  }

  lemma ChildInChildren(id: int, tasks: seq<Task>, t: Task)
    requires Find(id, tasks) == Some(t) && HasParent(t)
    ensures FindIndex(id, Children(t.parent.value, tasks)).Some?
  {
    assert t in Children(t.parent.value, tasks);
    FindIndexOfMember(id, Children(t.parent.value, tasks), t);
  }

  lemma FindIndexOfMember(id: int, tasks: seq<Task>, t: Task)
    requires t in tasks && t.id == id
    ensures FindIndex(id, tasks).Some?
  {
  }

  /** The number of '.' characters in a string. */
  function Dots(s: string): (n: nat)
    ensures n <= |s|
  {
    if s == [] then 0 else (if s[0] == '.' then 1 else 0) + Dots(s[1..])
  }

  lemma {:induction false} DotsAppend(a: string, b: string)
    ensures Dots(a + b) == Dots(a) + Dots(b)
  {
    if a != [] {
      assert (a + b)[0] == a[0];
      assert (a + b)[1..] == a[1..] + b;
      DotsAppend(a[1..], b);
    } else {
      assert a + b == b;
    }
  }

  lemma {:induction false} DotsOfDigits(s: string)
    requires forall k | 0 <= k < |s| :: IsDigit(s[k])
    ensures Dots(s) == 0
  {
    if s != [] {
      DotsOfDigits(s[1..]);
    }
  }

  /**
   * A number has one dot per parent hop: as many dots as the record has ids
   * on its ancestor walk (a missing parent still contributes its hop).
   */
  lemma {:induction false} NumberDots(t: Task, tasks: seq<Task>)
    requires Acyclic(tasks) && Find(t.id, tasks) == Some(t)
    ensures Dots(TaskNumber(t.id, tasks)) == |Ancestors(t, tasks)|
    decreases Level(t.id, tasks)
  {
    if !HasParent(t) {
      var digits := NatToString(FindIndex(t.id, TopLevel(tasks)).value + 1);
      assert TaskNumber(t.id, tasks) == digits;
      DotsOfDigits(digits);
    } else {
      var pid := t.parent.value;
      LevelStep(t.id, tasks, t);
      ChildNumberUnfold(t.id, tasks, t);
      var digits := NatToString(FindIndex(t.id, Children(pid, tasks)).value + 1);
      assert Dots(TaskNumber(t.id, tasks)) == Dots(TaskNumber(pid, tasks)) + 1 by {
        DotsAppend(TaskNumber(pid, tasks) + ".", digits);
        DotsAppend(TaskNumber(pid, tasks), ".");
        DotsOfDigits(digits);
      }
      match Find(pid, tasks)
      case None =>
        assert TaskNumber(pid, tasks) == "";
        assert Ancestors(t, tasks) == [pid];
      case Some(p) =>
        NumberDots(p, tasks);
        assert Ancestors(t, tasks) == [pid] + Ancestors(p, tasks);
    }
  }

  // ---------------------------------------------------------------------------
  // Ancestry
  // ---------------------------------------------------------------------------

  /**
   * `isDescendantOf`: true when the parent is the id; false with no (truthy)
   * parent or a parent id missing from the list; otherwise asks the parent.
   */
  function IsDescendantOf(t: Task, ancestor: int, tasks: seq<Task>): (r: bool)
    requires Acyclic(tasks)
    ensures t.parent == Some(ancestor) ==> r
    ensures r ==> t.parent.Some?
    ensures r && ancestor != 0 ==> HasParent(t)
    decreases Up(t, tasks)
  {
    if t.parent == Some(ancestor) then true
    else if !HasParent(t) then false
    else
      match Find(t.parent.value, tasks)
      case None => false
      case Some(p) =>
        LevelStep(t.parent.value, tasks, p);
        IsDescendantOf(p, ancestor, tasks)
  }

  /** For a truthy id, being a descendant means meeting the id on the ancestor walk. */
  lemma {:induction false} DescendantIffAncestor(t: Task, a: int, tasks: seq<Task>)
    requires Acyclic(tasks) && a != 0
    ensures IsDescendantOf(t, a, tasks) <==> a in Ancestors(t, tasks)
    decreases Up(t, tasks)
  {
    if HasParent(t) {
      match Find(t.parent.value, tasks)
      case None =>
      case Some(p) =>
        LevelStep(t.parent.value, tasks, p);
        DescendantIffAncestor(p, a, tasks);
    }
  }

  /** Descent is transitive through a record that is in the list under a truthy id. */
  lemma {:induction false} DescendantTransitive(c: Task, b: Task, a: int, tasks: seq<Task>)
    requires Acyclic(tasks) && b.id != 0 && Find(b.id, tasks) == Some(b)
    requires IsDescendantOf(c, b.id, tasks) && IsDescendantOf(b, a, tasks)
    ensures IsDescendantOf(c, a, tasks)
    decreases Up(c, tasks)
  {
    if c.parent != Some(b.id) {
      var p := Find(c.parent.value, tasks).value;
      LevelStep(c.parent.value, tasks, p);
      DescendantTransitive(p, b, a, tasks);
    }
  }

  /** The pattern B.parent = A, C.parent = B with B in the list. */
  lemma GrandchildIsDescendant(c: Task, b: Task, a: int, tasks: seq<Task>)
    requires Acyclic(tasks) && b.id != 0 && Find(b.id, tasks) == Some(b)
    requires b.parent == Some(a) && c.parent == Some(b.id)
    ensures IsDescendantOf(c, a, tasks)
  {
  }

  /** An ancestor found in the list sits strictly lower in the hierarchy. */
  lemma {:induction false} DescendantLevel(t: Task, a: int, tasks: seq<Task>)
    requires Acyclic(tasks) && a != 0 && Find(a, tasks).Some?
    requires IsDescendantOf(t, a, tasks)
    ensures Level(a, tasks) <= Up(t, tasks)
    decreases Up(t, tasks)
  {
    if t.parent != Some(a) {
      var p := Find(t.parent.value, tasks).value;
      LevelStep(t.parent.value, tasks, p);
      DescendantLevel(p, a, tasks);
    }
  }

  /** In an acyclic list no record is its own descendant. */
  lemma NoSelfDescent(t: Task, tasks: seq<Task>)
    requires Acyclic(tasks) && t.id != 0 && Find(t.id, tasks) == Some(t)
    ensures !IsDescendantOf(t, t.id, tasks)
  {
    LevelStep(t.id, tasks, t);
    if IsDescendantOf(t, t.id, tasks) {
      DescendantLevel(t, t.id, tasks);
    }
  }

  /** Two ancestors of one record are themselves related by descent. */
  lemma {:induction false} AncestorsLinear(t: Task, a: int, b: int, tasks: seq<Task>)
    requires Acyclic(tasks) && a != 0 && b != 0 && a != b
    requires IsDescendantOf(t, a, tasks) && IsDescendantOf(t, b, tasks)
    ensures (exists ra | ra in tasks && ra.id == a :: IsDescendantOf(ra, b, tasks))
         || (exists rb | rb in tasks && rb.id == b :: IsDescendantOf(rb, a, tasks))
    decreases Up(t, tasks)
  {
    var p := Find(t.parent.value, tasks);
    if t.parent == Some(a) {
      var ra := p.value;
      LevelStep(a, tasks, ra);
      assert ra in tasks && ra.id == a && IsDescendantOf(ra, b, tasks);
    } else if t.parent == Some(b) {
      var rb := p.value;
      LevelStep(b, tasks, rb);
      assert rb in tasks && rb.id == b && IsDescendantOf(rb, a, tasks);
    } else {
      LevelStep(t.parent.value, tasks, p.value);
      AncestorsLinear(p.value, a, b, tasks);
    }
  }

  // ---------------------------------------------------------------------------
  // Durations
  // ---------------------------------------------------------------------------

  function Abs(x: int): nat {
    if x < 0 then -x else x
  }

  /**
   * `calculateDuration`: the whole days needed to cover the distance between
   * two instants, rounding any part day up.
   */
  function CalculateDuration(start: int, end: int): (days: nat)
    ensures (days - 1) * MillisPerDay < Abs(end - start) <= days * MillisPerDay
  {
    (Abs(end - start) + MillisPerDay - 1) / MillisPerDay
  }

  lemma DurationSymmetric(start: int, end: int)
    ensures CalculateDuration(start, end) == CalculateDuration(end, start)
  {
  }

  /** The ceiling is determined: no other day count covers the range as tightly. */
  lemma DurationUnique(start: int, end: int, n: int)
    requires (n - 1) * MillisPerDay < Abs(end - start) <= n * MillisPerDay
    ensures n == CalculateDuration(start, end)
  {
  }
}
