/**
 * The form schemas of lib/validations.ts as validity predicates: what the
 * schema accepts, and the typed form data it hands on. Enumerations arrive as
 * strings and are accepted only when they spell one of their members; string
 * lengths are counted in characters.
 */
module Validations {
  import opened Types

  /** Longest task name, project name and assignee. */
  const MaxNameLength: nat := 100
  const MaxTaskDescription: nat := 1000
  const MaxProjectDescription: nat := 500

  // ---------------------------------------------------------------------------
  // Enumerations: a string is accepted exactly when it is a member's spelling
  // ---------------------------------------------------------------------------

  function ParseStatus(s: string): (r: Option<Status>)
    ensures r.Some? ==> StatusName(r.value) == s
  {
    if s == "pending" then Some(Pending)
    else if s == "in-progress" then Some(InProgress)
    else if s == "completed" then Some(Completed)
    else if s == "blocked" then Some(Blocked)
    else None
  }

  function ParsePriority(s: string): (r: Option<Priority>)
    ensures r.Some? ==> PriorityName(r.value) == s
  {
    if s == "low" then Some(Low)
    else if s == "medium" then Some(Medium)
    else if s == "high" then Some(High)
    else if s == "critical" then Some(Critical)
    else None
  }

  function ParseKind(s: string): (r: Option<TaskKind>)
    ensures r.Some? ==> KindName(r.value) == s
  {
    if s == "task" then Some(PlainTask)
    else if s == "group" then Some(Group)
    else if s == "milestone" then Some(Milestone)
    else None
  }

  function ParseLinkType(s: string): (r: Option<LinkType>)
    ensures r.Some? ==> LinkTypeName(r.value) == s
  {
    if s == "FS" then Some(FS)
    else if s == "FF" then Some(FF)
    else if s == "SS" then Some(SS)
    else if s == "SF" then Some(SF)
    else None
  }

  /** Every member's spelling is accepted, as that member. */
  lemma ParseNames(st: Status, p: Priority, k: TaskKind, l: LinkType)
    ensures ParseStatus(StatusName(st)) == Some(st)
    ensures ParsePriority(PriorityName(p)) == Some(p)
    ensures ParseKind(KindName(k)) == Some(k)
    ensures ParseLinkType(LinkTypeName(l)) == Some(l)
  {
  }

  // ---------------------------------------------------------------------------
  // taskLinkSchema
  // ---------------------------------------------------------------------------

  datatype RawLink = RawLink(target: int, linkType: string)

  function ParseLink(l: RawLink): (r: Option<Link>)
    ensures r.Some? <==> ParseLinkType(l.linkType).Some?
    ensures r.Some? ==> r.value.target == l.target && LinkTypeName(r.value.linkType) == l.linkType
  {
    match ParseLinkType(l.linkType)
    case None => None
    case Some(t) => Some(Link(l.target, t))
  }

  /** `z.array(taskLinkSchema)`: every element must parse. */
  function ParseLinks(ls: seq<RawLink>): (r: Option<seq<Link>>)
    ensures r.Some? <==> forall i | 0 <= i < |ls| :: ParseLink(ls[i]).Some?
    ensures r.Some? ==> |r.value| == |ls| && forall i | 0 <= i < |ls| :: Some(r.value[i]) == ParseLink(ls[i])
  {
    if ls == [] then Some([])
    else
      match (ParseLink(ls[0]), ParseLinks(ls[1..]))
      case (Some(h), Some(t)) =>
        assert forall i | 1 <= i < |ls| :: ls[i] == ls[1..][i - 1];
        Some([h] + t)
      case (_, _) =>
        assert forall i | 0 <= i < |ls| - 1 :: ls[1..][i] == ls[i + 1];
        None
  }

  function UnparseLink(l: Link): RawLink {
    RawLink(l.target, LinkTypeName(l.linkType))
  }

  // ---------------------------------------------------------------------------
  // projectSchema
  // ---------------------------------------------------------------------------

  datatype ProjectForm = ProjectForm(name: string, description: Option<string>, startDate: int, endDate: int)

  /** A name of 1 to 100 characters, a description of at most 500, and an end not before the start. */
  predicate ProjectValid(p: ProjectForm)
    ensures ProjectValid(p) ==> p.startDate <= p.endDate && p.name != ""
  {
    1 <= |p.name| <= MaxNameLength &&
    (p.description.Some? ==> |p.description.value| <= MaxProjectDescription) &&
    p.endDate >= p.startDate
  }

  /**
   * A project ending before it starts, or with an empty or over-long name, is
   * refused; the description is optional, so leaving it out never makes a
   * valid project invalid.
   */
  lemma ProjectRefusals(p: ProjectForm)
    ensures p.endDate < p.startDate ==> !ProjectValid(p)
    ensures p.name == "" || |p.name| > MaxNameLength ==> !ProjectValid(p)
    ensures ProjectValid(p) ==> ProjectValid(p.(description := None))
  {
  }

  // ---------------------------------------------------------------------------
  // taskSchema
  // ---------------------------------------------------------------------------

  /** What the task form submits, before the schema has looked at it. */
  datatype RawTaskForm = RawTaskForm(
    text: string,
    description: Option<string>,
    start: int,
    end: int,
    status: string,
    priority: string,
    assignee: Option<string>,
    parent: Option<int>,
    kind: string,
    cost: Option<real>,
    percent: real,
    links: Option<seq<RawLink>>)

  /** `TaskFormData`: what the schema hands on, with the enumerations typed. */
  datatype TaskFormData = TaskFormData(
    text: string,
    description: Option<string>,
    start: int,
    end: int,
    status: Status,
    priority: Priority,
    assignee: Option<string>,
    parent: Option<int>,
    kind: TaskKind,
    cost: Option<real>,
    percent: real,
    links: Option<seq<Link>>)

  /** The field constraints and the date refinement of `taskSchema`, on typed data. */
  predicate FormDataValid(d: TaskFormData) {
    1 <= |d.text| <= MaxNameLength &&
    (d.description.Some? ==> |d.description.value| <= MaxTaskDescription) &&
    (d.assignee.Some? ==> |d.assignee.value| <= MaxNameLength) &&
    (d.cost.Some? ==> d.cost.value >= 0.0) &&
    0.0 <= d.percent <= 1.0 &&
    d.end >= d.start
  }

  /** `taskSchema.safeParse`: the typed data when every constraint holds, nothing otherwise. */
  function ParseTaskForm(raw: RawTaskForm): (r: Option<TaskFormData>)
    ensures r.Some? ==> FormDataValid(r.value)
    ensures r.Some? ==>
      ParseStatus(raw.status).Some? && ParsePriority(raw.priority).Some? && ParseKind(raw.kind).Some? &&
      (raw.links.Some? ==> ParseLinks(raw.links.value).Some?)
  {
    var status, priority, kind := ParseStatus(raw.status), ParsePriority(raw.priority), ParseKind(raw.kind);
    var links := if raw.links.Some? then ParseLinks(raw.links.value) else Some([]);
    if status.None? || priority.None? || kind.None? || links.None? then None
    else
      var d := TaskFormData(raw.text, raw.description, raw.start, raw.end, status.value, priority.value,
        raw.assignee, raw.parent, kind.value, raw.cost, raw.percent,
        if raw.links.Some? then Some(links.value) else None);
      if FormDataValid(d) then Some(d) else None
  }

  /** The form input that spells out typed data. */
  function Unparse(d: TaskFormData): RawTaskForm {
    RawTaskForm(d.text, d.description, d.start, d.end, StatusName(d.status), PriorityName(d.priority),
      d.assignee, d.parent, KindName(d.kind), d.cost, d.percent,
      if d.links.Some? then Some(seq(|d.links.value|, i requires 0 <= i < |d.links.value| => UnparseLink(d.links.value[i])))
      else None)
  }

  /** Valid typed data survives being spelt out and parsed again. */
  lemma ParseUnparse(d: TaskFormData)
    requires FormDataValid(d)
    ensures ParseTaskForm(Unparse(d)) == Some(d)
  {
    ParseNames(d.status, d.priority, d.kind, FS);
    if d.links.Some? {
      var ls := d.links.value;
      var raw := Unparse(d).links.value;
      forall i | 0 <= i < |ls|
        ensures ParseLink(raw[i]) == Some(ls[i])
      {
        ParseNames(d.status, d.priority, d.kind, ls[i].linkType);
      }
      assert ParseLinks(raw).value == ls;
    }
  }

  /** Parsing loses nothing: accepted input is exactly the spelling of what it parsed to. */
  lemma UnparseParse(raw: RawTaskForm)
    requires ParseTaskForm(raw).Some?
    ensures Unparse(ParseTaskForm(raw).value) == raw
  {
    if raw.links.Some? {
      var ls := raw.links.value;
      var parsed := ParseLinks(ls).value;
      var back := Unparse(ParseTaskForm(raw).value).links.value;
      assert |back| == |ls|;
      forall i | 0 <= i < |ls|
        ensures back[i] == ls[i]
      {
        assert Some(parsed[i]) == ParseLink(ls[i]);
        assert back[i] == UnparseLink(parsed[i]);
      }
      assert back == ls;
    }
  }

  /** A task form whose end precedes its start is refused, whatever else it holds. */
  lemma EndBeforeStartRefused(raw: RawTaskForm)
    requires raw.end < raw.start
    ensures ParseTaskForm(raw).None?
  {
  }

  /** A progress outside [0, 1] is refused, whatever else the form holds. */
  lemma PercentOutOfRangeRefused(raw: RawTaskForm)
    requires raw.percent < 0.0 || raw.percent > 1.0
    ensures ParseTaskForm(raw).None?
  {
  }
}
