/**
 * The submit step of components/forms/TaskDialog.tsx: the status derived from
 * the progress, and the payload sent on create and on update, where a
 * milestone's cost is forced to 0 and missing links become an empty list.
 * The asynchronous calls and the dialog handling around them are left out.
 */
module TaskDialog {
  import opened Types
  import opened Validations

  /**
   * The status that goes with a progress: complete at 1, in progress strictly
   * between 0 and 1, back to pending at 0 when marked completed, and the
   * chosen status in every other case.
   */
  function DerivedStatus(percent: real, chosen: Status): (r: Status)
    ensures percent == 1.0 ==> r == Completed
    ensures 0.0 < percent < 1.0 ==> r == InProgress
    ensures percent == 0.0 && chosen == Completed ==> r == Pending
    ensures (percent < 0.0 || percent > 1.0 || (percent == 0.0 && chosen != Completed)) ==> r == chosen
  {
    if percent == 1.0 then Completed
    else if 0.0 < percent < 1.0 then InProgress
    else if percent == 0.0 && chosen == Completed then Pending
    else chosen
  }

  /** `autoStatus`: a `let` set to the chosen status and overwritten by the first rule that applies. */
  method AutoStatus(percent: real, chosen: Status) returns (autoStatus: Status)
    ensures autoStatus == DerivedStatus(percent, chosen)
  {
    autoStatus := chosen;
    if percent == 1.0 {
      autoStatus := Completed;
    } else if percent > 0.0 && percent < 1.0 {
      autoStatus := InProgress;
    } else if percent == 0.0 && chosen == Completed {
      autoStatus := Pending;
    }
  }

  /** Within the range the schema allows, a task is submitted as completed exactly when its progress is full. */
  lemma CompletedIffFull(percent: real, chosen: Status)
    requires 0.0 <= percent <= 1.0
    ensures DerivedStatus(percent, chosen) == Completed <==> percent == 1.0
    ensures DerivedStatus(percent, chosen) == InProgress <==> 0.0 < percent < 1.0 || (percent == 0.0 && chosen == InProgress)
  {
  }

  /** Deriving again from the derived status changes nothing. */
  lemma DerivedStatusIdempotent(percent: real, chosen: Status)
    ensures DerivedStatus(percent, DerivedStatus(percent, chosen)) == DerivedStatus(percent, chosen)
  {
  }

  /** At progress 0 only "completed" is overridden: "blocked" stays "blocked". */
  lemma ZeroProgressKeepsBlocked()
    ensures DerivedStatus(0.0, Blocked) == Blocked
    ensures DerivedStatus(0.0, InProgress) == InProgress
  {
  }

  /** What the dialog sends, on create and on update alike. */
  datatype TaskPayload = TaskPayload(
    text: string,
    description: Option<string>,
    start: int,
    end: int,
    status: Status,
    priority: Priority,
    assignee: Option<string>,
    parent: Option<int>,
    kind: TaskKind,
    cost: Option<real>,
    percent: real,
    links: seq<Link>)

  /** The payload read back as form data. */
  function PayloadForm(p: TaskPayload): (d: TaskFormData)
    ensures d.kind == p.kind && d.cost == p.cost && d.percent == p.percent && d.links == Some(p.links)
  {
    TaskFormData(p.text, p.description, p.start, p.end, p.status, p.priority, p.assignee, p.parent,
      p.kind, p.cost, p.percent, Some(p.links))
  }

  /**
   * The payload built from submitted form data. Valid data stays valid, and
   * a valid task is sent as completed exactly when its progress is full.
   */
  method BuildPayload(data: TaskFormData) returns (payload: TaskPayload)
    ensures payload.status == DerivedStatus(data.percent, data.status)
    ensures payload.cost == if data.kind == Milestone then Some(0.0) else data.cost
    ensures payload.links == if data.links.Some? then data.links.value else []
    ensures payload.text == data.text && payload.description == data.description &&
      payload.start == data.start && payload.end == data.end && payload.priority == data.priority &&
      payload.assignee == data.assignee && payload.parent == data.parent && payload.kind == data.kind &&
      payload.percent == data.percent
    ensures FormDataValid(data) ==> FormDataValid(PayloadForm(payload))
    ensures FormDataValid(data) ==> (payload.status == Completed <==> data.percent == 1.0)
  {
    if FormDataValid(data) {
      CompletedIffFull(data.percent, data.status);
    }
    var autoStatus := AutoStatus(data.percent, data.status);
    payload := TaskPayload(
      data.text, data.description, data.start, data.end, autoStatus, data.priority, data.assignee,
      data.parent, data.kind, if data.kind == Milestone then Some(0.0) else data.cost, data.percent,
      if data.links.Some? then data.links.value else []);
  }
}
