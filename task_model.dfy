/**
 * The task schema of src/models/taskModel.js: the fields a task document
 * holds, the enumerations of `priority` and `status`, the `pending` default,
 * and the validation Mongoose runs on `save` (casts, `required`, `enum`).
 */
module TaskModel {
  import opened Wrappers
  import opened Mongo
  import opened Calendar
  import opened Text

  datatype Priority = Low | Medium | High

  datatype Status = Pending | InProgress | Completed

  function PriorityName(p: Priority): string {
    match p
    case Low => "low"
    case Medium => "medium"
    case High => "high"
  }

  function StatusName(s: Status): string {
    match s
    case Pending => "pending"
    case InProgress => "in-progress"
    case Completed => "completed"
  }

  /** The `enum` check on `priority`: the stored text must be one of the three names. */
  function ParsePriority(s: string): (r: Option<Priority>)
    ensures r.Some? <==> s in {"low", "medium", "high"}
    ensures r.Some? ==> PriorityName(r.value) == s
    ensures forall p: Priority :: s == PriorityName(p) ==> r == Some(p)
  {
    if s == "low" then Some(Low)
    else if s == "medium" then Some(Medium)
    else if s == "high" then Some(High)
    else None
  }

  /** The `enum` check on `status`; note the hyphen in `in-progress`. */
  function ParseStatus(s: string): (r: Option<Status>)
    ensures r.Some? <==> s in {"pending", "in-progress", "completed"}
    ensures r.Some? ==> StatusName(r.value) == s
    ensures forall st: Status :: s == StatusName(st) ==> r == Some(st)
  {
    if s == "pending" then Some(Pending)
    else if s == "in-progress" then Some(InProgress)
    else if s == "completed" then Some(Completed)
    else None
  }

  /** A saved task document. There is no `managerId`: the schema does not declare one. */
  datatype Task = Task(
    id: ObjectId,
    title: string,
    description: string,
    dueDate: CalDate,
    priority: Priority,
    status: Status,
    assignedTo: Option<ObjectId>,
    createdBy: ObjectId,
    createdAt: int,
    updatedAt: int)

  /** What every saved task satisfies: its required texts are non-empty and its due date is a real date with a four-digit year. */
  predicate WellFormed(t: Task) {
    t.title != "" && t.description != "" && ValidDate(t.dueDate) && 0 <= t.dueDate.year <= 9999
  }

  /**
   * A task document before validation: the raw values assigned to its paths,
   * as the handlers set them from a request body (`None` is `undefined`).
   */
  datatype Draft = Draft(
    id: ObjectId,
    title: Option<string>,
    description: Option<string>,
    dueDate: Option<string>,
    priority: Option<string>,
    status: Option<string>,
    assignedTo: Option<string>,
    createdBy: Option<string>,
    createdAt: int,
    updatedAt: int)

  /** An optional ObjectId path: absent, or a text that casts. */
  predicate OptionalIdCasts(v: Option<string>) {
    v.None? || CastObjectId(v.value).Some?
  }

  /**
   * Every check `save` runs on a draft, path by path in schema order.
   * Mongoose's `required` on a String path passes exactly the truthy values.
   */
  predicate Saveable(d: Draft) {
    Truthy(d.title)
    && Truthy(d.description)
    && d.dueDate.Some? && CastIsoDay(d.dueDate.value).Some?
    && Truthy(d.priority) && ParsePriority(d.priority.value).Some?
    && (d.status.None? || ParseStatus(d.status.value).Some?)
    && OptionalIdCasts(d.assignedTo)
    && d.createdBy.Some? && CastObjectId(d.createdBy.value).Some?
  }

  /**
   * `doc.save()`'s validation: the document that gets stored, or `None` when
   * a cast, `required` or `enum` check fails (the handlers then answer 500).
   */
  function Validate(d: Draft): (r: Option<Task>)
    ensures r.Some? <==> Saveable(d)
    ensures r.Some? ==> WellFormed(r.value)
    ensures r.Some? ==> var t := r.value;
      t.id == d.id && Some(t.title) == d.title && Some(t.description) == d.description
      && Some(PriorityName(t.priority)) == d.priority
      && StatusName(t.status) == d.status.GetOr("pending")
      && t.createdAt == d.createdAt && t.updatedAt == d.updatedAt
      && CastIsoDay(d.dueDate.value) == Some(t.dueDate)
      && (t.assignedTo.None? <==> d.assignedTo.None?)
      && (d.assignedTo.Some? ==> t.assignedTo == CastObjectId(d.assignedTo.value))
      && Some(t.createdBy) == CastObjectId(d.createdBy.value)
  {
    if !Saveable(d) then None
    else
      Some(Task(
        d.id,
        d.title.value,
        d.description.value,
        CastIsoDay(d.dueDate.value).value,
        ParsePriority(d.priority.value).value,
        if d.status.None? then Pending else ParseStatus(d.status.value).value,
        if d.assignedTo.None? then None else CastObjectId(d.assignedTo.value),
        CastObjectId(d.createdBy.value).value,
        d.createdAt,
        d.updatedAt))
  }

  /** The document a loaded task presents to a handler that is about to change it. */
  function ToDraft(t: Task): (d: Draft)
    requires WellFormed(t)
  {
    Draft(t.id, Some(t.title), Some(t.description), Some(IsoDay(t.dueDate)),
      Some(PriorityName(t.priority)), Some(StatusName(t.status)),
      if t.assignedTo.None? then None else Some(t.assignedTo.value),
      Some(t.createdBy), t.createdAt, t.updatedAt)
  }

  /** Saving a loaded task unchanged stores the same task: validation accepts every well-formed task. */
  lemma ValidateToDraft(t: Task)
    requires WellFormed(t)
    ensures Validate(ToDraft(t)) == Some(t)
  {
    CastIsoDayRoundTrip(t.dueDate);
    var d := ToDraft(t);
    assert ParsePriority(d.priority.value) == Some(t.priority);
    assert ParseStatus(d.status.value) == Some(t.status);
    assert CastObjectId(d.createdBy.value) == Some(t.createdBy);
    assert d.assignedTo.Some? ==> CastObjectId(d.assignedTo.value) == t.assignedTo;
    assert Saveable(d);
  }

  /**
   * Saving a loaded task after its assignee, status or timestamp were set:
   * the other fields come back as they were, and the save fails exactly when a
   * new value does not cast.
   */
  lemma ValidateEdited(t: Task, d: Draft)
    requires WellFormed(t)
    requires d == ToDraft(t).(assignedTo := d.assignedTo, status := d.status, updatedAt := d.updatedAt)
    ensures Validate(d) ==
      if !OptionalIdCasts(d.assignedTo) || (d.status.Some? && ParseStatus(d.status.value).None?) then None
      else Some(t.(assignedTo := if d.assignedTo.None? then None else CastObjectId(d.assignedTo.value),
                   status := if d.status.None? then Pending else ParseStatus(d.status.value).value,
                   updatedAt := d.updatedAt))
  {
    CastIsoDayRoundTrip(t.dueDate);
    assert ParsePriority(d.priority.value) == Some(t.priority);
    assert CastObjectId(d.createdBy.value) == Some(t.createdBy);
    if OptionalIdCasts(d.assignedTo) && (d.status.None? || ParseStatus(d.status.value).Some?) {
      assert Saveable(d);
    }
  }
}
