/**
 * The task handlers of src/controllers/taskController.js that work on one
 * task: create, assign, read by id, update and delete. Each handler is a
 * method over the collections, the cache and the mail log, proved to do what
 * a pure outcome function says; the properties are stated on those functions.
 * The list handler is in module TaskListing.
 */
module TaskController {
  import opened Wrappers
  import opened Text
  import opened Mongo
  import opened Calendar
  import opened TaskModel
  import opened UserModel
  import opened Http
  import opened Store

  /** The task fields a request body may carry; other keys are outside the model. */
  datatype TaskBody = TaskBody(
    title: Option<string>,
    description: Option<string>,
    dueDate: Option<string>,
    priority: Option<string>,
    status: Option<string>,
    assignedTo: Option<string>,
    createdBy: Option<string>)

  /** What a mutating handler does: its answer, the task collection afterwards and the emails it asked for. */
  datatype Step = Step(response: Response, tasks: seq<Task>, mail: seq<Email>)

  const DueDateMessage := "Invalid due date format. Use DD/MM/YYYY."

  /** The `YYYY-MM-DD` text the handlers store for a due date `validateDueDate` accepted. */
  function StoredDueDate(s: string): (r: string)
    requires StrictDmy(s).Some?
    ensures CastIsoDay(r) == StrictDmy(s)
  {
    CastIsoDayRoundTrip(StrictDmy(s).value);
    IsoDay(StrictDmy(s).value)
  }

  /**
   * The email asked for on behalf of the user `User.findById(id)` returns, if
   * that user has an email; `None` when the lookup throws a CastError.
   */
  function NotifyMail(users: seq<User>, id: Option<string>, subject: string): (r: Option<seq<Email>>)
    ensures r.None? <==> FindUserOpt(users, id).CastError?
    ensures r.Some? && r.value != [] ==>
      FindUserOpt(users, id).Found? && users[FindUserOpt(users, id).index].email != ""
      && r.value == [Email(users[FindUserOpt(users, id).index].email, subject)]
  {
    match FindUserOpt(users, id)
    case CastError => None
    case Missing => Some([])
    case Found(j) => Some(if users[j].email != "" then [Email(users[j].email, subject)] else [])
  }

  /** `User.findById(id)` and the `sendEmail` that follows when the user has an email; `ok` is false where the lookup throws. */
  method MailUser(mailer: Mailer, users: seq<User>, id: Option<string>, subject: string) returns (ok: bool)
    modifies mailer
    ensures ok <==> NotifyMail(users, id, subject).Some?
    ensures mailer.sent == old(mailer.sent) + (if ok then NotifyMail(users, id, subject).value else [])
  {
    var user := FindUserOpt(users, id);
    if user.CastError? {
      return false;
    }
    if user.Found? && users[user.index].email != "" {
      mailer.Send(users[user.index].email, subject);
    }
    return true;
  }

  // ---------------------------------------------------------------- createTask

  /** `new Task({ ...req.body, dueDate: formattedDueDate, createdBy: req.user._id })`. */
  function CreateDraft(body: TaskBody, dueText: string, actor: Actor, newId: ObjectId, now: int): Draft {
    Draft(newId, body.title, body.description, Some(dueText), body.priority, body.status,
      body.assignedTo, Some(actor.id), now, now)
  }

  /** `task.save()` of a new document and the email to its assignee, if the body names one. */
  function CreateSaved(tasks: seq<Task>, users: seq<User>, draft: Draft): (o: Step)
    ensures o.tasks == if Validate(draft).Some? then tasks + [Validate(draft).value] else tasks
    ensures o.response.code == 201 || o.response == Crash
    ensures o.response.code == 201 ==>
      Validate(draft).Some? && o.response.body == TaskResult(TaskCreated, Validate(draft).value)
    ensures o.response == Crash && Validate(draft).Some? ==> Truthy(draft.assignedTo)
    ensures o.mail != [] ==> o.response.code == 201 && Truthy(draft.assignedTo)
  {
    match Validate(draft)
    case None => Step(Crash, tasks, [])
    case Some(task) =>
      var stored := tasks + [task];
      var created := Response(201, TaskResult(TaskCreated, task));
      if !Truthy(draft.assignedTo) then Step(created, stored, [])
      else match NotifyMail(users, draft.assignedTo, AssignedSubject)
        case None => Step(Crash, stored, [])
        case Some(mail) => Step(created, stored, mail)
  }

  /** `createTask` as a value: the answer, the collection after it, and the mail. */
  function CreateOutcome(tasks: seq<Task>, users: seq<User>, actor: Actor, body: TaskBody, newId: ObjectId, now: int): (o: Step)
    ensures o.response.code in {201, 400, 403, 500}
    ensures o.tasks == tasks || (|o.tasks| == |tasks| + 1 && o.tasks[..|tasks|] == tasks)
  {
    if actor.role != Admin then Step(Response(403, Message(AdminsCreate)), tasks, [])
    else if !ValidDueDate(body.dueDate) then Step(Response(400, Message(DueDateMessage)), tasks, [])
    else CreateSaved(tasks, users, CreateDraft(body, StoredDueDate(body.dueDate.value), actor, newId, now))
  }

  /** What `createTask` answers, stores and mails. */
  lemma CreateRules(tasks: seq<Task>, users: seq<User>, actor: Actor, body: TaskBody, newId: ObjectId, now: int)
    ensures var o := CreateOutcome(tasks, users, actor, body, newId, now);
      actor.role != Admin ==> o == Step(Response(403, Message(AdminsCreate)), tasks, [])
    ensures var o := CreateOutcome(tasks, users, actor, body, newId, now);
      actor.role == Admin && !ValidDueDate(body.dueDate) ==> o == Step(Response(400, Message(DueDateMessage)), tasks, [])
    ensures var o := CreateOutcome(tasks, users, actor, body, newId, now);
      o.response.code == 201 <==>
      actor.role == Admin && ValidDueDate(body.dueDate)
      && Saveable(CreateDraft(body, StoredDueDate(body.dueDate.value), actor, newId, now))
    ensures var o := CreateOutcome(tasks, users, actor, body, newId, now);
      o.response.code == 201 ==>
      o.response.body.TaskResult? && o.tasks == tasks + [o.response.body.task]
    ensures var o := CreateOutcome(tasks, users, actor, body, newId, now);
      o.response.code == 201 ==> var t := o.response.body.task;
      t.id == newId && t.createdBy == actor.id && StrictDmy(body.dueDate.value) == Some(t.dueDate)
      && body.title == Some(t.title) && body.description == Some(t.description)
      && t.createdAt == now && t.updatedAt == now
    ensures var o := CreateOutcome(tasks, users, actor, body, newId, now);
      o.response.code != 201 ==> o.tasks == tasks && o.mail == []
    ensures var o := CreateOutcome(tasks, users, actor, body, newId, now);
      o.mail != [] ==> Truthy(body.assignedTo) && |o.mail| == 1 && o.mail[0].subject == AssignedSubject
  {
  }

  /** `createTask`; `newId` is the id Mongoose gives the new document and `now` the clock. */
  method CreateTask(db: Db, mailer: Mailer, actor: Actor, body: TaskBody, newId: ObjectId, now: int) returns (r: Response)
    requires db.Valid()
    requires forall k | 0 <= k < |db.tasks| :: db.tasks[k].id != newId
    modifies db, mailer
    ensures var o := CreateOutcome(old(db.tasks), old(db.users), actor, body, newId, now);
      r == o.response && db.tasks == o.tasks && mailer.sent == old(mailer.sent) + o.mail
    ensures db.users == old(db.users) && db.Valid()
  {
    if actor.role != Admin {
      return Response(403, Message(AdminsCreate));
    }
    if !ValidDueDate(body.dueDate) {
      return Response(400, Message(DueDateMessage));
    }
    var formatted := StoredDueDate(body.dueDate.value);
    r := SaveNewTask(db, mailer, CreateDraft(body, formatted, actor, newId, now));
  }

  /** The part of `createTask` after the checks: save, then mail the assignee. */
  method SaveNewTask(db: Db, mailer: Mailer, draft: Draft) returns (r: Response)
    requires db.Valid()
    requires forall k | 0 <= k < |db.tasks| :: db.tasks[k].id != draft.id
    modifies db, mailer
    ensures var o := CreateSaved(old(db.tasks), old(db.users), draft);
      r == o.response && db.tasks == o.tasks && mailer.sent == old(mailer.sent) + o.mail
    ensures db.users == old(db.users) && db.Valid()
  {
    ghost var o := CreateSaved(db.tasks, db.users, draft);
    var users := db.users;
    var saved := Validate(draft);
    if saved.None? {
      return Crash;
    }
    var task := saved.value;
    AppendKeepsValid(db.tasks, task);
    ghost var stored := db.tasks + [task];
    db.tasks := db.tasks + [task];
    if Truthy(draft.assignedTo) {
      ghost var mail := NotifyMail(users, draft.assignedTo, AssignedSubject);
      var ok := MailUser(mailer, users, draft.assignedTo, AssignedSubject);
      if !ok {
        // the save has cast `assignedTo` already, so the lookup cannot throw
        assert false;
        return Crash;
      }
      assert o == Step(Response(201, TaskResult(TaskCreated, task)), stored, mail.value);
    }
    return Response(201, TaskResult(TaskCreated, task));
  }

  // ---------------------------------------------------------------- assignTask

  const AlreadyAssigned := "Task is already assigned. Unassign it first to reassign."

  /**
   * The team check a manager's assignment goes through: `None` lets it pass,
   * otherwise the answer. An assignee who cannot be found, or who has no
   * manager, makes `managerId.toString()` throw.
   */
  function TeamCheck(users: seq<User>, actor: Actor, assignee: Option<string>): (r: Option<Response>)
    ensures r.None? <==>
      actor.role != Manager
      || (FindUserOpt(users, assignee).Found? && users[FindUserOpt(users, assignee).index].managerId == Some(actor.id))
    ensures r.Some? ==> r.value == Crash || r.value == Response(403, Message(TeamOnly))
  {
    if actor.role != Manager then None
    else match FindUserOpt(users, assignee)
      case Found(j) =>
        if users[j].managerId.None? then Some(Crash)
        else if users[j].managerId.value != actor.id then
          Some(Response(403, Message(TeamOnly)))
        else None
      case _ => Some(Crash)
  }

  /** Setting `assignedTo` on an unassigned task and saving it changes that field (and the timestamp) only. */
  lemma AssignedDraft(t: Task, assignee: Option<string>, now: int)
    requires WellFormed(t)
    ensures Validate(ToDraft(t).(assignedTo := assignee, updatedAt := now)) ==
      if assignee.Some? && !IsObjectIdText(assignee.value) then None
      else Some(t.(assignedTo := if assignee.None? then None else CastObjectId(assignee.value), updatedAt := now))
  {
    assert ParseStatus(StatusName(t.status)) == Some(t.status);
    ValidateEdited(t, ToDraft(t).(assignedTo := assignee, updatedAt := now));
  }

  function AssignOutcome(tasks: seq<Task>, users: seq<User>, actor: Actor, taskId: string, assignee: Option<string>, now: int): (o: Step)
    requires AllWellFormed(tasks)
    ensures |o.tasks| == |tasks|
    ensures o.response.code in {200, 403, 404, 500}
    ensures forall k | 0 <= k < |tasks| && o.tasks[k] != tasks[k] :: FindTask(tasks, taskId) == Found(k)
  {
    match FindTask(tasks, taskId)
    case CastError => Step(Crash, tasks, [])
    case Missing => Step(Response(404, Message(TaskNotFound)), tasks, [])
    case Found(i) =>
      if actor.role != Admin && actor.role != Manager then
        Step(Response(403, Message(AdminsOrManagers)), tasks, [])
      else if tasks[i].assignedTo.Some? then Step(Response(403, Message(AlreadyAssigned)), tasks, [])
      else match TeamCheck(users, actor, assignee)
        case Some(refusal) => Step(refusal, tasks, [])
        case None =>
          AssignedDraft(tasks[i], assignee, now);
          match Validate(AssignDraft(tasks[i], assignee, now))
          case None => Step(Crash, tasks, [])
          case Some(task) => AssignSaved(tasks, users, i, task, assignee)
  }

  /** After the save: the assignee is looked up and mailed. */
  function AssignSaved(tasks: seq<Task>, users: seq<User>, i: nat, task: Task, assignee: Option<string>): (o: Step)
    requires i < |tasks|
    ensures |o.tasks| == |tasks|
    ensures o.tasks == tasks[i := task]
    ensures o.response.code == 200 <==> FindUserOpt(users, assignee).Found?
    ensures o.response.code == 200 ==> o.response.body == TaskResult(TaskAssigned, task)
    ensures o.response.code != 200 ==> o.response == Crash && o.mail == []
  {
    var stored := tasks[i := task];
    match FindUserOpt(users, assignee)
    case Found(j) =>
      var mail := if users[j].email != "" then [Email(users[j].email, AssignedSubject)] else [];
      Step(Response(200, TaskResult(TaskAssigned, task)), stored, mail)
    // `assignedUser.email` on `null`, after the save
    case _ => Step(Crash, stored, [])
  }

  /** `assignTask`'s refusals: an unknown task, a caller who is neither admin nor manager, a task already assigned. */
  lemma AssignRefusals(tasks: seq<Task>, users: seq<User>, actor: Actor, taskId: string, assignee: Option<string>, now: int)
    requires AllWellFormed(tasks)
    ensures var o := AssignOutcome(tasks, users, actor, taskId, assignee, now);
      FindTask(tasks, taskId).Missing? ==> o == Step(Response(404, Message(TaskNotFound)), tasks, [])
    ensures var o := AssignOutcome(tasks, users, actor, taskId, assignee, now);
      actor.role != Admin && actor.role != Manager ==> o.tasks == tasks && o.response.code != 200
    ensures var o := AssignOutcome(tasks, users, actor, taskId, assignee, now);
      FindTask(tasks, taskId).Found? && tasks[FindTask(tasks, taskId).index].assignedTo.Some? ==>
      o.response.code == 403 && o.tasks == tasks && o.mail == []
  {
  }

  /** The draft `assignTask` saves. */
  function AssignDraft(t: Task, assignee: Option<string>, now: int): Draft
    requires WellFormed(t)
  {
    ToDraft(t).(assignedTo := assignee, updatedAt := now)
  }

  /** An assignment that answers 200 or sends mail got through every check and the save. */
  lemma AssignReachedSave(tasks: seq<Task>, users: seq<User>, actor: Actor, taskId: string, assignee: Option<string>, now: int)
    requires AllWellFormed(tasks)
    ensures var o := AssignOutcome(tasks, users, actor, taskId, assignee, now);
      o.response.code == 200 || o.mail != [] ==>
      FindTask(tasks, taskId).Found?
      && var i := FindTask(tasks, taskId).index;
      (actor.role == Admin || actor.role == Manager) && tasks[i].assignedTo.None?
      && TeamCheck(users, actor, assignee).None? && Validate(AssignDraft(tasks[i], assignee, now)).Some?
      && o == AssignSaved(tasks, users, i, Validate(AssignDraft(tasks[i], assignee, now)).value, assignee)
  {
    match FindTask(tasks, taskId)
    case CastError =>
    case Missing =>
    case Found(i) =>
  }

  /** A successful assignment sets the assignee of an unassigned task, and nothing else but the timestamp. */
  lemma AssignSuccess(tasks: seq<Task>, users: seq<User>, actor: Actor, taskId: string, assignee: Option<string>, now: int)
    requires AllWellFormed(tasks)
    ensures var o := AssignOutcome(tasks, users, actor, taskId, assignee, now);
      o.response.code == 200 ==>
      FindTask(tasks, taskId).Found? && assignee.Some? && (actor.role == Admin || actor.role == Manager)
      && var i := FindTask(tasks, taskId).index;
      tasks[i].assignedTo.None?
      && o.tasks == tasks[i := tasks[i].(assignedTo := CastObjectId(assignee.value), updatedAt := now)]
  {
    AssignReachedSave(tasks, users, actor, taskId, assignee, now);
    if AssignOutcome(tasks, users, actor, taskId, assignee, now).response.code == 200 {
      var i := FindTask(tasks, taskId).index;
      AssignedDraft(tasks[i], assignee, now);
      assert FindUserOpt(users, assignee).Found?;
    }
  }

  /** A manager's assignment succeeds only for a user of their team. */
  lemma AssignWithinTeam(tasks: seq<Task>, users: seq<User>, actor: Actor, taskId: string, assignee: Option<string>, now: int)
    requires AllWellFormed(tasks)
    ensures var o := AssignOutcome(tasks, users, actor, taskId, assignee, now);
      o.response.code == 200 && actor.role == Manager ==>
      FindUserOpt(users, assignee).Found? && users[FindUserOpt(users, assignee).index].managerId == Some(actor.id)
  {
  }

  /** Only an unassigned task is ever changed. */
  lemma AssignTouchesOnlyOpen(tasks: seq<Task>, users: seq<User>, actor: Actor, taskId: string, assignee: Option<string>, now: int)
    requires AllWellFormed(tasks)
    ensures var o := AssignOutcome(tasks, users, actor, taskId, assignee, now);
      o.tasks != tasks ==> FindTask(tasks, taskId).Found? && tasks[FindTask(tasks, taskId).index].assignedTo.None?
  {
  }

  /** Mail goes out only with a success, and it is the one assignment notice. */
  lemma AssignMailsOnSuccess(tasks: seq<Task>, users: seq<User>, actor: Actor, taskId: string, assignee: Option<string>, now: int)
    requires AllWellFormed(tasks)
    ensures var o := AssignOutcome(tasks, users, actor, taskId, assignee, now);
      o.mail != [] ==> o.response.code == 200 && |o.mail| == 1 && o.mail[0].subject == AssignedSubject
  {
    AssignReachedSave(tasks, users, actor, taskId, assignee, now);
    if AssignOutcome(tasks, users, actor, taskId, assignee, now).mail != [] {
      var i := FindTask(tasks, taskId).index;
      AssignSavedMail(tasks, users, i, Validate(AssignDraft(tasks[i], assignee, now)).value, assignee);
    }
  }

  /** After the save, mail goes out only with the 200, and it is one notice. */
  lemma AssignSavedMail(tasks: seq<Task>, users: seq<User>, i: nat, task: Task, assignee: Option<string>)
    requires i < |tasks|
    ensures var o := AssignSaved(tasks, users, i, task, assignee);
      o.mail != [] ==> o.response.code == 200 && |o.mail| == 1 && o.mail[0].subject == AssignedSubject
  {
  }

  /** `assignTask`: `assignee` is `req.body.assignedTo`. */
  method AssignTask(db: Db, mailer: Mailer, actor: Actor, taskId: string, assignee: Option<string>, now: int) returns (r: Response)
    requires db.Valid()
    modifies db, mailer
    ensures var o := AssignOutcome(old(db.tasks), old(db.users), actor, taskId, assignee, now);
      r == o.response && db.tasks == o.tasks && mailer.sent == old(mailer.sent) + o.mail
    ensures db.users == old(db.users) && db.Valid()
  {
    ghost var o := AssignOutcome(db.tasks, db.users, actor, taskId, assignee, now);
    var found := FindTask(db.tasks, taskId);
    if found.CastError? {
      assert o == Step(Crash, db.tasks, []);
      return Crash;
    }
    if found.Missing? {
      return Response(404, Message(TaskNotFound));
    }
    var i := found.index;
    if actor.role != Admin && actor.role != Manager {
      assert o == Step(Response(403, Message(AdminsOrManagers)), db.tasks, []);
      return Response(403, Message(AdminsOrManagers));
    }
    if db.tasks[i].assignedTo.Some? {
      assert o == Step(Response(403, Message(AlreadyAssigned)), db.tasks, []);
      return Response(403, Message(AlreadyAssigned));
    }
    var refusal := TeamCheck(db.users, actor, assignee);
    if refusal.Some? {
      assert o == Step(refusal.value, db.tasks, []);
      return refusal.value;
    }
    AssignedDraft(db.tasks[i], assignee, now);
    var saved := Validate(AssignDraft(db.tasks[i], assignee, now));
    if saved.None? {
      assert o == Step(Crash, db.tasks, []);
      return Crash;
    }
    assert o == AssignSaved(db.tasks, db.users, i, saved.value, assignee);
    r := SaveAssignment(db, mailer, i, saved.value, assignee);
  }

  /** The part of `assignTask` after the checks: store the assigned task, then mail the assignee. */
  method SaveAssignment(db: Db, mailer: Mailer, i: nat, task: Task, assignee: Option<string>) returns (r: Response)
    requires db.Valid() && i < |db.tasks| && WellFormed(task) && task.id == db.tasks[i].id
    modifies db, mailer
    ensures var o := AssignSaved(old(db.tasks), old(db.users), i, task, assignee);
      r == o.response && db.tasks == o.tasks && mailer.sent == old(mailer.sent) + o.mail
    ensures db.users == old(db.users) && db.Valid()
  {
    ghost var o := AssignSaved(db.tasks, db.users, i, task, assignee);
    var users := db.users;
    ReplaceKeepsValid(db.tasks, i, task);
    db.tasks := db.tasks[i := task];
    var user := FindUserOpt(users, assignee);
    if !user.Found? {
      return Crash;
    }
    if users[user.index].email != "" {
      mailer.Send(users[user.index].email, AssignedSubject);
    }
    return Response(200, TaskResult(TaskAssigned, task));
  }

  /**
   * An admin's assignment to a well-formed id nobody has is saved, and only
   * then does the notification lookup crash: the answer is 500 but the task
   * stays assigned.
   */
  lemma AssignSavesBeforeCrash(tasks: seq<Task>, users: seq<User>, actor: Actor, taskId: string, assignee: string, now: int)
    requires AllWellFormed(tasks) && actor.role == Admin
    requires FindTask(tasks, taskId).Found? && tasks[FindTask(tasks, taskId).index].assignedTo.None?
    requires IsObjectIdText(assignee) && FindUser(users, assignee).Missing?
    ensures var o := AssignOutcome(tasks, users, actor, taskId, Some(assignee), now);
      var i := FindTask(tasks, taskId).index;
      o.response == Crash && o.tasks[i].assignedTo == CastObjectId(assignee) && o.mail == []
  {
    var i := FindTask(tasks, taskId).index;
    AssignedDraft(tasks[i], Some(assignee), now);
    assert TeamCheck(users, actor, Some(assignee)).None?;
    var saved := tasks[i].(assignedTo := CastObjectId(assignee), updatedAt := now);
    assert Validate(ToDraft(tasks[i]).(assignedTo := Some(assignee), updatedAt := now)) == Some(saved);
    assert FindUserOpt(users, Some(assignee)).Missing?;
    assert AssignOutcome(tasks, users, actor, taskId, Some(assignee), now) == Step(Crash, tasks[i := saved], []);
  }

  // ---------------------------------------------------------------- getTaskById

  /** The cache key of one task: the raw route parameter, whoever asks. */
  function TaskKey(taskId: string): string {
    "task_" + taskId
  }

  /** The access test of `getTaskById`, as written: a manager's test looks at `assignedTo`, not at a team. */
  predicate CanView(actor: Actor, t: Task) {
    actor.role == Admin
    || (actor.role == Manager && ((t.assignedTo.Some? && t.assignedTo.value == actor.id) || t.assignedTo.None?))
    || (actor.role == Member && t.assignedTo.Some? && t.assignedTo.value == actor.id)
  }

  /** What each role may read: a user's tasks, a manager's own and unassigned ones, and an admin's all. */
  lemma CanViewByRole(id: ObjectId, t: Task, name: string)
    ensures CanView(Actor(id, Member), t) <==> t.assignedTo == Some(id)
    ensures CanView(Actor(id, Manager), t) <==> t.assignedTo == Some(id) || t.assignedTo.None?
    ensures CanView(Actor(id, Member), t) ==> CanView(Actor(id, Manager), t)
    ensures CanView(Actor(id, Admin), t)
    ensures !CanView(Actor(id, Other(name)), t)
  {
  }

  /** The key names one route parameter: different ids never share a cache entry. */
  lemma TaskKeyNamesOneTask(a: string, b: string)
    ensures TaskKey(a) == TaskKey(b) <==> a == b
  {
    assert TaskKey(a)[5..] == a && TaskKey(b)[5..] == b;
  }

  function ReadOutcome(tasks: seq<Task>, cache: map<string, Body>, actor: Actor, taskId: string): (o: ReadStep)
    ensures TaskKey(taskId) in cache ==> o == ReadStep(Response(200, cache[TaskKey(taskId)]), cache)
    ensures TaskKey(taskId) !in cache ==>
      (o.response.code == 200 <==> FindTask(tasks, taskId).Found? && CanView(actor, tasks[FindTask(tasks, taskId).index]))
    ensures TaskKey(taskId) !in cache && o.response.code == 200 ==>
      o.response.body == TaskDoc(tasks[FindTask(tasks, taskId).index])
    ensures TaskKey(taskId) !in cache && FindTask(tasks, taskId).Missing? ==>
      o.response == Response(404, Message(TaskNotFound))
    ensures o.cache == cache
      || (TaskKey(taskId) !in cache && o.response.code == 200 && o.cache == cache[TaskKey(taskId) := o.response.body])
  {
    var key := TaskKey(taskId);
    if key in cache then ReadStep(Response(200, cache[key]), cache)
    else match FindTask(tasks, taskId)
      case CastError => ReadStep(Crash, cache)
      case Missing => ReadStep(Response(404, Message(TaskNotFound)), cache)
      case Found(i) =>
        if CanView(actor, tasks[i]) then ReadStep(Response(200, TaskDoc(tasks[i])), cache[key := TaskDoc(tasks[i])])
        else ReadStep(Response(403, Message(AccessDenied)), cache)
  }

  /** `getTaskById`. */
  method GetTaskById(db: Db, cache: Cache, actor: Actor, taskId: string) returns (r: Response)
    modifies cache
    ensures var o := ReadOutcome(db.tasks, old(cache.entries), actor, taskId);
      r == o.response && cache.entries == o.cache
  {
    var key := TaskKey(taskId);
    var cached := cache.Get(key);
    if cached.Some? {
      return Response(200, cached.value);
    }
    var found := FindTask(db.tasks, taskId);
    if found.CastError? {
      return Crash;
    }
    if found.Missing? {
      return Response(404, Message(TaskNotFound));
    }
    var task := db.tasks[found.index];
    if CanView(actor, task) {
      cache.Set(key, TaskDoc(task));
      return Response(200, TaskDoc(task));
    }
    return Response(403, Message(AccessDenied));
  }

  /**
   * Once one reader has put a task in the cache, every later reader gets it,
   * including one the access test refuses.
   */
  lemma CachedTaskBypassesAccess(tasks: seq<Task>, cache: map<string, Body>, first: Actor, later: Actor, taskId: string)
    requires TaskKey(taskId) !in cache
    requires ReadOutcome(tasks, cache, first, taskId).response.code == 200
    ensures FindTask(tasks, taskId).Found?
    ensures var t := tasks[FindTask(tasks, taskId).index];
      ReadOutcome(tasks, ReadOutcome(tasks, cache, first, taskId).cache, later, taskId).response == Response(200, TaskDoc(t))
      && (!CanView(later, t) ==> ReadOutcome(tasks, cache, later, taskId).response.code == 403)
  {
  }

  // ---------------------------------------------------------------- updateTask

  /** Where a role's branch of `updateTask` leaves the request: answered, or an edited document and whether to notify. */
  datatype Plan = Stop(response: Response) | Edit(draft: Draft, notify: bool)

  /** A present body value replaces the current one, as `Object.assign` and `task[key] = value` do. */
  function Over(current: Option<string>, given: Option<string>): Option<string> {
    if given.Some? then given else current
  }

  /** The body with a truthy due date replaced by its stored `YYYY-MM-DD` form (`req.body.dueDate = formattedDueDate`). */
  function Reformat(body: TaskBody): (b: TaskBody)
    requires Truthy(body.dueDate) ==> ValidDueDate(body.dueDate)
    ensures Truthy(body.dueDate) ==> b.dueDate.Some? && CastIsoDay(b.dueDate.value) == StrictDmy(body.dueDate.value)
    ensures !Truthy(body.dueDate) ==> b == body
    ensures b.(dueDate := body.dueDate) == body
  {
    if Truthy(body.dueDate) then body.(dueDate := Some(StoredDueDate(body.dueDate.value))) else body
  }

  /** `Object.assign(task, req.body)`: every field the body carries is copied. */
  function AssignBody(d: Draft, b: TaskBody): Draft {
    d.(title := Over(d.title, b.title), description := Over(d.description, b.description),
       dueDate := Over(d.dueDate, b.dueDate), priority := Over(d.priority, b.priority),
       status := Over(d.status, b.status), assignedTo := Over(d.assignedTo, b.assignedTo),
       createdBy := Over(d.createdBy, b.createdBy))
  }

  /** The keys a request body may carry, one per field of `TaskBody`. */
  datatype Key = TitleKey | DescriptionKey | DueDateKey | PriorityKey | StatusKey | AssignedToKey | CreatedByKey

  /** The keys `Object.keys(req.body)` lists, in schema order. */
  function BodyKeys(b: TaskBody): (keys: seq<Key>)
    ensures PriorityKey in keys <==> b.priority.Some?
    ensures StatusKey in keys <==> b.status.Some?
    ensures DueDateKey in keys <==> b.dueDate.Some?
  {
    (if b.title.Some? then [TitleKey] else [])
    + (if b.description.Some? then [DescriptionKey] else [])
    + (if b.dueDate.Some? then [DueDateKey] else [])
    + (if b.priority.Some? then [PriorityKey] else [])
    + (if b.status.Some? then [StatusKey] else [])
    + (if b.assignedTo.Some? then [AssignedToKey] else [])
    + (if b.createdBy.Some? then [CreatedByKey] else [])
  }

  /** `req.body[key]`. */
  function BodyValue(b: TaskBody, key: Key): Option<string> {
    match key
    case TitleKey => b.title
    case DescriptionKey => b.description
    case DueDateKey => b.dueDate
    case PriorityKey => b.priority
    case StatusKey => b.status
    case AssignedToKey => b.assignedTo
    case CreatedByKey => b.createdBy
  }

  /** The only keys a manager's update applies. */
  const AllowedUpdates: seq<Key> := [PriorityKey, StatusKey, DueDateKey]

  /** One turn of the `forEach`: an allowed key writes `task[key] = req.body[key]`, any other key is skipped. */
  function ApplyKey(d: Draft, b: TaskBody, key: Key): Draft {
    match key
    case PriorityKey => d.(priority := BodyValue(b, key))
    case StatusKey => d.(status := BodyValue(b, key))
    case DueDateKey => d.(dueDate := BodyValue(b, key))
    case _ => d
  }

  /** The `forEach` over a list of keys. */
  function ApplyKeys(d: Draft, b: TaskBody, keys: seq<Key>): Draft {
    if keys == [] then d else ApplyKey(ApplyKeys(d, b, keys[..|keys| - 1]), b, keys[|keys| - 1])
  }

  /** A key outside the allowed ones leaves the document alone. */
  lemma SkippedKey(d: Draft, b: TaskBody, key: Key)
    requires key !in AllowedUpdates
    ensures ApplyKey(d, b, key) == d
  {
    assert key != PriorityKey && key != StatusKey && key != DueDateKey by {
      assert AllowedUpdates[0] == PriorityKey && AllowedUpdates[1] == StatusKey && AllowedUpdates[2] == DueDateKey;
    }
  }

  /** One more key of the `forEach`. */
  lemma ApplyKeysStep(d: Draft, b: TaskBody, keys: seq<Key>, k: nat)
    requires k < |keys|
    ensures ApplyKeys(d, b, keys[..k + 1]) == ApplyKey(ApplyKeys(d, b, keys[..k]), b, keys[k])
  {
    assert keys[..k + 1][..k] == keys[..k];
  }

  /** The manager's field matrix: `priority`, `status` and `dueDate` come from the body when present; nothing else changes. */
  function ManagerEdit(d: Draft, b: TaskBody): Draft {
    d.(priority := Over(d.priority, b.priority), status := Over(d.status, b.status), dueDate := Over(d.dueDate, b.dueDate))
  }

  /** Whatever the order of the keys, the `forEach` writes exactly the allowed paths whose key it meets. */
  lemma {:induction false} ApplyKeysWrites(d: Draft, b: TaskBody, keys: seq<Key>)
    ensures ApplyKeys(d, b, keys) == d.(
      priority := if PriorityKey in keys then b.priority else d.priority,
      status := if StatusKey in keys then b.status else d.status,
      dueDate := if DueDateKey in keys then b.dueDate else d.dueDate)
  {
    if keys != [] {
      var init := keys[..|keys| - 1];
      ApplyKeysWrites(d, b, init);
      assert keys == init + [keys[|keys| - 1]];
      forall k ensures k in keys <==> k in init || k == keys[|keys| - 1] {
        assert k in init ==> k in keys;
      }
    }
  }

  /** Some key of the list is an allowed one: what `notifyUpdate` records over the `forEach`. */
  predicate AnyAllowed(keys: seq<Key>)
    decreases |keys|
  {
    keys != [] && (AnyAllowed(keys[..|keys| - 1]) || keys[|keys| - 1] in AllowedUpdates)
  }

  /** One more key for the allowed-key test. */
  lemma AnyAllowedStep(keys: seq<Key>, k: nat)
    requires k < |keys|
    ensures AnyAllowed(keys[..k + 1]) <==> AnyAllowed(keys[..k]) || keys[k] in AllowedUpdates
  {
    assert keys[..k + 1][..k] == keys[..k];
  }

  /** A list of keys holds an allowed key exactly when it holds `priority`, `status` or `dueDate`. */
  lemma {:induction false} AnyAllowedMeans(keys: seq<Key>)
    ensures AnyAllowed(keys) <==> PriorityKey in keys || StatusKey in keys || DueDateKey in keys
    decreases |keys|
  {
    if keys != [] {
      var init := keys[..|keys| - 1];
      AnyAllowedMeans(init);
      assert keys == init + [keys[|keys| - 1]];
    }
  }

  /**
   * Lines 272-279 of `updateTask`: the manager's `forEach` over the body's
   * keys, which applies the allowed ones and notes whether any was present.
   */
  method ApplyAllowedUpdates(d: Draft, body: TaskBody) returns (e: Draft, notify: bool)
    ensures e == ManagerEdit(d, body)
    ensures notify <==> body.priority.Some? || body.status.Some? || body.dueDate.Some?
  {
    var updates := BodyKeys(body);
    e := d;
    notify := false;
    var k := 0;
    while k < |updates|
      invariant 0 <= k <= |updates|
      invariant e == ApplyKeys(d, body, updates[..k])
      invariant notify <==> AnyAllowed(updates[..k])
    {
      var key := updates[k];
      ApplyKeysStep(d, body, updates, k);
      AnyAllowedStep(updates, k);
      if key in AllowedUpdates {
        e := ApplyKey(e, body, key);
        notify := true;
      } else {
        SkippedKey(e, body, key);
      }
      k := k + 1;
    }
    assert updates[..k] == updates;
    ApplyKeysWrites(d, body, updates);
    AnyAllowedMeans(updates);
  }

  /**
   * The manager branch of `updateTask`, given the value `task.managerId`
   * reads. Task documents have no such path, so the handler always calls
   * this with `None`, and `undefined.toString()` throws.
   */
  function ManagerBranch(managerId: Option<ObjectId>, task: Task, actor: Actor, body: TaskBody): (p: Plan)
    requires WellFormed(task)
    ensures managerId.None? ==> p == Stop(Crash)
    ensures managerId.Some? && managerId.value != actor.id ==>
      p == Stop(Response(403, Message(ManagersTeamOnly)))
    ensures p.Edit? ==>
      (managerId == Some(actor.id)
       && (Truthy(body.dueDate) ==> ValidDueDate(body.dueDate))
       && p.draft == ManagerEdit(ToDraft(task), Reformat(body))
       && (p.notify <==> body.priority.Some? || body.status.Some? || body.dueDate.Some?))
  {
    if managerId.None? then Stop(Crash)
    else if managerId.value != actor.id then Stop(Response(403, Message(ManagersTeamOnly)))
    else if Truthy(body.dueDate) && !ValidDueDate(body.dueDate) then Stop(Response(400, Message(DueDateMessage)))
    else
      var b := Reformat(body);
      Edit(ManagerEdit(ToDraft(task), b), b.priority.Some? || b.status.Some? || b.dueDate.Some?)
  }

  /** The manager's edit never touches the title, description, assignee or creator. */
  lemma ManagerEditKeepsOtherFields(task: Task, actor: Actor, body: TaskBody)
    requires WellFormed(task)
    requires ManagerBranch(Some(actor.id), task, actor, body).Edit?
    ensures var d := ManagerBranch(Some(actor.id), task, actor, body).draft;
      d.title == Some(task.title) && d.description == Some(task.description)
      && d.assignedTo == ToDraft(task).assignedTo && d.createdBy == Some(task.createdBy)
      && (body.priority.Some? ==> d.priority == body.priority)
      && (body.status.Some? ==> d.status == body.status)
      && (Truthy(body.dueDate) ==> CastIsoDay(d.dueDate.value) == StrictDmy(body.dueDate.value))
  {
  }

  /** The role branches of `updateTask` (lines 249-292). */
  function UpdatePlan(task: Task, actor: Actor, body: TaskBody): (p: Plan)
    requires WellFormed(task)
    ensures p.Edit? ==> p.draft.id == task.id
  {
    if actor.role == Admin then
      if Truthy(body.dueDate) && !ValidDueDate(body.dueDate) then Stop(Response(400, Message(DueDateMessage)))
      else Edit(AssignBody(ToDraft(task), Reformat(body)), true)
    else if actor.role == Manager then ManagerBranch(None, task, actor, body)
    else if actor.role == Member then
      if task.assignedTo.None? then Stop(Crash)
      else if task.assignedTo.value != actor.id then Stop(Response(403, Message(OwnTasksOnly)))
      else if Truthy(body.status) then Edit(ToDraft(task).(status := body.status), true)
      else Stop(Response(403, Message(StatusOnly)))
    else Stop(Response(403, Message(Unauthorized)))
  }

  /**
   * The id `User.findById(task.assignedTo)` receives. Setting a path to a
   * value that does not cast leaves the old value in place (the save then
   * fails).
   */
  function NotifyTarget(d: Draft, task: Task): Option<string> {
    if d.assignedTo.Some? && !IsObjectIdText(d.assignedTo.value) then
      (if task.assignedTo.None? then None else Some(task.assignedTo.value))
    else d.assignedTo
  }

  /** For a draft that saves, the notification lookup finds the assignee the saved task records. */
  lemma SavedAssignee(users: seq<User>, d: Draft, task: Task)
    requires Validate(d).Some?
    ensures FindUserOpt(users, NotifyTarget(d, task)) == FindUserOpt(users, AssigneeText(Validate(d).value))
  {
    if d.assignedTo.Some? {
      var a := d.assignedTo.value;
      assert NotifyTarget(d, task) == Some(a);
      assert CastObjectId(CastObjectId(a).value) == CastObjectId(a);
    }
  }

  /** Setting a status on a loaded task and saving it changes the status (and the timestamp) only. */
  lemma StatusDraft(t: Task, status: Option<string>, now: int)
    requires WellFormed(t)
    ensures status.Some? ==>
      Validate(ToDraft(t).(status := status, updatedAt := now)) ==
      if ParseStatus(status.value).None? then None
      else Some(t.(status := ParseStatus(status.value).value, updatedAt := now))
  {
    if status.Some? {
      var d := ToDraft(t).(status := status, updatedAt := now);
      assert d.assignedTo.Some? ==> CastObjectId(d.assignedTo.value) == t.assignedTo;
      ValidateEdited(t, d);
    }
  }

  function UpdateOutcome(tasks: seq<Task>, users: seq<User>, actor: Actor, taskId: string, body: TaskBody, now: int): (o: Step)
    requires AllWellFormed(tasks)
    ensures o.response.code == 200 ==> o.response.body.TaskResult?
    ensures o.response.code != 200 ==> o.tasks == tasks
    ensures o.response.code == 200 ==>
      FindTask(tasks, taskId).Found? && o.tasks == tasks[FindTask(tasks, taskId).index := o.response.body.task]
    ensures o.mail != [] ==> |o.mail| == 1 && o.mail[0].subject == UpdatedSubject
  {
    match FindTask(tasks, taskId)
    case CastError => Step(Crash, tasks, [])
    case Missing => Step(Response(404, Message(TaskNotFound)), tasks, [])
    case Found(i) =>
      match UpdatePlan(tasks[i], actor, body)
      case Stop(r) => Step(r, tasks, [])
      case Edit(d, notify) => EditSaved(tasks, users, i, d, notify, now)
  }

  /** Lines 294-309: the optional notification, then the save of the edited document. */
  function EditSaved(tasks: seq<Task>, users: seq<User>, i: nat, d: Draft, notify: bool, now: int): (o: Step)
    requires i < |tasks|
    ensures o.response.code == 200 ==> o.response.body.TaskResult? && o.tasks == tasks[i := o.response.body.task]
    ensures o.response.code != 200 ==> o.tasks == tasks
    ensures o.mail != [] ==> |o.mail| == 1 && o.mail[0].subject == UpdatedSubject
  {
    var mail := if notify then NotifyMail(users, NotifyTarget(d, tasks[i]), UpdatedSubject) else Some([]);
    if mail.None? then Step(Crash, tasks, [])
    else match Validate(d.(updatedAt := now))
      // the email has gone out already
      case None => Step(Crash, tasks, mail.value)
      case Some(t) => Step(Response(200, TaskResult(TaskUpdated, t)), tasks[i := t], mail.value)
  }

  /** The answers of `updateTask` that do not depend on the body: a missing task, a manager, an unknown role. */
  lemma UpdateRules(tasks: seq<Task>, users: seq<User>, actor: Actor, taskId: string, body: TaskBody, now: int)
    requires AllWellFormed(tasks)
    ensures var o := UpdateOutcome(tasks, users, actor, taskId, body, now);
      FindTask(tasks, taskId).Missing? ==> o == Step(Response(404, Message(TaskNotFound)), tasks, [])
    ensures var o := UpdateOutcome(tasks, users, actor, taskId, body, now);
      FindTask(tasks, taskId).Found? && actor.role == Manager ==> o == Step(Crash, tasks, [])
    ensures var o := UpdateOutcome(tasks, users, actor, taskId, body, now);
      FindTask(tasks, taskId).Found? && actor.role.Other? ==>
      o == Step(Response(403, Message(Unauthorized)), tasks, [])
  {
  }

  /** `updateTask` answers Unauthorized only to a role outside the three it knows. */
  lemma UnauthorizedOnlyForOtherRoles(tasks: seq<Task>, users: seq<User>, actor: Actor, taskId: string, body: TaskBody, now: int)
    requires AllWellFormed(tasks)
    ensures UpdateOutcome(tasks, users, actor, taskId, body, now).response == Response(403, Message(Unauthorized)) ==>
      actor.role.Other?
  {
    if FindTask(tasks, taskId).Found? && !actor.role.Other? {
      var i := FindTask(tasks, taskId).index;
      var p := UpdatePlan(tasks[i], actor, body);
      assert p.Stop? ==> p.response != Response(403, Message(Unauthorized));
    }
  }

  /**
   * A user's update: unassigned tasks crash, other people's tasks and bodies
   * without a status are refused, and otherwise only the status changes.
   */
  lemma UserUpdateRules(tasks: seq<Task>, users: seq<User>, actor: Actor, taskId: string, body: TaskBody, now: int)
    requires AllWellFormed(tasks) && FindTask(tasks, taskId).Found? && actor.role == Member
    ensures var o := UpdateOutcome(tasks, users, actor, taskId, body, now);
      var t := tasks[FindTask(tasks, taskId).index];
      (t.assignedTo.None? ==> o == Step(Crash, tasks, []))
      && (t.assignedTo.Some? && t.assignedTo.value != actor.id ==>
            o == Step(Response(403, Message(OwnTasksOnly)), tasks, []))
      && (t.assignedTo == Some(actor.id) && !Truthy(body.status) ==>
            o == Step(Response(403, Message(StatusOnly)), tasks, []))
      && (t.assignedTo == Some(actor.id) && Truthy(body.status) ==>
            (o.response.code == 200 <==> ParseStatus(body.status.value).Some?)
            && (o.response.code == 200 ==>
                  o.tasks == tasks[FindTask(tasks, taskId).index := t.(status := ParseStatus(body.status.value).value, updatedAt := now)]))
  {
    var i := FindTask(tasks, taskId).index;
    StatusDraft(tasks[i], body.status, now);
  }

  /**
   * An admin's successful update stores the edited document `Object.assign`
   * builds from the body; `AdminEditSaved` says what that document holds.
   */
  lemma AdminUpdateCopiesBody(tasks: seq<Task>, users: seq<User>, actor: Actor, taskId: string, body: TaskBody, now: int)
    requires AllWellFormed(tasks) && FindTask(tasks, taskId).Found? && actor.role == Admin
    requires UpdateOutcome(tasks, users, actor, taskId, body, now).response.code == 200
    ensures var o := UpdateOutcome(tasks, users, actor, taskId, body, now);
      var i := FindTask(tasks, taskId).index;
      var t := o.response.body.task;
      var d := AssignBody(ToDraft(tasks[i]), Reformat(body));
      i < |tasks| && o.tasks == tasks[i := t] && Validate(d.(updatedAt := now)) == Some(t)
  {
    var i := FindTask(tasks, taskId).index;
    var task := tasks[i];
    var d := AssignBody(ToDraft(task), Reformat(body));
    assert UpdatePlan(task, actor, body) == Edit(d, true);
    var mail := NotifyMail(users, NotifyTarget(d, task), UpdatedSubject);
    var saved := Validate(d.(updatedAt := now));
    assert mail.Some? && saved.Some?;
    assert UpdateOutcome(tasks, users, actor, taskId, body, now)
      == Step(Response(200, TaskResult(TaskUpdated, saved.value)), tasks[i := saved.value], mail.value);
  }

  /** The fields of the document an admin's edit saves: the body's where it has one, the task's elsewhere. */
  lemma AdminEditSaved(task: Task, body: TaskBody, now: int)
    requires WellFormed(task) && (Truthy(body.dueDate) ==> ValidDueDate(body.dueDate))
    requires Validate(AssignBody(ToDraft(task), Reformat(body)).(updatedAt := now)).Some?
    ensures var t := Validate(AssignBody(ToDraft(task), Reformat(body)).(updatedAt := now)).value;
      t.id == task.id && t.createdAt == task.createdAt && t.updatedAt == now
      && (if body.title.Some? then body.title == Some(t.title) else t.title == task.title)
      && (if body.description.Some? then body.description == Some(t.description) else t.description == task.description)
      && (if Truthy(body.dueDate) then StrictDmy(body.dueDate.value) == Some(t.dueDate) else body.dueDate.None? ==> t.dueDate == task.dueDate)
      && (if body.priority.Some? then body.priority == Some(PriorityName(t.priority)) else t.priority == task.priority)
      && (if body.status.Some? then body.status == Some(StatusName(t.status)) else t.status == task.status)
      && (if body.createdBy.Some? then CastObjectId(body.createdBy.value) == Some(t.createdBy) else t.createdBy == task.createdBy)
  {
    var b := Reformat(body);
    var d := AssignBody(ToDraft(task), b).(updatedAt := now);
    var t := Validate(d).value;
    assert b.title == body.title && b.description == body.description && b.priority == body.priority
      && b.status == body.status && b.createdBy == body.createdBy;
    SavedKeeps(task, d, t);
  }

  /** A saved field whose draft value is still the loaded task's text keeps the task's value. */
  lemma SavedKeeps(task: Task, d: Draft, t: Task)
    requires WellFormed(task) && Validate(d) == Some(t)
    ensures d.dueDate == Some(IsoDay(task.dueDate)) ==> t.dueDate == task.dueDate
    ensures d.priority == Some(PriorityName(task.priority)) ==> t.priority == task.priority
    ensures d.status == Some(StatusName(task.status)) ==> t.status == task.status
    ensures d.createdBy == Some(task.createdBy) ==> t.createdBy == task.createdBy
  {
    CastIsoDayRoundTrip(task.dueDate);
    assert d.priority == Some(PriorityName(task.priority)) ==> PriorityName(t.priority) == PriorityName(task.priority);
    assert d.status == Some(StatusName(task.status)) ==> StatusName(t.status) == StatusName(task.status);
    assert d.createdBy == Some(task.createdBy) ==> Some(t.createdBy) == CastObjectId(task.createdBy);
  }


  /** Every successful update asked for an email to the task's (new) assignee, when that user has an email. */
  lemma UpdateNotifiesAssignee(tasks: seq<Task>, users: seq<User>, actor: Actor, taskId: string, body: TaskBody, now: int)
    requires AllWellFormed(tasks)
    requires UpdateOutcome(tasks, users, actor, taskId, body, now).response.code == 200
    ensures var o := UpdateOutcome(tasks, users, actor, taskId, body, now);
      o.response.body.TaskResult? && NotifyMail(users, AssigneeText(o.response.body.task), UpdatedSubject) == Some(o.mail)
  {
    var i := FindTask(tasks, taskId).index;
    var p := UpdatePlan(tasks[i], actor, body);
    assert p.Edit? && p.notify;
    assert UpdateOutcome(tasks, users, actor, taskId, body, now) == EditSaved(tasks, users, i, p.draft, true, now);
    EditSavedNotifies(tasks, users, i, p.draft, now);
  }

  /** A notifying edit that saves mailed the assignee the saved task records. */
  lemma EditSavedNotifies(tasks: seq<Task>, users: seq<User>, i: nat, d: Draft, now: int)
    requires i < |tasks|
    requires EditSaved(tasks, users, i, d, true, now).response.code == 200
    ensures var o := EditSaved(tasks, users, i, d, true, now);
      NotifyMail(users, AssigneeText(o.response.body.task), UpdatedSubject) == Some(o.mail)
  {
    var saved := d.(updatedAt := now);
    assert NotifyTarget(saved, tasks[i]) == NotifyTarget(d, tasks[i]);
    SavedAssignee(users, saved, tasks[i]);
  }


  /** The context-free text of a task's assignee, as `findById` receives it. */
  function AssigneeText(t: Task): Option<string> {
    if t.assignedTo.None? then None else Some(t.assignedTo.value)
  }

  /** Lines 249-292 of `updateTask`: the role branches, which answer or leave an edited document. */
  method PlanUpdate(task: Task, actor: Actor, body: TaskBody) returns (p: Plan)
    requires WellFormed(task)
    ensures p == UpdatePlan(task, actor, body)
  {
    var draft := ToDraft(task);
    if actor.role == Admin {
      if Truthy(body.dueDate) && !ValidDueDate(body.dueDate) {
        return Stop(Response(400, Message(DueDateMessage)));
      }
      draft := AssignBody(draft, Reformat(body));
      return Edit(draft, true);
    } else if actor.role == Manager {
      // `task.managerId` is undefined, so `task.managerId.toString()` throws
      return Stop(Crash);
    } else if actor.role == Member {
      if task.assignedTo.None? {
        return Stop(Crash);
      }
      if task.assignedTo.value != actor.id {
        return Stop(Response(403, Message(OwnTasksOnly)));
      }
      if !Truthy(body.status) {
        return Stop(Response(403, Message(StatusOnly)));
      }
      draft := draft.(status := body.status);
      return Edit(draft, true);
    }
    return Stop(Response(403, Message(Unauthorized)));
  }

  /** `updateTask`. */
  method UpdateTask(db: Db, mailer: Mailer, actor: Actor, taskId: string, body: TaskBody, now: int) returns (r: Response)
    requires db.Valid()
    modifies db, mailer
    ensures var o := UpdateOutcome(old(db.tasks), old(db.users), actor, taskId, body, now);
      r == o.response && db.tasks == o.tasks && mailer.sent == old(mailer.sent) + o.mail
    ensures db.users == old(db.users) && db.Valid()
  {
    ghost var o := UpdateOutcome(db.tasks, db.users, actor, taskId, body, now);
    var found := FindTask(db.tasks, taskId);
    if found.CastError? {
      assert o == Step(Crash, db.tasks, []);
      return Crash;
    }
    if found.Missing? {
      return Response(404, Message(TaskNotFound));
    }
    var i := found.index;
    var task := db.tasks[i];
    var plan := PlanUpdate(task, actor, body);
    if plan.Stop? {
      assert o == Step(plan.response, db.tasks, []);
      return plan.response;
    }
    assert o == EditSaved(db.tasks, db.users, i, plan.draft, plan.notify, now);
    r := SaveEdit(db, mailer, i, plan.draft, plan.notify, now);
  }

  /** The part of `updateTask` after the role checks: notify if asked, then save. */
  method SaveEdit(db: Db, mailer: Mailer, i: nat, draft: Draft, notify: bool, now: int) returns (r: Response)
    requires db.Valid() && i < |db.tasks| && draft.id == db.tasks[i].id
    modifies db, mailer
    ensures var o := EditSaved(old(db.tasks), old(db.users), i, draft, notify, now);
      r == o.response && db.tasks == o.tasks && mailer.sent == old(mailer.sent) + o.mail
    ensures db.users == old(db.users) && db.Valid()
  {
    ghost var o := EditSaved(db.tasks, db.users, i, draft, notify, now);
    var users := db.users;
    var task := db.tasks[i];
    ghost var mail := NotifyMail(users, NotifyTarget(draft, task), UpdatedSubject);
    if notify {
      var ok := MailUser(mailer, users, NotifyTarget(draft, task), UpdatedSubject);
      if !ok {
        return Crash;
      }
    }
    ghost var sent := if notify then mail.value else [];
    var saved := Validate(draft.(updatedAt := now));
    if saved.None? {
      assert o == Step(Crash, db.tasks, sent);
      return Crash;
    }
    ReplaceKeepsValid(db.tasks, i, saved.value);
    assert o == Step(Response(200, TaskResult(TaskUpdated, saved.value)), db.tasks[i := saved.value], sent);
    db.tasks := db.tasks[i := saved.value];
    return Response(200, TaskResult(TaskUpdated, saved.value));
  }

  // ---------------------------------------------------------------- deleteTask

  function DeleteOutcome(tasks: seq<Task>, actor: Actor, taskId: string): (o: Step)
    ensures actor.role != Admin ==> o == Step(Response(403, Message(AdminsDelete)), tasks, [])
    ensures actor.role == Admin && FindTask(tasks, taskId).Missing? ==> o == Step(Response(404, Message(TaskNotFound)), tasks, [])
    ensures o.response.code == 200 <==> actor.role == Admin && FindTask(tasks, taskId).Found?
    ensures o.response.code == 200 ==> o.tasks == RemoveAt(tasks, FindTask(tasks, taskId).index)
    ensures o.response.code != 200 ==> o.tasks == tasks
    ensures o.mail == []
  {
    if actor.role != Admin then Step(Response(403, Message(AdminsDelete)), tasks, [])
    else match FindTask(tasks, taskId)
      case CastError => Step(Crash, tasks, [])
      case Missing => Step(Response(404, Message(TaskNotFound)), tasks, [])
      case Found(i) => Step(Response(200, Message(TaskDeleted)), RemoveAt(tasks, i), [])
  }

  /** After a successful delete no stored task has the deleted id. */
  lemma DeleteRemovesId(tasks: seq<Task>, actor: Actor, taskId: string)
    requires TasksValid(tasks)
    requires DeleteOutcome(tasks, actor, taskId).response.code == 200
    ensures forall k | 0 <= k < |DeleteOutcome(tasks, actor, taskId).tasks| ::
      Some(DeleteOutcome(tasks, actor, taskId).tasks[k].id) != CastObjectId(taskId)
    ensures |DeleteOutcome(tasks, actor, taskId).tasks| == |tasks| - 1
  {
    var i := FindTask(tasks, taskId).index;
    var rest := DeleteOutcome(tasks, actor, taskId).tasks;
    forall k | 0 <= k < |rest|
      ensures Some(rest[k].id) != CastObjectId(taskId)
    {
      if k < i {
        assert rest[k] == tasks[k];
      } else {
        assert rest[k] == tasks[k + 1];
      }
    }
  }

  /** `deleteTask` (`findByIdAndDelete`). */
  method DeleteTask(db: Db, actor: Actor, taskId: string) returns (r: Response)
    requires db.Valid()
    modifies db
    ensures var o := DeleteOutcome(old(db.tasks), actor, taskId);
      r == o.response && db.tasks == o.tasks
    ensures db.users == old(db.users) && db.Valid()
  {
    if actor.role != Admin {
      return Response(403, Message(AdminsDelete));
    }
    var found := FindTask(db.tasks, taskId);
    if found.CastError? {
      return Crash;
    }
    if found.Missing? {
      return Response(404, Message(TaskNotFound));
    }
    db.tasks := RemoveAt(db.tasks, found.index);
    return Response(200, Message(TaskDeleted));
  }
}
