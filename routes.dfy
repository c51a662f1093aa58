/**
 * The routes of src/routes/routes.js: which roles `authorizeRoles` admits on
 * each route, and the order in which a route's middleware and its handler
 * run. The `authorizeRoles` middleware itself (src/middleware/authMiddleware.js)
 * is not part of this model; it is taken to pass a request whose user's role
 * text is listed and to answer 403 otherwise. Requests reach these pipelines
 * already authenticated where the route has `authMiddleware`.
 */
module Routes {
  import opened Wrappers
  import opened Text
  import opened Mongo
  import opened Calendar
  import opened TaskModel
  import opened UserModel
  import opened Http
  import opened Store
  import opened Validators
  import opened ValidateManager
  import UserController
  import TaskController
  import TaskListing

  datatype Route =
    | PostRegister | PostLogin | PostLogout | GetProfile | GetProfileById | PatchAssignManager
    | PostTask | GetTasks | GetTask | PutTask | DeleteTask | PatchAssignTask

  /** The `authorizeRoles(...)` list of a route; `None` where the route has no role check. */
  function AllowedRoles(r: Route): Option<seq<string>> {
    match r
    case PatchAssignManager => Some(["admin"])
    case PostTask => Some(["admin"])
    case DeleteTask => Some(["admin"])
    case PatchAssignTask => Some(["admin", "manager"])
    case GetTasks => Some(["admin", "manager", "user"])
    case GetTask => Some(["admin", "manager", "user"])
    case PutTask => Some(["admin", "manager", "user"])
    case _ => None
  }

  predicate Authorized(r: Route, actor: Actor) {
    AllowedRoles(r).None? || RoleName(actor.role) in AllowedRoles(r).value
  }

  /** What `authorizeRoles` answers a role it does not list. */
  const Refused := Response(403, RoleRefused)

  /** A role as it is stored: the role text read back from the database. */
  predicate Stored(r: Role) {
    r == ParseRole(RoleName(r))
  }

  /** The roles read back from a stored text are the three named ones and every other name. */
  lemma StoredRoles(r: Role)
    ensures Stored(r) <==> !(r.Other? && r.name in {"admin", "manager", "user"})
  {
  }

  /**
   * The role table: creating and deleting tasks and assigning managers are
   * for admins, assigning tasks for admins and managers, and listing,
   * reading and updating tasks for the three roles. The profile routes have
   * no role check.
   */
  lemma RoleTable(actor: Actor)
    requires Stored(actor.role)
    ensures Authorized(PostTask, actor) <==> actor.role == Admin
    ensures Authorized(DeleteTask, actor) <==> actor.role == Admin
    ensures Authorized(PatchAssignManager, actor) <==> actor.role == Admin
    ensures Authorized(PatchAssignTask, actor) <==> actor.role == Admin || actor.role == Manager
    ensures Authorized(GetTasks, actor) <==> !actor.role.Other?
    ensures Authorized(GetTask, actor) <==> !actor.role.Other?
    ensures Authorized(PutTask, actor) <==> !actor.role.Other?
    ensures Authorized(GetProfile, actor) && Authorized(GetProfileById, actor)
      && Authorized(PostRegister, actor) && Authorized(PostLogin, actor) && Authorized(PostLogout, actor)
  {
  }

  // ---------------------------------------------------------------- user routes

  /**
   * Lines 55-82: the `check(...)` chains record their errors, then
   * `validateManagerAssignment` runs, and only then `register` reads the
   * recorded errors.
   */
  function RegisterRoute(users: seq<User>, body: RegisterBody, isEmail: string -> bool,
                         hashed: string, newId: ObjectId, now: int): (o: UserController.UserStep)
    ensures var v := ValidateManagerAssignment(users, ManagerRequest(None, body.managerId, body.email));
      (v.Reject? ==> o == UserController.UserStep(v.response, users))
      && (v.Next? ==> o == UserController.RegisterOutcome(users, body, isEmail, hashed, newId, now))
  {
    match ValidateManagerAssignment(users, ManagerRequest(None, body.managerId, body.email))
    case Reject(r) => UserController.UserStep(r, users)
    case Next => UserController.RegisterOutcome(users, body, isEmail, hashed, newId, now)
  }

  /**
   * A `managerId` that is not 24 hexadecimal digits fails the chain's Mongo
   * id test, but the manager lookup runs first and its cast error answers
   * 500: the 400 with the chain's message is never sent.
   */
  lemma MalformedManagerIdIsServerError(users: seq<User>, body: RegisterBody, isEmail: string -> bool,
                                        hashed: string, newId: ObjectId, now: int)
    requires Truthy(body.managerId) && !IsObjectIdText(body.managerId.value)
    ensures RegisterRoute(users, body, isEmail, hashed, newId, now) == UserController.UserStep(ServerFault, users)
  {
  }

  /** A user registered with a manager is a `user`, and the manager is a stored user whose role is `manager`. */
  lemma RegisteredManagerIsReal(users: seq<User>, body: RegisterBody, isEmail: string -> bool,
                                hashed: string, newId: ObjectId, now: int)
    requires UsersValid(users)
    requires RegisterRoute(users, body, isEmail, hashed, newId, now).response.code == 201
    ensures var u := RegisterRoute(users, body, isEmail, hashed, newId, now).users[|users|];
      u.managerId.Some? ==>
        u.role == Member && exists k | 0 <= k < |users| :: users[k].id == u.managerId.value && users[k].role == Manager
  {
    var o := RegisterRoute(users, body, isEmail, hashed, newId, now);
    var u := o.users[|users|];
    if u.managerId.Some? {
      assert IsMongoId(body.managerId.value);
      assert Truthy(body.managerId);
    }
  }

  /**
   * Registering again with the email of a user who already has a manager is
   * answered by the manager check, before the handler's own duplicate test
   * (and before the recorded validation errors) are looked at.
   */
  lemma DuplicateEmailAnsweredByManagerCheck(users: seq<User>, body: RegisterBody, isEmail: string -> bool,
                                             hashed: string, newId: ObjectId, now: int, k: nat)
    requires !Truthy(body.managerId)
    requires k < |users| && Some(users[k].email) == body.email && users[k].email != "" && users[k].managerId.Some?
    requires UsersValid(users)
    ensures RegisterRoute(users, body, isEmail, hashed, newId, now)
      == UserController.UserStep(Response(400, Message(HasManager)), users)
  {
    assert FindUserByEmail(users, body.email.value) == Some(k);
  }

  /**
   * Lines 307-316: admins only; the `check('managerId')` chain is recorded and
   * never read; `validateManagerAssignment` sees the `userId` parameter and
   * the body's `managerId` and `email`.
   */
  function AssignManagerRoute(users: seq<User>, actor: Actor, userId: string,
                              managerId: Option<string>, email: Option<string>): (o: UserController.UserStep)
    ensures !Authorized(PatchAssignManager, actor) ==> o == UserController.UserStep(Refused, users)
    ensures var v := ValidateManagerAssignment(users, ManagerRequest(Some(userId), managerId, email));
      Authorized(PatchAssignManager, actor) ==>
        (v.Reject? ==> o == UserController.UserStep(v.response, users))
        && (v.Next? ==> o == UserController.AssignManagerOutcome(users, userId, managerId))
  {
    if !Authorized(PatchAssignManager, actor) then UserController.UserStep(Refused, users)
    else match ValidateManagerAssignment(users, ManagerRequest(Some(userId), managerId, email))
      case Reject(r) => UserController.UserStep(r, users)
      case Next => UserController.AssignManagerOutcome(users, userId, managerId)
  }

  /**
   * A manager assignment that succeeds was asked by an admin, gave the
   * manager to a `user`, and the manager is a stored user whose role is
   * `manager`.
   */
  lemma AssignedManagerIsReal(users: seq<User>, actor: Actor, userId: string, managerId: string, email: Option<string>)
    requires UsersValid(users) && Stored(actor.role)
    requires AssignManagerRoute(users, actor, userId, Some(managerId), email).response.code == 200
    ensures actor.role == Admin
    ensures var i := FindUser(users, userId).index;
      FindUser(users, userId).Found? && users[i].role == Member
      && exists k | 0 <= k < |users| :: Some(users[k].id) == CastObjectId(managerId) && users[k].role == Manager
  {
    RoleTable(actor);
    var req := ManagerRequest(Some(userId), Some(managerId), email);
    assert ValidateManagerAssignment(users, req).Next?;
    assert managerId != "";
  }

  // ---------------------------------------------------------------- task routes

  /** Lines 374-386: the chains are recorded and never read; admins only. */
  function CreateTaskRoute(tasks: seq<Task>, users: seq<User>, actor: Actor, body: TaskController.TaskBody,
                           newId: ObjectId, now: int): (o: TaskController.Step)
    ensures !Authorized(PostTask, actor) ==> o == TaskController.Step(Refused, tasks, [])
    ensures Authorized(PostTask, actor) ==> o == TaskController.CreateOutcome(tasks, users, actor, body, newId, now)
  {
    if !Authorized(PostTask, actor) then TaskController.Step(Refused, tasks, [])
    else TaskController.CreateOutcome(tasks, users, actor, body, newId, now)
  }

  /** Lines 688-696: admins and managers. */
  function AssignTaskRoute(tasks: seq<Task>, users: seq<User>, actor: Actor, taskId: string,
                           assignee: Option<string>, now: int): (o: TaskController.Step)
    requires AllWellFormed(tasks)
    ensures !Authorized(PatchAssignTask, actor) ==> o == TaskController.Step(Refused, tasks, [])
    ensures Authorized(PatchAssignTask, actor) ==> o == TaskController.AssignOutcome(tasks, users, actor, taskId, assignee, now)
  {
    if !Authorized(PatchAssignTask, actor) then TaskController.Step(Refused, tasks, [])
    else TaskController.AssignOutcome(tasks, users, actor, taskId, assignee, now)
  }

  /** Lines 586-598: the three roles. */
  function UpdateTaskRoute(tasks: seq<Task>, users: seq<User>, actor: Actor, taskId: string,
                           body: TaskController.TaskBody, now: int): (o: TaskController.Step)
    requires AllWellFormed(tasks)
    ensures !Authorized(PutTask, actor) ==> o == TaskController.Step(Refused, tasks, [])
    ensures Authorized(PutTask, actor) ==> o == TaskController.UpdateOutcome(tasks, users, actor, taskId, body, now)
  {
    if !Authorized(PutTask, actor) then TaskController.Step(Refused, tasks, [])
    else TaskController.UpdateOutcome(tasks, users, actor, taskId, body, now)
  }

  /** Lines 628-633: admins only. */
  function DeleteTaskRoute(tasks: seq<Task>, actor: Actor, taskId: string): (o: TaskController.Step)
    ensures !Authorized(DeleteTask, actor) ==> o == TaskController.Step(Refused, tasks, [])
    ensures Authorized(DeleteTask, actor) ==> o == TaskController.DeleteOutcome(tasks, actor, taskId)
  {
    if !Authorized(DeleteTask, actor) then TaskController.Step(Refused, tasks, [])
    else TaskController.DeleteOutcome(tasks, actor, taskId)
  }

  /** Line 522: the three roles. */
  function GetTaskRoute(tasks: seq<Task>, cache: map<string, Body>, actor: Actor, taskId: string): (o: ReadStep)
    ensures !Authorized(GetTask, actor) ==> o == ReadStep(Refused, cache)
    ensures Authorized(GetTask, actor) ==> o == TaskController.ReadOutcome(tasks, cache, actor, taskId)
  {
    if !Authorized(GetTask, actor) then ReadStep(Refused, cache)
    else TaskController.ReadOutcome(tasks, cache, actor, taskId)
  }

  /** Line 465: the three roles. */
  function ListTasksRoute(tasks: seq<Task>, cache: map<string, Body>, actor: Actor,
                          q: TaskListing.TaskQuery, dueDay: Option<CalDate>): (o: ReadStep)
    requires dueDay.Some? ==> ValidDate(dueDay.value)
    ensures !Authorized(GetTasks, actor) ==> o == ReadStep(Refused, cache)
    ensures Authorized(GetTasks, actor) ==> o == TaskListing.ListOutcome(tasks, cache, actor, q, dueDay)
  {
    if !Authorized(GetTasks, actor) then ReadStep(Refused, cache)
    else TaskListing.ListOutcome(tasks, cache, actor, q, dueDay)
  }

  /** Behind the role check, `createTask`'s own admin test never answers. */
  lemma CreateAdminTestUnreachable(tasks: seq<Task>, users: seq<User>, actor: Actor,
                                   body: TaskController.TaskBody, newId: ObjectId, now: int)
    requires Stored(actor.role)
    ensures CreateTaskRoute(tasks, users, actor, body, newId, now).response != Response(403, Message(AdminsCreate))
  {
    RoleTable(actor);
    TaskController.CreateRules(tasks, users, actor, body, newId, now);
  }

  /** Behind the role check, `deleteTask`'s own admin test never answers. */
  lemma DeleteAdminTestUnreachable(tasks: seq<Task>, actor: Actor, taskId: string)
    requires Stored(actor.role)
    ensures DeleteTaskRoute(tasks, actor, taskId).response != Response(403, Message(AdminsDelete))
  {
    RoleTable(actor);
  }

  /** Behind the role check, `getAllTasks` never answers Unauthorized. */
  lemma ListRefusalUnreachable(tasks: seq<Task>, cache: map<string, Body>, actor: Actor,
                               q: TaskListing.TaskQuery, dueDay: Option<CalDate>)
    requires Stored(actor.role)
    requires dueDay.Some? ==> ValidDate(dueDay.value)
    ensures ListTasksRoute(tasks, cache, actor, q, dueDay).response != Response(403, Message(Unauthorized))
  {
    RoleTable(actor);
  }

  /** Behind the role check, `updateTask` never answers Unauthorized. */
  lemma UpdateRefusalUnreachable(tasks: seq<Task>, users: seq<User>, actor: Actor, taskId: string,
                                 body: TaskController.TaskBody, now: int)
    requires Stored(actor.role) && AllWellFormed(tasks)
    ensures UpdateTaskRoute(tasks, users, actor, taskId, body, now).response != Response(403, Message(Unauthorized))
  {
    RoleTable(actor);
    TaskController.UnauthorizedOnlyForOtherRoles(tasks, users, actor, taskId, body, now);
  }

  /**
   * The update chain is not consulted: a `user` sets the status of their own
   * task to `in-progress`, which the chain refuses, and the update is saved.
   */
  lemma UpdateChainNotConsulted(tasks: seq<Task>, users: seq<User>, actor: Actor, taskId: string, now: int)
    requires AllWellFormed(tasks) && actor.role == Member
    requires FindTask(tasks, taskId).Found? && tasks[FindTask(tasks, taskId).index].assignedTo == Some(actor.id)
    ensures var body := TaskController.TaskBody(None, None, None, None, Some("in-progress"), None, None);
      |UpdateErrors(body)| != 0 && UpdateTaskRoute(tasks, users, actor, taskId, body, now).response.code == 200
  {
    var body := TaskController.TaskBody(None, None, None, None, Some("in-progress"), None, None);
    RoleTable(actor);
    TaskController.UserUpdateRules(tasks, users, actor, taskId, body, now);
  }
}
