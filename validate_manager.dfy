/**
 * `validateManagerAssignment` of src/middleware/validateManager.js: the
 * ordered checks that run before `register` and before `assignManager`. The
 * chain only reads the user collection; it ends in `next()` or in an answer.
 */
module ValidateManager {
  import opened Wrappers
  import opened Text
  import opened Mongo
  import opened UserModel
  import opened Http
  import opened Store

  /** The request fields the checks read: the `userId` route parameter and the body's `managerId` and `email`. */
  datatype ManagerRequest = ManagerRequest(userId: Option<string>, managerId: Option<string>, email: Option<string>)

  /** Where the middleware leaves the request: passed on to the handler, or answered. */
  datatype Verdict = Next | Reject(response: Response)

  /** Lines 8-21: on a request with a `userId` parameter the target must exist, and only a `user` may be given a manager. */
  function TargetCheck(users: seq<User>, req: ManagerRequest): (v: Verdict)
    ensures !Truthy(req.userId) ==> v == Next
    ensures Truthy(req.userId) && FindUser(users, req.userId.value).Missing? ==>
      v == Reject(Response(404, Message(UserNotFound)))
    ensures v == Reject(Response(400, Message(OnlyUsersManaged))) <==>
      Truthy(req.userId) && FindUser(users, req.userId.value).Found? && Truthy(req.managerId)
      && users[FindUser(users, req.userId.value).index].role != Member
    ensures v.Next? <==>
      (!Truthy(req.userId)
       || (FindUser(users, req.userId.value).Found?
           && (!Truthy(req.managerId) || users[FindUser(users, req.userId.value).index].role == Member)))
  {
    if !Truthy(req.userId) then Next
    else
      match FindUser(users, req.userId.value)
      case CastError => Reject(ServerFault)
      case Missing => Reject(Response(404, Message(UserNotFound)))
      case Found(i) =>
        if Truthy(req.managerId) && users[i].role != Member then
          Reject(Response(400, Message(OnlyUsersManaged)))
        else Next
  }

  /** Lines 24-29: a given `managerId` must name a user whose role is `manager`. */
  function ManagerCheck(users: seq<User>, req: ManagerRequest): (v: Verdict)
    ensures !Truthy(req.managerId) ==> v == Next
    ensures Truthy(req.managerId) && !IsObjectIdText(req.managerId.value) ==> v == Reject(ServerFault)
    ensures v.Next? <==>
      (!Truthy(req.managerId)
       || (FindUser(users, req.managerId.value).Found? && users[FindUser(users, req.managerId.value).index].role == Manager))
    ensures UsersValid(users) ==>
      (v.Next? <==>
        (!Truthy(req.managerId)
         || exists k | 0 <= k < |users| :: Some(users[k].id) == CastObjectId(req.managerId.value) && users[k].role == Manager))
    ensures v.Reject? && v.response.code != 500 ==> v.response == Response(400, Message(InvalidManager))
  {
    if !Truthy(req.managerId) then Next
    else
      match FindUser(users, req.managerId.value)
      case CastError => Reject(ServerFault)
      case Missing => Reject(Response(400, Message(InvalidManager)))
      case Found(i) =>
        if users[i].role == Manager then Next
        else Reject(Response(400, Message(InvalidManager)))
  }

  /** Lines 32-37: the first user with the body's `email`, if any, must not have a manager already. */
  function EmailCheck(users: seq<User>, req: ManagerRequest): (v: Verdict)
    ensures v.Next? <==>
      (!Truthy(req.email) || FindUserByEmail(users, req.email.value).None?
       || users[FindUserByEmail(users, req.email.value).value].managerId.None?)
    ensures v.Reject? ==> v.response == Response(400, Message(HasManager))
  {
    if Truthy(req.email) then
      match FindUserByEmail(users, req.email.value)
      case Some(j) =>
        if users[j].managerId.Some? then Reject(Response(400, Message(HasManager)))
        else Next
      case None => Next
    else Next
  }

  /** The whole chain: the first check that answers decides. */
  function ValidateManagerAssignment(users: seq<User>, req: ManagerRequest): (v: Verdict)
    ensures v.Next? <==> TargetCheck(users, req).Next? && ManagerCheck(users, req).Next? && EmailCheck(users, req).Next?
    ensures TargetCheck(users, req).Reject? ==> v == TargetCheck(users, req)
    ensures TargetCheck(users, req).Next? && ManagerCheck(users, req).Reject? ==> v == ManagerCheck(users, req)
    ensures TargetCheck(users, req).Next? && ManagerCheck(users, req).Next? ==> v == EmailCheck(users, req)
    ensures v.Reject? ==> v.response.code in {400, 404, 500}
  {
    var target := TargetCheck(users, req);
    if target.Reject? then target
    else
      var manager := ManagerCheck(users, req);
      if manager.Reject? then manager
      else EmailCheck(users, req)
  }

  /**
   * On registration there is no `userId`, so no target is looked up; a
   * request passes exactly when its manager is a real manager and its email
   * does not belong to a user who already has one.
   */
  lemma RegistrationSkipsTarget(users: seq<User>, managerId: Option<string>, email: Option<string>)
    requires UsersValid(users)
    ensures var req := ManagerRequest(None, managerId, email);
      ValidateManagerAssignment(users, req).Next? <==>
        (!Truthy(managerId)
         || (exists k | 0 <= k < |users| :: Some(users[k].id) == CastObjectId(managerId.value) && users[k].role == Manager))
        && (!Truthy(email) || FindUserByEmail(users, email.value).None?
            || users[FindUserByEmail(users, email.value).value].managerId.None?)
  {
    var req := ManagerRequest(None, managerId, email);
    assert TargetCheck(users, req) == Next;
  }
}
