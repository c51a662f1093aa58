/**
 * The user records the handlers read and write. The user schema file
 * (src/models/userModel.js) is not part of this model; the fields here are the
 * ones the controllers and the manager check use.
 */
module UserModel {
  import opened Wrappers
  import opened Mongo

  /** A role as the handlers compare it: `admin`, `manager`, `user` (here `Member`), or any other text. */
  datatype Role = Admin | Manager | Member | Other(name: string)

  function RoleName(r: Role): string {
    match r
    case Admin => "admin"
    case Manager => "manager"
    case Member => "user"
    case Other(n) => n
  }

  /** The role a stored role text stands for. */
  function ParseRole(s: string): (r: Role)
    ensures RoleName(r) == s
    ensures forall q: Role :: RoleName(q) == s && !q.Other? ==> r == q
  {
    if s == "admin" then Admin
    else if s == "manager" then Manager
    else if s == "user" then Member
    else Other(s)
  }

  /** A stored user. `password` holds the bcrypt hash. */
  datatype User = User(
    id: ObjectId,
    username: string,
    email: string,
    password: string,
    role: Role,
    managerId: Option<ObjectId>,
    createdAt: int)

  /** A user as the profile queries return it (`select('-password')`). */
  datatype UserView = UserView(
    id: ObjectId,
    username: string,
    email: string,
    role: Role,
    managerId: Option<ObjectId>,
    createdAt: int)

  function View(u: User): (v: UserView)
    ensures v.id == u.id && v.username == u.username && v.email == u.email
    ensures v.role == u.role && v.managerId == u.managerId && v.createdAt == u.createdAt
  {
    UserView(u.id, u.username, u.email, u.role, u.managerId, u.createdAt)
  }

  /** The user object `register` and `assignManager` answer with: the id, the names, the role and the manager. */
  datatype UserSummary = UserSummary(
    id: ObjectId,
    username: string,
    email: string,
    role: Role,
    managerId: Option<ObjectId>)

  function Summary(u: User): (v: UserSummary)
    ensures v.id == u.id && v.username == u.username && v.email == u.email
    ensures v.role == u.role && v.managerId == u.managerId
  {
    UserSummary(u.id, u.username, u.email, u.role, u.managerId)
  }

  /** The authenticated user `authMiddleware` attaches to a request as `req.user`. */
  datatype Actor = Actor(id: ObjectId, role: Role)
}
