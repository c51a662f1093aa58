/**
 * The in-memory stand-ins for MongoDB, Redis and Mailgun: the task and user
 * collections (in natural order), the cache map and the log of emails sent.
 */
module Store {
  import opened Wrappers
  import opened Mongo
  import opened TaskModel
  import opened UserModel
  import opened Http

  /** The position of the first element satisfying `p`, if any. */
  function FirstWhere<T>(s: seq<T>, p: T -> bool): (r: Option<nat>)
    ensures r.Some? ==> r.value < |s| && p(s[r.value]) && forall k | 0 <= k < r.value :: !p(s[k])
    ensures r.None? ==> forall k | 0 <= k < |s| :: !p(s[k])
  {
    if s == [] then None
    else if p(s[0]) then Some(0)
    else match FirstWhere(s[1..], p)
      case None => None
      case Some(i) => Some(i + 1)
  }

  /** `find(filter)`: the elements satisfying `p`, in natural order. */
  function Select<T(!new)>(s: seq<T>, p: T -> bool): (r: seq<T>)
    ensures forall x :: x in r <==> x in s && p(x)
    ensures multiset(r) <= multiset(s)
    ensures |r| <= |s|
  {
    if s == [] then []
    else
      assert s == [s[0]] + s[1..];
      (if p(s[0]) then [s[0]] else []) + Select(s[1..], p)
  }

  /** Selecting with a test every element passes keeps the whole sequence. */
  lemma {:induction false} SelectAll<T(!new)>(s: seq<T>, p: T -> bool)
    requires forall x | x in s :: p(x)
    ensures Select(s, p) == s
  {
    if s != [] {
      SelectAll(s[1..], p);
    }
  }

  /** Selecting over a sequence with one more element at the end. */
  lemma {:induction false} SelectSnoc<T(!new)>(s: seq<T>, x: T, p: T -> bool)
    ensures Select(s + [x], p) == Select(s, p) + (if p(x) then [x] else [])
  {
    if s == [] {
      assert [x][1..] == [];
    } else {
      var t := s + [x];
      var head := if p(s[0]) then [s[0]] else [];
      assert t[0] == s[0];
      assert t[1..] == s[1..] + [x];
      assert Select(t, p) == head + Select(s[1..] + [x], p);
      assert Select(s, p) == head + Select(s[1..], p);
      SelectSnoc(s[1..], x, p);
    }
  }

  function AsLookup(r: Option<nat>): Lookup {
    if r.None? then Missing else Found(r.value)
  }

  /** `Task.findById(id)`. */
  function FindTask(tasks: seq<Task>, id: string): (r: Lookup)
    ensures r.CastError? <==> !IsObjectIdText(id)
    ensures r.Found? ==> r.index < |tasks| && Some(tasks[r.index].id) == CastObjectId(id)
    ensures r.Missing? ==> forall k | 0 <= k < |tasks| :: Some(tasks[k].id) != CastObjectId(id)
  {
    match CastObjectId(id)
    case None => CastError
    case Some(oid) => AsLookup(FirstWhere(tasks, (t: Task) => t.id == oid))
  }

  /** `User.findById(id)`. */
  function FindUser(users: seq<User>, id: string): (r: Lookup)
    ensures r.CastError? <==> !IsObjectIdText(id)
    ensures r.Found? ==> r.index < |users| && Some(users[r.index].id) == CastObjectId(id)
    ensures r.Missing? ==> forall k | 0 <= k < |users| :: Some(users[k].id) != CastObjectId(id)
  {
    match CastObjectId(id)
    case None => CastError
    case Some(oid) => AsLookup(FirstWhere(users, (u: User) => u.id == oid))
  }

  /** `User.findById(x)` where `x` may be `undefined`, which finds nothing. */
  function FindUserOpt(users: seq<User>, id: Option<string>): (r: Lookup)
    ensures id.None? ==> r.Missing?
    ensures id.Some? ==> r == FindUser(users, id.value)
  {
    if id.None? then Missing else FindUser(users, id.value)
  }

  /** `User.findOne({ email })`. */
  function FindUserByEmail(users: seq<User>, email: string): (r: Option<nat>)
    ensures r.Some? ==> r.value < |users| && users[r.value].email == email
    ensures r.None? ==> forall k | 0 <= k < |users| :: users[k].email != email
  {
    FirstWhere(users, (u: User) => u.email == email)
  }

  function RemoveAt<T>(s: seq<T>, i: nat): (r: seq<T>)
    requires i < |s|
    ensures |r| == |s| - 1
    ensures forall k | 0 <= k < i :: r[k] == s[k]
    ensures forall k | i <= k < |r| :: r[k] == s[k + 1]
  {
    s[..i] + s[i + 1..]
  }

  predicate TaskIdsUnique(ts: seq<Task>) {
    forall i, j | 0 <= i < j < |ts| :: ts[i].id != ts[j].id
  }

  predicate AllWellFormed(ts: seq<Task>) {
    forall i | 0 <= i < |ts| :: WellFormed(ts[i])
  }

  predicate TasksValid(ts: seq<Task>) {
    AllWellFormed(ts) && TaskIdsUnique(ts)
  }

  /** Replacing a task by a well-formed one with the same id keeps the collection valid. */
  lemma ReplaceKeepsValid(ts: seq<Task>, i: nat, t: Task)
    requires TasksValid(ts) && i < |ts| && WellFormed(t) && t.id == ts[i].id
    ensures TasksValid(ts[i := t])
  {
  }

  /** Adding a well-formed task whose id no stored task has keeps the collection valid. */
  lemma AppendKeepsValid(ts: seq<Task>, t: Task)
    requires TasksValid(ts) && WellFormed(t)
    requires forall k | 0 <= k < |ts| :: ts[k].id != t.id
    ensures TasksValid(ts + [t])
  {
  }

  /** Ids and emails are unique among users. */
  predicate UsersValid(us: seq<User>) {
    forall i, j | 0 <= i < j < |us| :: us[i].id != us[j].id && us[i].email != us[j].email
  }

  /** Adding a user whose id and email no stored user has keeps ids and emails unique. */
  lemma AppendKeepsUsersValid(us: seq<User>, u: User)
    requires UsersValid(us)
    requires forall k | 0 <= k < |us| :: us[k].id != u.id && us[k].email != u.email
    ensures UsersValid(us + [u])
  {
  }

  /** A user appended with an email no stored user has is the one `findOne({ email })` finds. */
  lemma FindAppendedEmail(us: seq<User>, u: User)
    requires FindUserByEmail(us, u.email).None?
    ensures FindUserByEmail(us + [u], u.email) == Some(|us|)
  {
    var r := FindUserByEmail(us + [u], u.email);
    assert (us + [u])[|us|].email == u.email;
    assert forall k | 0 <= k < |us| :: (us + [u])[k] == us[k];
  }

  /** The two collections. */
  class Db {
    var tasks: seq<Task>
    var users: seq<User>

    predicate Valid()
      reads this
    {
      TasksValid(tasks) && UsersValid(users)
    }

    constructor ()
      ensures tasks == [] && users == [] && Valid()
    {
      tasks := [];
      users := [];
    }
  }

  /** The Redis cache behind `GET_ASYNC` and `SET_ASYNC`; expiry is not modelled. */
  class Cache {
    var entries: map<string, Body>

    constructor ()
      ensures entries == map[]
    {
      entries := map[];
    }

    method Get(key: string) returns (v: Option<Body>)
      ensures v.Some? <==> key in entries
      ensures v.Some? ==> v.value == entries[key]
    {
      v := if key in entries then Some(entries[key]) else None;
    }

    method Set(key: string, value: Body)
      modifies this
      ensures entries == old(entries)[key := value]
    {
      entries := entries[key := value];
    }
  }

  /** What a read handler does: its answer and the cache afterwards. */
  datatype ReadStep = ReadStep(response: Response, cache: map<string, Body>)

  /** An email the handlers asked Mailgun to send. */
  datatype Email = Email(to: string, subject: string)

  /** The log of emails attempted. */
  class Mailer {
    var sent: seq<Email>

    constructor ()
      ensures sent == []
    {
      sent := [];
    }

    method Send(to: string, subject: string)
      modifies this
      ensures sent == old(sent) + [Email(to, subject)]
    {
      sent := sent + [Email(to, subject)];
    }
  }
}
