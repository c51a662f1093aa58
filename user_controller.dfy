/**
 * The handlers of src/controllers/userController.js: `register`, `login`,
 * `getProfile`, `getProfileById` and `assignManager`. As for the task
 * handlers, each state-changing handler is a method over the collections and
 * the cache, proved to do what a pure outcome function says; the properties
 * are stated on those functions.
 */
module UserController {
  import opened Wrappers
  import opened Text
  import opened Mongo
  import opened UserModel
  import opened Http
  import opened Store
  import opened Sorting
  import opened Validators

  /** What a handler that may write users does: its answer and the user collection afterwards. */
  datatype UserStep = UserStep(response: Response, users: seq<User>)

  // ---------------------------------------------------------------- register

  /** Lines 26-32: the document `register` saves, before Mongoose casts `managerId`. */
  function StoredRole(body: RegisterBody): Role {
    if Truthy(body.role) then ParseRole(body.role.value) else Member
  }

  /** `managerId: role === 'user' ? managerId : undefined`: the text handed to the cast, if any. */
  function KeptManagerId(body: RegisterBody): Option<string> {
    if body.role == Some("user") then body.managerId else None
  }

  /** Whether `save()` can cast the kept manager id. */
  predicate ManagerIdSaves(body: RegisterBody) {
    KeptManagerId(body).None? || IsObjectIdText(KeptManagerId(body).value)
  }

  /** Lines 26-34: the user `register` stores when the request passed its checks. */
  function NewUser(body: RegisterBody, hashed: string, newId: ObjectId, now: int): User {
    var kept := KeptManagerId(body);
    User(newId, Seen(body.username), Seen(body.email), hashed, StoredRole(body),
      if kept.Some? then CastObjectId(kept.value) else None, now)
  }

  /**
   * Lines 9-49. `isEmail` is validator.js's e-mail test, `hashed` what
   * `bcrypt.hash(password, 10)` returns, `newId` the id Mongoose gives the new
   * document and `now` the clock.
   */
  function RegisterOutcome(users: seq<User>, body: RegisterBody, isEmail: string -> bool,
                           hashed: string, newId: ObjectId, now: int): (o: UserStep)
    ensures var errors := RegisterErrors(body, isEmail);
      |errors| != 0 ==> o == UserStep(Response(400, ValidationErrors(errors)), users)
    ensures |RegisterErrors(body, isEmail)| == 0 && FindUserByEmail(users, Seen(body.email)).Some? ==>
      o == UserStep(Response(400, Message(UserExists)), users)
    ensures o.response.code == 201 <==>
      |RegisterErrors(body, isEmail)| == 0 && FindUserByEmail(users, Seen(body.email)).None? && ManagerIdSaves(body)
    ensures o.response.code != 201 ==> o.users == users && o.response.code in {400, 500}
    ensures o.response.code == 201 ==>
      var u := NewUser(body, hashed, newId, now);
      o == UserStep(Response(201, UserResult(Registered, Summary(u))), users + [u])
  {
    var errors := RegisterErrors(body, isEmail);
    if |errors| != 0 then UserStep(Response(400, ValidationErrors(errors)), users)
    else if FindUserByEmail(users, Seen(body.email)).Some? then
      UserStep(Response(400, Message(UserExists)), users)
    else if !ManagerIdSaves(body) then UserStep(ServerFault, users)
    else
      var u := NewUser(body, hashed, newId, now);
      UserStep(Response(201, UserResult(Registered, Summary(u))), users + [u])
  }

  /**
   * The stored user carries the body's username and email, the hash, the new
   * id and the clock; its role defaults to `user`; it has a manager exactly
   * when the body's role is `user` and a manager id was sent.
   */
  lemma NewUserFields(users: seq<User>, body: RegisterBody, isEmail: string -> bool,
                      hashed: string, newId: ObjectId, now: int)
    requires RegisterOutcome(users, body, isEmail, hashed, newId, now).response.code == 201
    ensures var u := RegisterOutcome(users, body, isEmail, hashed, newId, now).users[|users|];
      u.id == newId && u.password == hashed && u.createdAt == now
      && Some(u.username) == body.username && Some(u.email) == body.email
      && (Truthy(body.role) ==> RoleName(u.role) == body.role.value)
      && (!Truthy(body.role) ==> u.role == Member)
      && (u.managerId.Some? <==> body.role == Some("user") && body.managerId.Some?)
      && (u.managerId.Some? ==> u.managerId == CastObjectId(body.managerId.value))
  {
    RegisterFieldsPresent(body, isEmail);
  }

  /** A registration keeps user ids and emails unique, given an id no stored user has. */
  lemma RegisterKeepsUsersValid(users: seq<User>, body: RegisterBody, isEmail: string -> bool,
                                hashed: string, newId: ObjectId, now: int)
    requires UsersValid(users) && forall k | 0 <= k < |users| :: users[k].id != newId
    ensures UsersValid(RegisterOutcome(users, body, isEmail, hashed, newId, now).users)
  {
    var o := RegisterOutcome(users, body, isEmail, hashed, newId, now);
    if o.response.code == 201 {
      AppendKeepsUsersValid(users, NewUser(body, hashed, newId, now));
    }
  }

  /** `register`. */
  method Register(db: Db, body: RegisterBody, isEmail: string -> bool, hashed: string, newId: ObjectId, now: int)
    returns (r: Response)
    requires db.Valid()
    requires forall k | 0 <= k < |db.users| :: db.users[k].id != newId
    modifies db
    ensures var o := RegisterOutcome(old(db.users), body, isEmail, hashed, newId, now);
      r == o.response && db.users == o.users
    ensures db.tasks == old(db.tasks) && db.Valid()
  {
    RegisterKeepsUsersValid(db.users, body, isEmail, hashed, newId, now);
    var errors := RegisterErrors(body, isEmail);
    if |errors| != 0 {
      return Response(400, ValidationErrors(errors));
    }
    var existing := FindUserByEmail(db.users, Seen(body.email));
    if existing.Some? {
      return Response(400, Message(UserExists));
    }
    var u := NewUser(body, hashed, newId, now);
    if !ManagerIdSaves(body) {
      // `save()` cannot cast the manager id
      return ServerFault;
    }
    db.users := db.users + [u];
    return Response(201, UserResult(Registered, Summary(u)));
  }

  /** Only a `user` is stored with a manager; any other new account has none. */
  lemma OnlyMembersGetAManager(users: seq<User>, body: RegisterBody, isEmail: string -> bool,
                               hashed: string, newId: ObjectId, now: int)
    requires RegisterOutcome(users, body, isEmail, hashed, newId, now).response.code == 201
    ensures var u := RegisterOutcome(users, body, isEmail, hashed, newId, now).users[|users|];
      u.managerId.Some? ==> u.role == Member
    ensures var u := RegisterOutcome(users, body, isEmail, hashed, newId, now).users[|users|];
      body.role.None? ==> u.role == Member && u.managerId.None?
  {
  }

  /** Registering the same body twice: the second attempt is refused, whatever id it would get. */
  lemma RegisterTwiceRefused(users: seq<User>, body: RegisterBody, isEmail: string -> bool,
                             hashed: string, newId: ObjectId, now: int, hashed2: string, newId2: ObjectId, later: int)
    requires RegisterOutcome(users, body, isEmail, hashed, newId, now).response.code == 201
    ensures var after := RegisterOutcome(users, body, isEmail, hashed, newId, now).users;
      RegisterOutcome(after, body, isEmail, hashed2, newId2, later) == UserStep(Response(400, Message(UserExists)), after)
  {
    var after := RegisterOutcome(users, body, isEmail, hashed, newId, now).users;
    assert after[|users|].email == Seen(body.email);
  }

  // ---------------------------------------------------------------- login

  /**
   * Lines 52-74. `matches` is `bcrypt.compare` and `sign` the token
   * `jwt.sign({ userId })` issues for a user id.
   */
  function LoginOutcome(users: seq<User>, email: string, password: string,
                        matches: (string, string) -> bool, sign: ObjectId -> string): (r: Response)
    ensures r.code == 200 <==>
      FindUserByEmail(users, email).Some? && matches(password, users[FindUserByEmail(users, email).value].password)
    ensures r.code == 200 ==>
      r.body == TokenIssued(LoggedIn, sign(users[FindUserByEmail(users, email).value].id))
    ensures r.code != 200 ==> r == Response(401, Message(InvalidCredentials))
    ensures UsersValid(users) ==>
      (r.code == 200 <==> exists k | 0 <= k < |users| :: users[k].email == email && matches(password, users[k].password))
  {
    match FindUserByEmail(users, email)
    case None => Response(401, Message(InvalidCredentials))
    case Some(i) =>
      if !matches(password, users[i].password) then Response(401, Message(InvalidCredentials))
      else Response(200, TokenIssued(LoggedIn, sign(users[i].id)))
  }

  /** A user who has just registered can log in with the password whose hash was stored, and gets a token for the new id. */
  lemma LoginAfterRegister(users: seq<User>, body: RegisterBody, isEmail: string -> bool, hashed: string,
                           newId: ObjectId, now: int, matches: (string, string) -> bool, sign: ObjectId -> string)
    requires RegisterOutcome(users, body, isEmail, hashed, newId, now).response.code == 201
    requires matches(Seen(body.password), hashed)
    ensures var after := RegisterOutcome(users, body, isEmail, hashed, newId, now).users;
      LoginOutcome(after, Seen(body.email), Seen(body.password), matches, sign)
        == Response(200, TokenIssued(LoggedIn, sign(newId)))
  {
    var u := NewUser(body, hashed, newId, now);
    FindAppendedEmail(users, u);
  }

  // ---------------------------------------------------------------- getProfile

  /** A parsed query string as name/value pairs in the order the names were added. */
  type Query = seq<(string, string)>

  /** `req.query[name]`. */
  function Param(q: Query, name: string): (v: Option<string>)
    ensures v.Some? <==> exists k | 0 <= k < |q| :: q[k].0 == name
    ensures v.Some? ==> exists k | 0 <= k < |q| ::
      && q[k] == (name, v.value)
      && forall j | 0 <= j < k :: q[j].0 != name
  {
    match FirstWhere(q, (p: (string, string)) => p.0 == name)
    case None => None
    case Some(k) => Some(q[k].1)
  }

  /** An array-index property name: the canonical decimal text of an integer below 2^32 - 1. */
  predicate IsIndexName(name: string) {
    && name != [] && AllDigits(name) && (name[0] == '0' ==> |name| == 1)
    && DigitsValue(name) < 0xFFFF_FFFF
  }

  /** The number an array-index name stands for; other names sort nowhere and get 0. */
  function IndexValue(p: (string, string)): int {
    if IsIndexName(p.0) then DigitsValue(p.0) else 0
  }

  /** Two array-index names with the same number are the same name. */
  lemma IndexNamesByValue(a: string, b: string)
    requires IsIndexName(a) && IsIndexName(b) && DigitsValue(a) == DigitsValue(b)
    ensures a == b
  {
    NatToStringOfDigits(a);
    NatToStringOfDigits(b);
  }

  predicate IsIndexPair(p: (string, string)) {
    IsIndexName(p.0)
  }

  /** The elements of `s` on which `p` is `want`, in order. */
  function Keep<T>(s: seq<T>, p: T -> bool, want: bool): (r: seq<T>)
    ensures forall k | 0 <= k < |r| :: p(r[k]) == want
    ensures multiset(r) <= multiset(s)
  {
    if s == [] then []
    else
      assert s == [s[0]] + s[1..];
      (if p(s[0]) == want then [s[0]] else []) + Keep(s[1..], p, want)
  }

  /** `Keep` is `find`'s `Select` with the test `p(x) == want`, written so that its lemmas need no `!new`. */
  lemma {:induction false} KeepIsSelect<T(!new)>(s: seq<T>, p: T -> bool, want: bool)
    ensures Keep(s, p, want) == Select(s, (x: T) => p(x) == want)
  {
    if s != [] {
      KeepIsSelect(s[1..], p, want);
      KeepCons(s[0], s[1..], p, want);
      assert s == [s[0]] + s[1..];
    }
  }

  lemma {:induction false} KeepAppend<T>(a: seq<T>, b: seq<T>, p: T -> bool, want: bool)
    ensures Keep(a + b, p, want) == Keep(a, p, want) + Keep(b, p, want)
  {
    if a == [] {
      assert a + b == b;
    } else {
      var x, t := a[0], a[1..];
      var head := if p(x) == want then [x] else [];
      assert a == [x] + t && a + b == [x] + (t + b);
      KeepCons(x, t + b, p, want);
      KeepCons(x, t, p, want);
      KeepAppend(t, b, p, want);
      ConcatAssoc(head, Keep(t, p, want), Keep(b, p, want));
    }
  }

  lemma ConcatAssoc<T>(a: seq<T>, b: seq<T>, c: seq<T>)
    ensures a + (b + c) == (a + b) + c
  {
  }

  lemma {:induction false} KeepNone<T>(s: seq<T>, p: T -> bool, want: bool)
    requires forall k | 0 <= k < |s| :: p(s[k]) != want
    ensures Keep(s, p, want) == []
  {
    if s != [] {
      KeepNone(s[1..], p, want);
    }
  }

  lemma {:induction false} KeepAll<T>(s: seq<T>, p: T -> bool, want: bool)
    requires forall k | 0 <= k < |s| :: p(s[k]) == want
    ensures Keep(s, p, want) == s
  {
    if s != [] {
      KeepAll(s[1..], p, want);
      assert s == [s[0]] + s[1..];
    }
  }

  /** What a test keeps and what it drops make up the whole. */
  lemma {:induction false} KeepSplit<T>(s: seq<T>, p: T -> bool)
    ensures multiset(Keep(s, p, true)) + multiset(Keep(s, p, false)) == multiset(s)
  {
    if s != [] {
      var x, t := s[0], s[1..];
      assert s == [x] + t;
      KeepSplit(t, p);
      KeepCons(x, t, p, true);
      KeepCons(x, t, p, false);
      AddHead(x, Keep(t, p, true), Keep(t, p, false), t);
    }
  }

  lemma KeepCons<T>(x: T, t: seq<T>, p: T -> bool, want: bool)
    ensures Keep([x] + t, p, want) == (if p(x) == want then [x] else []) + Keep(t, p, want)
  {
    assert ([x] + t)[0] == x && ([x] + t)[1..] == t;
  }

  lemma AddHead<T>(x: T, a: seq<T>, b: seq<T>, rest: seq<T>)
    requires multiset(a) + multiset(b) == multiset(rest)
    ensures multiset([x] + a) + multiset(b) == multiset([x] + rest)
    ensures multiset(a) + multiset([x] + b) == multiset([x] + rest)
  {
  }

  /**
   * The order an object's own names are listed in, which `JSON.stringify`
   * prints: array-index names first, by ascending number, then every other
   * name in the order it was added.
   */
  function PropertyOrder(q: Query): Query {
    SortBy(Keep(q, IsIndexPair, true), IndexValue) + Keep(q, IsIndexPair, false)
  }

  /**
   * The property order lists the same pairs, puts every array-index name
   * before the others in ascending order, and keeps the others as added.
   */
  lemma PropertyOrderArranges(q: Query)
    ensures var r := PropertyOrder(q);
      && multiset(r) == multiset(q)
      && (forall i, j | 0 <= i < j < |r| && IsIndexName(r[j].0) ::
            IsIndexName(r[i].0) && IndexValue(r[i]) <= IndexValue(r[j]))
      && Keep(r, IsIndexPair, false) == Keep(q, IsIndexPair, false)
  {
    var front := SortBy(Keep(q, IsIndexPair, true), IndexValue);
    var rest := Keep(q, IsIndexPair, false);
    KeepSplit(q, IsIndexPair);
    SortedIndexNames(Keep(q, IsIndexPair, true), front);
    IndexNamesFirst(front, rest);
    KeepAppend(front, rest, IsIndexPair, false);
    KeepNone(front, IsIndexPair, false);
    KeepAll(rest, IsIndexPair, false);
  }

  /** Sorting the array-index pairs keeps them array-index pairs. */
  lemma SortedIndexNames(picked: Query, front: Query)
    requires forall k | 0 <= k < |picked| :: IsIndexName(picked[k].0)
    requires multiset(front) == multiset(picked)
    ensures forall k | 0 <= k < |front| :: IsIndexName(front[k].0)
  {
    forall k | 0 <= k < |front|
      ensures IsIndexName(front[k].0)
    {
      assert front[k] in multiset(picked);
      var m :| 0 <= m < |picked| && picked[m] == front[k];
    }
  }

  /** Sorted array-index pairs followed by other pairs: every index name stands first and in ascending order. */
  lemma IndexNamesFirst(front: Query, rest: Query)
    requires forall k | 0 <= k < |front| :: IsIndexName(front[k].0)
    requires SortedBy(front, IndexValue)
    requires forall k | 0 <= k < |rest| :: !IsIndexName(rest[k].0)
    ensures var r := front + rest;
      forall i, j | 0 <= i < j < |r| && IsIndexName(r[j].0) ::
        IsIndexName(r[i].0) && IndexValue(r[i]) <= IndexValue(r[j])
  {
    var r := front + rest;
    forall i, j | 0 <= i < j < |r| && IsIndexName(r[j].0)
      ensures IsIndexName(r[i].0) && IndexValue(r[i]) <= IndexValue(r[j])
    {
      assert r[i] == front[i] && r[j] == front[j];
    }
  }

  /** `JSON.stringify(req.query)`: the names in property order, each with its value. */
  function QueryJson(q: Query): string {
    var r := PropertyOrder(q);
    "{" + Join(seq(|r|, i requires 0 <= i < |r| => JsonString(r[i].0) + ":" + JsonString(r[i].1)), ',') + "}"
  }

  /** No name is twice in the query, as in the object Express hands over. */
  predicate DistinctNames(q: Query) {
    forall i, j | 0 <= i < j < |q| :: q[i].0 != q[j].0
  }

  /**
   * Where the array-index names stand among the others does not change a
   * profile list's cache key: `?sort=asc&0=x` and `?0=x&sort=asc` share one
   * cached list.
   */
  lemma IndexPlacementSharesKey(actor: Actor, q1: Query, q2: Query)
    requires DistinctNames(q1)
    requires multiset(Keep(q1, IsIndexPair, true)) == multiset(Keep(q2, IsIndexPair, true))
    requires Keep(q1, IsIndexPair, false) == Keep(q2, IsIndexPair, false)
    ensures ProfileListKey(actor, q1) == ProfileListKey(actor, q2)
  {
    var a := SortBy(Keep(q1, IsIndexPair, true), IndexValue);
    var b := SortBy(Keep(q2, IsIndexPair, true), IndexValue);
    forall x, y | x in a && y in a && IndexValue(x) == IndexValue(y)
      ensures x == y
    {
      assert x in multiset(q1) && y in multiset(q1);
      var i :| 0 <= i < |q1| && q1[i] == x;
      var j :| 0 <= j < |q1| && q1[j] == y;
      assert x in multiset(Keep(q1, IsIndexPair, true)) && y in multiset(Keep(q1, IsIndexPair, true));
      var m :| 0 <= m < |Keep(q1, IsIndexPair, true)| && Keep(q1, IsIndexPair, true)[m] == x;
      var n :| 0 <= n < |Keep(q1, IsIndexPair, true)| && Keep(q1, IsIndexPair, true)[n] == y;
      IndexNamesByValue(x.0, y.0);
    }
    SortedUnique(a, b, IndexValue);
    assert PropertyOrder(q1) == PropertyOrder(q2);
  }

  /** The example of the comment above: the index name `0` is listed first. */
  lemma IndexNameListedFirst()
    ensures PropertyOrder([("sort", "asc"), ("0", "x")]) == [("0", "x"), ("sort", "asc")]
  {
    var q := [("sort", "asc"), ("0", "x")];
    ExampleParts(q);
    SortBySingle(("0", "x"), IndexValue);
  }

  lemma ExampleParts(q: Query)
    requires q == [("sort", "asc"), ("0", "x")]
    ensures Keep(q, IsIndexPair, true) == [("0", "x")]
    ensures Keep(q, IsIndexPair, false) == [("sort", "asc")]
  {
    ExampleNames();
    assert q[1..] == [("0", "x")] && q[1..][1..] == [];
  }

  lemma ExampleNames()
    ensures IsIndexName("0") && !IsIndexName("sort")
  {
    assert !IsDigit("sort"[0]);
    assert "0"[..0] == [];
  }

  /** Line 92: the cache key of a profile list. */
  function ProfileListKey(actor: Actor, q: Query): string {
    "profile_" + actor.id + "_" + QueryJson(q)
  }

  /** Callers with different ids never share a cached profile list, since an id has a fixed length. */
  lemma ProfileListKeysSeparateCallers(a1: Actor, q1: Query, a2: Actor, q2: Query)
    ensures ProfileListKey(a1, q1) == ProfileListKey(a2, q2) ==> a1.id == a2.id
  {
    KeyNamesCaller(a1.id, QueryJson(q1), a2.id, QueryJson(q2));
  }

  lemma KeyNamesCaller(id1: ObjectId, json1: string, id2: ObjectId, json2: string)
    ensures "profile_" + id1 + "_" + json1 == "profile_" + id2 + "_" + json2 ==> id1 == id2
  {
    assert ("profile_" + id1 + "_" + json1)[8..32] == id1;
    assert ("profile_" + id2 + "_" + json2)[8..32] == id2;
  }

  /** The filter of lines 102-121: an admin's optional role list and manager test, a manager's team, or one's own record. */
  datatype UserFilter =
    | Everyone(roles: Option<seq<string>>, hasManager: Option<bool>)
    | TeamOf(manager: ObjectId)
    | Only(id: ObjectId)

  function ProfileFilter(actor: Actor, q: Query): UserFilter {
    if actor.role == Admin then
      Everyone(
        if Truthy(Param(q, "roles")) then Some(SplitTrim(Param(q, "roles").value)) else None,
        if Param(q, "hasManager") == Some("false") then Some(false)
        else if Param(q, "hasManager") == Some("true") then Some(true)
        else None)
    else if actor.role == Manager then TeamOf(actor.id)
    else Only(actor.id)
  }

  /** What `User.find(query)` selects. */
  predicate Selects(f: UserFilter, u: User) {
    match f
    case Everyone(roles, hasManager) =>
      (roles.Some? ==> RoleName(u.role) in roles.value)
      && (hasManager.Some? ==> u.managerId.Some? == hasManager.value)
    case TeamOf(m) => u.managerId == Some(m)
    case Only(id) => u.id == id
  }

  /** Who appears in a profile list, stated on the request directly. */
  predicate Listed(actor: Actor, q: Query, u: User) {
    match actor.role
    case Admin =>
      (Truthy(Param(q, "roles")) ==> RoleName(u.role) in SplitTrim(Param(q, "roles").value))
      && (Param(q, "hasManager") == Some("true") ==> u.managerId.Some?)
      && (Param(q, "hasManager") == Some("false") ==> u.managerId.None?)
    case Manager => u.managerId == Some(actor.id)
    case _ => u.id == actor.id
  }

  /** Line 124: ascending by `createdAt` only for `sort=asc`. */
  function ProfileOrder(q: Query): (key: UserView -> int)
    ensures forall v :: key(v) == if Param(q, "sort") == Some("asc") then v.createdAt else -v.createdAt
  {
    if Param(q, "sort") == Some("asc") then (v: UserView) => v.createdAt else (v: UserView) => -v.createdAt
  }

  function Views(users: seq<User>): (vs: seq<UserView>)
    ensures |vs| == |users|
    ensures forall k | 0 <= k < |users| :: vs[k] == View(users[k])
  {
    seq(|users|, k requires 0 <= k < |users| => View(users[k]))
  }

  /** Line 125: `User.find(query).select('-password').sort(sort)`. */
  function ProfileList(users: seq<User>, actor: Actor, q: Query): (list: seq<UserView>)
    ensures SortedBy(list, ProfileOrder(q))
    ensures multiset(list) == multiset(Views(Select(users, (u: User) => Selects(ProfileFilter(actor, q), u))))
  {
    SortBy(Views(Select(users, (u: User) => Selects(ProfileFilter(actor, q), u))), ProfileOrder(q))
  }

  /** Lines 89-134: the cached list for the key, or the list, which is then cached under the key. */
  function ProfileOutcome(users: seq<User>, cache: map<string, Body>, actor: Actor, q: Query): (o: ReadStep)
    ensures o.response.code == 200
    ensures ProfileListKey(actor, q) in cache ==> o == ReadStep(Response(200, cache[ProfileListKey(actor, q)]), cache)
    ensures ProfileListKey(actor, q) !in cache ==>
      o.response.body == UserList(ProfileList(users, actor, q))
      && o.cache == cache[ProfileListKey(actor, q) := o.response.body]
  {
    var key := ProfileListKey(actor, q);
    if key in cache then ReadStep(Response(200, cache[key]), cache)
    else ReadStep(Response(200, UserList(ProfileList(users, actor, q))), cache[key := UserList(ProfileList(users, actor, q))])
  }

  /** `getProfile`: the cache is consulted first, then the list is found, sorted and cached. */
  method GetProfile(db: Db, cache: Cache, actor: Actor, q: Query) returns (r: Response)
    modifies cache
    ensures var o := ProfileOutcome(db.users, old(cache.entries), actor, q);
      r == o.response && cache.entries == o.cache
  {
    var key := ProfileListKey(actor, q);
    var cached := cache.Get(key);
    if cached.Some? {
      return Response(200, cached.value);
    }
    var filter := BuildProfileFilter(actor, q);
    var found := SortBy(Views(Select(db.users, (u: User) => Selects(filter, u))), ProfileOrder(q));
    cache.Set(key, UserList(found));
    return Response(200, UserList(found));
  }

  /** The query object of `getProfile`, filled branch by branch as in lines 102-121. */
  method BuildProfileFilter(actor: Actor, q: Query) returns (filter: UserFilter)
    ensures filter == ProfileFilter(actor, q)
  {
    if actor.role == Admin {
      var roles := Param(q, "roles");
      var hasManager := Param(q, "hasManager");
      var roleList: Option<seq<string>> := None;
      if Truthy(roles) {
        roleList := Some(SplitTrim(roles.value));
      }
      var managerTest: Option<bool> := None;
      if hasManager == Some("false") {
        managerTest := Some(false);
      } else if hasManager == Some("true") {
        managerTest := Some(true);
      }
      filter := Everyone(roleList, managerTest);
    } else if actor.role == Manager {
      filter := TeamOf(actor.id);
    } else {
      filter := Only(actor.id);
    }
  }

  /** The filter selects exactly the users the request describes. */
  lemma SelectsMeansListed(actor: Actor, q: Query, u: User)
    ensures Selects(ProfileFilter(actor, q), u) <==> Listed(actor, q, u)
  {
  }

  /**
   * On a cache miss the list shows the records, without their password hash,
   * of exactly the users the request describes, in the order asked for.
   */
  lemma ProfileShowsExactly(users: seq<User>, cache: map<string, Body>, actor: Actor, q: Query)
    requires ProfileListKey(actor, q) !in cache
    ensures var list := ProfileOutcome(users, cache, actor, q).response.body.users;
      SortedBy(list, ProfileOrder(q))
      && forall v :: v in list <==> exists k | 0 <= k < |users| :: v == View(users[k]) && Listed(actor, q, users[k])
  {
    forall v
      ensures v in ProfileList(users, actor, q) <==> exists k | 0 <= k < |users| :: v == View(users[k]) && Listed(actor, q, users[k])
    {
      if v in ProfileList(users, actor, q) {
        ListedIsStored(users, actor, q, v);
      }
      if exists k | 0 <= k < |users| :: v == View(users[k]) && Listed(actor, q, users[k]) {
        var k :| 0 <= k < |users| && v == View(users[k]) && Listed(actor, q, users[k]);
        StoredIsListed(users, actor, q, k);
      }
    }
  }

  /** Every entry of a profile list is the view of a stored user the request describes. */
  lemma ListedIsStored(users: seq<User>, actor: Actor, q: Query, v: UserView)
    requires v in ProfileList(users, actor, q)
    ensures exists k | 0 <= k < |users| :: v == View(users[k]) && Listed(actor, q, users[k])
  {
    var chosen := Select(users, (u: User) => Selects(ProfileFilter(actor, q), u));
    assert v in multiset(Views(chosen));
    var j :| 0 <= j < |chosen| && Views(chosen)[j] == v;
    assert chosen[j] in users;
    var k :| 0 <= k < |users| && users[k] == chosen[j];
    SelectsMeansListed(actor, q, users[k]);
  }

  /** Every stored user the request describes appears in the profile list. */
  lemma StoredIsListed(users: seq<User>, actor: Actor, q: Query, k: nat)
    requires k < |users| && Listed(actor, q, users[k])
    ensures View(users[k]) in ProfileList(users, actor, q)
  {
    var chosen := Select(users, (u: User) => Selects(ProfileFilter(actor, q), u));
    SelectsMeansListed(actor, q, users[k]);
    assert users[k] in chosen;
    var j :| 0 <= j < |chosen| && chosen[j] == users[k];
    assert Views(chosen)[j] == View(users[k]);
    assert View(users[k]) in multiset(Views(chosen));
  }

  /** A `user` (or any role other than admin and manager) sees only their own record. */
  lemma MemberSeesOnlySelf(users: seq<User>, cache: map<string, Body>, actor: Actor, q: Query)
    requires ProfileListKey(actor, q) !in cache
    requires actor.role != Admin && actor.role != Manager
    ensures forall v | v in ProfileOutcome(users, cache, actor, q).response.body.users :: v.id == actor.id
  {
    ProfileShowsExactly(users, cache, actor, q);
  }

  // ---------------------------------------------------------------- getProfileById

  /** Line 145: the cache key of one profile: the raw route parameter, whoever asks. */
  function ProfileKey(userId: string): string {
    "profile_" + userId
  }

  /** Lines 162-166: admins, the user's own manager, and the user as written in the path. */
  predicate MayView(actor: Actor, u: User, userId: string) {
    actor.role == Admin
    || (actor.role == Manager && u.managerId == Some(actor.id))
    || actor.id == userId
  }

  /** The key names one path parameter: different ids never share a cache entry. */
  lemma ProfileKeyNamesOneUser(a: string, b: string)
    ensures ProfileKey(a) == ProfileKey(b) <==> a == b
  {
    assert ProfileKey(a)[8..] == a && ProfileKey(b)[8..] == b;
  }

  /**
   * Who may read a profile: an admin anyone, a manager their team, everyone
   * the path that spells their own id; a user or an unknown role nothing else.
   */
  lemma MayViewByRole(id: ObjectId, u: User, userId: string, name: string)
    ensures MayView(Actor(id, Admin), u, userId)
    ensures MayView(Actor(id, Manager), u, userId) <==> u.managerId == Some(id) || userId == id
    ensures MayView(Actor(id, Member), u, userId) <==> userId == id
    ensures MayView(Actor(id, Other(name)), u, userId) <==> userId == id
    ensures MayView(Actor(id, Member), u, userId) ==> MayView(Actor(id, Manager), u, userId)
  {
  }

  /** Lines 137-176. */
  function ProfileByIdOutcome(users: seq<User>, cache: map<string, Body>, actor: Actor, userId: string): (o: ReadStep)
    ensures userId == "" ==> o == ReadStep(Response(400, Message(UserIdRequired)), cache)
    ensures userId != "" && ProfileKey(userId) in cache ==> o == ReadStep(Response(200, cache[ProfileKey(userId)]), cache)
    ensures userId != "" && ProfileKey(userId) !in cache ==>
      (o.response.code == 200 <==> FindUser(users, userId).Found? && MayView(actor, users[FindUser(users, userId).index], userId))
    ensures userId != "" && ProfileKey(userId) !in cache && o.response.code == 200 ==>
      o.response.body == UserDoc(View(users[FindUser(users, userId).index]))
    ensures userId != "" && ProfileKey(userId) !in cache && FindUser(users, userId).Missing? ==>
      o.response == Response(404, Message(UserNotFound))
    ensures (userId != "" && ProfileKey(userId) !in cache && FindUser(users, userId).Found?
             && !MayView(actor, users[FindUser(users, userId).index], userId)) ==>
      o.response == Response(403, Message(AccessDenied))
    ensures o.cache == cache
      || (ProfileKey(userId) !in cache && o.response.code == 200 && o.cache == cache[ProfileKey(userId) := o.response.body])
  {
    if userId == "" then ReadStep(Response(400, Message(UserIdRequired)), cache)
    else
      var key := ProfileKey(userId);
      if key in cache then ReadStep(Response(200, cache[key]), cache)
      else match FindUser(users, userId)
        case CastError => ReadStep(Crash, cache)
        case Missing => ReadStep(Response(404, Message(UserNotFound)), cache)
        case Found(i) =>
          var doc := UserDoc(View(users[i]));
          if MayView(actor, users[i], userId) then ReadStep(Response(200, doc), cache[key := doc])
          else ReadStep(Response(403, Message(AccessDenied)), cache)
  }

  /** `getProfileById`. */
  method GetProfileById(db: Db, cache: Cache, actor: Actor, userId: string) returns (r: Response)
    modifies cache
    ensures var o := ProfileByIdOutcome(db.users, old(cache.entries), actor, userId);
      r == o.response && cache.entries == o.cache
  {
    if userId == "" {
      return Response(400, Message(UserIdRequired));
    }
    var key := ProfileKey(userId);
    var cached := cache.Get(key);
    if cached.Some? {
      return Response(200, cached.value);
    }
    var found := FindUser(db.users, userId);
    if found.CastError? {
      return Crash;
    }
    if found.Missing? {
      return Response(404, Message(UserNotFound));
    }
    var user := db.users[found.index];
    if MayView(actor, user, userId) {
      cache.Set(key, UserDoc(View(user)));
      return Response(200, UserDoc(View(user)));
    }
    return Response(403, Message(AccessDenied));
  }

  /**
   * The self test compares the path text with the id's printed form: a
   * `user` who writes their own id with an upper-case hexadecimal digit is
   * refused their own profile.
   */
  lemma UpperCaseSelfRefused(users: seq<User>, cache: map<string, Body>, actor: Actor, userId: string)
    requires actor.role == Member
    requires exists k | 0 <= k < |users| :: users[k].id == actor.id
    requires CastObjectId(userId) == Some(actor.id) && userId != actor.id
    requires ProfileKey(userId) !in cache
    ensures ProfileByIdOutcome(users, cache, actor, userId).response == Response(403, Message(AccessDenied))
  {
    assert FindUser(users, userId).Found?;
  }

  /** Once one reader has put a profile in the cache, every later reader gets it, whatever their role. */
  lemma CachedProfileServedToAnyone(users: seq<User>, cache: map<string, Body>, first: Actor, later: Actor, userId: string)
    requires userId != "" && ProfileKey(userId) !in cache
    requires ProfileByIdOutcome(users, cache, first, userId).response.code == 200
    ensures FindUser(users, userId).Found?
    ensures var u := users[FindUser(users, userId).index];
      ProfileByIdOutcome(users, ProfileByIdOutcome(users, cache, first, userId).cache, later, userId).response
        == Response(200, UserDoc(View(u)))
  {
  }

  /**
   * The list key of an unfiltered profile request is the single-profile key
   * of the path `<id>_{}`: after an actor's plain profile list is cached,
   * anyone asking for that path is served the actor's list.
   */
  lemma ProfileListUnderProfileKey(users: seq<User>, cache: map<string, Body>, actor: Actor, reader: Actor)
    requires ProfileListKey(actor, []) !in cache
    ensures var after := ProfileOutcome(users, cache, actor, []).cache;
      ProfileByIdOutcome(users, after, reader, actor.id + "_{}").response
        == Response(200, UserList(ProfileList(users, actor, [])))
  {
    assert QueryJson([]) == "{}";
    assert ProfileListKey(actor, []) == ProfileKey(actor.id + "_{}");
  }

  // ---------------------------------------------------------------- assignManager

  /** Lines 178-212: `managerId` is the body's field, absent when not sent. */
  function AssignManagerOutcome(users: seq<User>, userId: string, managerId: Option<string>): (o: UserStep)
    ensures FindUser(users, userId).CastError? ==> o == UserStep(Crash, users)
    ensures FindUser(users, userId).Missing? ==> o == UserStep(Response(404, Message(UserNotFound)), users)
    ensures FindUser(users, userId).Found? && users[FindUser(users, userId).index].managerId.Some? ==>
      o == UserStep(Response(400, Message(HasManager)), users)
    ensures o.response.code == 200 <==>
      FindUser(users, userId).Found? && users[FindUser(users, userId).index].managerId.None?
      && (managerId.None? || IsObjectIdText(managerId.value))
    ensures o.response.code != 200 ==> o.users == users
    ensures o.response.code == 200 ==>
      var i := FindUser(users, userId).index;
      var u := users[i].(managerId := if managerId.Some? then CastObjectId(managerId.value) else None);
      o == UserStep(Response(200, UserResult(ManagerAssigned, Summary(u))), users[i := u])
    ensures UsersValid(users) ==> UsersValid(o.users)
  {
    match FindUser(users, userId)
    case CastError => UserStep(Crash, users)
    case Missing => UserStep(Response(404, Message(UserNotFound)), users)
    case Found(i) =>
      if users[i].managerId.Some? then UserStep(Response(400, Message(HasManager)), users)
      else if managerId.Some? && !IsObjectIdText(managerId.value) then UserStep(Crash, users)
      else
        var u := users[i].(managerId := if managerId.Some? then CastObjectId(managerId.value) else None);
        UserStep(Response(200, UserResult(ManagerAssigned, Summary(u))), users[i := u])
  }

  /** `assignManager`. */
  method AssignManager(db: Db, userId: string, managerId: Option<string>) returns (r: Response)
    requires db.Valid()
    modifies db
    ensures var o := AssignManagerOutcome(old(db.users), userId, managerId);
      r == o.response && db.users == o.users
    ensures db.tasks == old(db.tasks) && db.Valid()
  {
    var found := FindUser(db.users, userId);
    if found.CastError? {
      return Crash;
    }
    if found.Missing? {
      return Response(404, Message(UserNotFound));
    }
    var user := db.users[found.index];
    if user.managerId.Some? {
      return Response(400, Message(HasManager));
    }
    var stored: Option<ObjectId> := None;
    if managerId.Some? {
      stored := CastObjectId(managerId.value);
      if stored.None? {
        return Crash;
      }
    }
    user := user.(managerId := stored);
    db.users := db.users[found.index := user];
    return Response(200, UserResult(ManagerAssigned, Summary(user)));
  }

  /** Only the target's `managerId` changes; every other user and every other field stays. */
  lemma AssignManagerChangesOneField(users: seq<User>, userId: string, managerId: Option<string>)
    requires AssignManagerOutcome(users, userId, managerId).response.code == 200
    ensures var after := AssignManagerOutcome(users, userId, managerId).users;
      var i := FindUser(users, userId).index;
      |after| == |users|
      && (forall k | 0 <= k < |users| && k != i :: after[k] == users[k])
      && after[i].(managerId := None) == users[i]
  {
  }

  /** A manager, once given, cannot be replaced: a second assignment to the same user is refused. */
  lemma AssignManagerOnce(users: seq<User>, userId: string, managerId: string, other: Option<string>)
    requires UsersValid(users)
    requires AssignManagerOutcome(users, userId, Some(managerId)).response.code == 200
    ensures var after := AssignManagerOutcome(users, userId, Some(managerId)).users;
      AssignManagerOutcome(after, userId, other) == UserStep(Response(400, Message(HasManager)), after)
  {
    var i := FindUser(users, userId).index;
    var after := AssignManagerOutcome(users, userId, Some(managerId)).users;
    assert forall k | 0 <= k < |after| :: after[k].id == users[k].id;
    var j := FindUser(after, userId).index;
    assert after[j].id == users[i].id;
    assert j == i;
  }
}
