/**
 * `getAllTasks` of src/controllers/taskController.js: the filter and sort
 * built from the actor's role and the query string, the cache key derived
 * from their JSON text, and the cache-aside read of `Task.find(filter).sort(sort)`.
 */
module TaskListing {
  import opened Wrappers
  import opened Text
  import opened Mongo
  import opened Calendar
  import opened TaskModel
  import opened UserModel
  import opened Http
  import opened Store
  import opened Sorting
  import TaskController

  /** The query-string fields the handler reads (`priority` is read and never used). */
  datatype TaskQuery = TaskQuery(
    dueDate: Option<string>,
    status: Option<string>,
    unassigned: Option<string>,
    priority: Option<string>,
    sortBy: Option<string>,
    sortOrder: Option<string>)

  /** A condition on one path of a task document. */
  datatype Cond =
    /** the path holds this id (`{ managerId: _id }`, `filter.assignedTo = _id`) */
    | IdIs(id: ObjectId)
    /** `{ $exists: present }` */
    | Exists(present: bool)
    /** `{ $in: values }` */
    | InList(values: seq<string>)
    /** `{ $gte: from, $lt: until }` on a date */
    | Window(from: CalDate, until: CalDate)

  datatype Clause = Clause(path: string, cond: Cond)

  /** A filter entry's value: a condition on the path its key names, or the clauses of `$or`. */
  datatype EntryValue = Is(cond: Cond) | AnyOf(clauses: seq<Clause>)

  datatype Entry = Entry(key: string, value: EntryValue)

  /** A filter object: its entries in property order (keys are distinct). */
  type Filter = seq<Entry>

  /** `sort = {}` or `sort.dueDate = direction`. */
  datatype SortSpec = Unsorted | ByDueDate(direction: int)

  predicate HasKey(f: Filter, key: string) {
    exists i | 0 <= i < |f| :: f[i].key == key
  }

  predicate DistinctKeys(f: Filter) {
    forall i, j | 0 <= i < j < |f| :: f[i].key != f[j].key
  }

  /** The place of `key` among the filter's entries, or `|f|` when it has none. */
  function KeyIndex(f: Filter, key: string): (i: nat)
    ensures i <= |f|
    ensures i < |f| ==> f[i].key == key
    ensures forall k | 0 <= k < i :: f[k].key != key
  {
    if f == [] || f[0].key == key then 0 else 1 + KeyIndex(f[1..], key)
  }

  /** `filter[key] = value`: an existing key keeps its place and gets the new value, a new key goes last. */
  function Put(f: Filter, key: string, value: EntryValue): (r: Filter)
    requires DistinctKeys(f)
    ensures DistinctKeys(r)
    ensures |r| == if HasKey(f, key) then |f| else |f| + 1
    ensures forall i | 0 <= i < |f| :: r[i] == if f[i].key == key then Entry(key, value) else f[i]
    ensures !HasKey(f, key) ==> r[|f|] == Entry(key, value)
  {
    var i := KeyIndex(f, key);
    assert HasKey(f, key) <==> i < |f|;
    if i < |f| then f[i := Entry(key, value)] else f + [Entry(key, value)]
  }

  /** Assigning to a fresh filter gives the one entry. */
  lemma PutIntoEmpty(key: string, value: EntryValue)
    ensures Put([], key, value) == [Entry(key, value)]
  {
    assert [] + [Entry(key, value)] == [Entry(key, value)];
  }

  // ---------------------------------------------------------------- matching

  /** A path's value in a task document, as a query sees it. */
  datatype PathValue = IdValue(id: ObjectId) | TextValue(text: string) | DateValue(date: CalDate)

  /** The value at a path; `None` for a path the document lacks, such as `managerId`. */
  function PathOf(t: Task, path: string): Option<PathValue> {
    match path
    case "assignedTo" => if t.assignedTo.None? then None else Some(IdValue(t.assignedTo.value))
    case "status" => Some(TextValue(StatusName(t.status)))
    case "priority" => Some(TextValue(PriorityName(t.priority)))
    case "dueDate" => Some(DateValue(t.dueDate))
    case _ => None
  }

  predicate Holds(v: Option<PathValue>, c: Cond) {
    match c
    case IdIs(id) => v == Some(IdValue(id))
    case Exists(present) => v.Some? == present
    case InList(values) => v.Some? && v.value.TextValue? && v.value.text in values
    case Window(from, until) =>
      v.Some? && v.value.DateValue? && Ordinal(from) <= Ordinal(v.value.date) < Ordinal(until)
  }

  predicate EntryHolds(e: Entry, t: Task) {
    match e.value
    case Is(c) => Holds(PathOf(t, e.key), c)
    case AnyOf(clauses) => exists k | 0 <= k < |clauses| :: Holds(PathOf(t, clauses[k].path), clauses[k].cond)
  }

  /** A task satisfies a filter when it satisfies every entry. */
  predicate Matches(f: Filter, t: Task) {
    forall i | 0 <= i < |f| :: EntryHolds(f[i], t)
  }

  /** The task satisfies every entry whose key is not in `skip`. */
  predicate MatchesOutside(f: Filter, skip: set<string>, t: Task) {
    forall i | 0 <= i < |f| && f[i].key !in skip :: EntryHolds(f[i], t)
  }

  /** Assigning a key replaces whatever condition the filter held under it. */
  lemma PutOutside(f: Filter, key: string, value: EntryValue, skip: set<string>, t: Task)
    requires DistinctKeys(f)
    ensures MatchesOutside(Put(f, key, value), skip, t) <==>
      (key !in skip ==> EntryHolds(Entry(key, value), t)) && MatchesOutside(f, skip + {key}, t)
  {
    var r := Put(f, key, value);
    if MatchesOutside(r, skip, t) && key !in skip {
      if HasKey(f, key) {
        var i :| 0 <= i < |f| && f[i].key == key;
        assert r[i] == Entry(key, value);
      } else {
        assert r[|f|] == Entry(key, value);
      }
    }
    if MatchesOutside(r, skip, t) {
      forall i | 0 <= i < |f| && f[i].key !in skip + {key}
        ensures EntryHolds(f[i], t)
      {
        assert r[i] == f[i];
      }
    }
  }

  lemma PutIfOutside(cond: bool, f: Filter, key: string, value: EntryValue, skip: set<string>, t: Task)
    requires DistinctKeys(f)
    ensures MatchesOutside(if cond then Put(f, key, value) else f, skip, t) <==>
      (cond && key !in skip ==> EntryHolds(Entry(key, value), t))
      && MatchesOutside(f, if cond then skip + {key} else skip, t)
  {
    if cond {
      PutOutside(f, key, value, skip, t);
    }
  }

  /** `Task.find(filter)`: the matching tasks in natural order. */
  function FilterTasks(tasks: seq<Task>, f: Filter): (r: seq<Task>)
    ensures forall t :: t in r <==> t in tasks && Matches(f, t)
    ensures multiset(r) <= multiset(tasks)
  {
    Select(tasks, (t: Task) => Matches(f, t))
  }

  /** Sequences that are permutations of each other hold the same elements. */
  lemma SameElements<T>(a: seq<T>, b: seq<T>)
    requires multiset(a) == multiset(b)
    ensures forall x :: x in a <==> x in b
  {
    forall x
      ensures x in a <==> x in b
    {
      assert x in a <==> x in multiset(a);
      assert x in b <==> x in multiset(b);
    }
  }

  /** `.sort(sort)`. */
  function SortTasks(tasks: seq<Task>, s: SortSpec): (r: seq<Task>)
    ensures multiset(r) == multiset(tasks)
    ensures forall t :: t in r <==> t in tasks
    ensures s == ByDueDate(1) ==> SortedBy(r, (t: Task) => Ordinal(t.dueDate))
    ensures s == ByDueDate(-1) ==> SortedBy(r, (t: Task) => -Ordinal(t.dueDate))
  {
    var r :=
      match s
      case Unsorted => tasks
      case ByDueDate(direction) =>
        if direction == 1 then SortBy(tasks, (t: Task) => Ordinal(t.dueDate))
        else if direction == -1 then SortBy(tasks, (t: Task) => -Ordinal(t.dueDate))
        else tasks;
    SameElements(r, tasks);
    r
  }

  // ---------------------------------------------------------------- the filter and the sort

  /** The entry a manager's filter starts with: `managerId` is theirs, or the task is unassigned. */
  function ManagerScope(actor: Actor): EntryValue {
    AnyOf([Clause("managerId", IdIs(actor.id)), Clause("assignedTo", Exists(false))])
  }

  /** Lines 175-186: the filter each role starts from; any other role is refused. */
  function RoleFilter(actor: Actor): (r: Option<Filter>)
    ensures r.None? <==> actor.role.Other?
    ensures r.Some? ==> DistinctKeys(r.value) && |r.value| <= 1
  {
    if actor.role == Admin then Some([])
    else if actor.role == Manager then Some([Entry("$or", ManagerScope(actor))])
    else if actor.role == Member then Some([Entry("assignedTo", Is(IdIs(actor.id)))])
    else None
  }

  /**
   * Lines 173-207: the filter, or the refusal. `dueDay` is what moment's
   * forgiving parse of the `dueDate` text gives, `None` when it is NaN.
   */
  function ListFilter(actor: Actor, q: TaskQuery, dueDay: Option<CalDate>): (r: Result<Filter>)
    requires dueDay.Some? ==> ValidDate(dueDay.value)
    ensures r.Err? <==> actor.role.Other? || (Truthy(q.dueDate) && dueDay.None?)
    ensures r.Err? && actor.role.Other? ==> r.message == Unauthorized
    ensures r.Err? && !actor.role.Other? ==> r.message == TaskController.DueDateMessage
    ensures r.Ok? ==> DistinctKeys(r.value)
  {
    match RoleFilter(actor)
    case None => Err(Unauthorized)
    case Some(f0) =>
      if Truthy(q.dueDate) && dueDay.None? then Err(TaskController.DueDateMessage)
      else
        var f1 := if Truthy(q.dueDate) then Put(f0, "dueDate", Is(Window(dueDay.value, NextDay(dueDay.value)))) else f0;
        var f2 := if Truthy(q.status) then Put(f1, "status", Is(InList(SplitTrim(q.status.value)))) else f1;
        Ok(if q.unassigned == Some("true") then Put(f2, "assignedTo", Is(Exists(false))) else f2)
  }

  /** Lines 209-217: the sort. */
  function ListSort(q: TaskQuery): (s: SortSpec)
    ensures !Truthy(q.sortBy) ==> s == ByDueDate(1)
    ensures q.sortBy == Some("dueDate") ==> s == ByDueDate(if q.sortOrder == Some("desc") then -1 else 1)
    ensures Truthy(q.sortBy) && q.sortBy != Some("dueDate") ==> s == Unsorted
  {
    if Truthy(q.sortBy) then
      (if q.sortBy.value == "dueDate" then ByDueDate(if q.sortOrder == Some("desc") then -1 else 1) else Unsorted)
    else ByDueDate(1)
  }

  /** Which tasks a role's list may show before the other query fields narrow it. */
  predicate InScope(actor: Actor, q: TaskQuery, t: Task) {
    if q.unassigned == Some("true") then t.assignedTo.None?
    else if actor.role == Admin then true
    else if actor.role == Manager then t.assignedTo.None?
    else t.assignedTo == Some(actor.id)
  }

  /** A date lies in `[d, next day)` exactly when it is `d`. */
  lemma WindowIsOneDay(d: CalDate, e: CalDate)
    requires ValidDate(d) && ValidDate(e)
    ensures Ordinal(d) <= Ordinal(e) < Ordinal(NextDay(d)) <==> e == d
  {
    NextDayIsNext(d, e);
    OrdinalIsChronological(d, e);
  }

  /**
   * What the list filter means: the role's scope (which `unassigned=true`
   * replaces, for a user as for anyone), the day named by `dueDate`, and the
   * trimmed comma-separated statuses. A manager's `managerId` clause never
   * holds, since tasks have no such path.
   */
  lemma ListFilterMeaning(actor: Actor, q: TaskQuery, dueDay: Option<CalDate>, t: Task)
    requires dueDay.Some? ==> ValidDate(dueDay.value)
    requires WellFormed(t)
    requires ListFilter(actor, q, dueDay).Ok?
    ensures Matches(ListFilter(actor, q, dueDay).value, t) <==>
      InScope(actor, q, t)
      && (Truthy(q.dueDate) ==> t.dueDate == dueDay.value)
      && (Truthy(q.status) ==> StatusName(t.status) in SplitTrim(q.status.value))
  {
    var f0 := RoleFilter(actor).value;
    var due := Truthy(q.dueDate);
    var st := Truthy(q.status);
    var un := q.unassigned == Some("true");
    var dueEntry := if due then Is(Window(dueDay.value, NextDay(dueDay.value))) else Is(Exists(true));
    var statusEntry := if st then Is(InList(SplitTrim(q.status.value))) else Is(Exists(true));
    var f1 := if due then Put(f0, "dueDate", dueEntry) else f0;
    var f2 := if st then Put(f1, "status", statusEntry) else f1;
    var f3 := if un then Put(f2, "assignedTo", Is(Exists(false))) else f2;
    assert f3 == ListFilter(actor, q, dueDay).value;
    var s2: set<string> := if un then {} + {"assignedTo"} else {};
    var s1: set<string> := if st then s2 + {"status"} else s2;
    var s0: set<string> := if due then s1 + {"dueDate"} else s1;
    assert "status" !in s2 && "dueDate" !in s1 && "$or" !in s0;
    assert "assignedTo" in s0 <==> un;
    EntryMeanings(q, dueDay, t);
    // Peel the three assignments off, last first.
    assert Matches(f3, t) <==> MatchesOutside(f3, {}, t);
    PutIfOutside(un, f2, "assignedTo", Is(Exists(false)), {}, t);
    PutIfOutside(st, f1, "status", statusEntry, s2, t);
    PutIfOutside(due, f0, "dueDate", dueEntry, s1, t);
    // What is left is the role's own entry, unless `unassigned=true` replaced it.
    RoleFilterMeaning(actor, q, s0, t);
  }

  /** What each entry the query adds asks of a task. */
  lemma EntryMeanings(q: TaskQuery, dueDay: Option<CalDate>, t: Task)
    requires dueDay.Some? ==> ValidDate(dueDay.value)
    requires WellFormed(t)
    ensures EntryHolds(Entry("assignedTo", Is(Exists(false))), t) <==> t.assignedTo.None?
    ensures Truthy(q.status) ==>
      (EntryHolds(Entry("status", Is(InList(SplitTrim(q.status.value)))), t) <==> StatusName(t.status) in SplitTrim(q.status.value))
    ensures dueDay.Some? ==>
      (EntryHolds(Entry("dueDate", Is(Window(dueDay.value, NextDay(dueDay.value)))), t) <==> t.dueDate == dueDay.value)
  {
    if dueDay.Some? {
      WindowIsOneDay(dueDay.value, t.dueDate);
    }
  }

  lemma RoleFilterMeaning(actor: Actor, q: TaskQuery, skip: set<string>, t: Task)
    requires !actor.role.Other?
    requires "$or" !in skip
    requires "assignedTo" in skip <==> q.unassigned == Some("true")
    ensures (q.unassigned == Some("true") ==> t.assignedTo.None?) && MatchesOutside(RoleFilter(actor).value, skip, t)
      <==> InScope(actor, q, t)
  {
    var f0 := RoleFilter(actor).value;
    var s0 := skip;
    var un := q.unassigned == Some("true");
    if actor.role == Manager {
      var scope := ManagerScope(actor);
      assert EntryHolds(Entry("$or", scope), t) <==> t.assignedTo.None? by {
        assert scope.clauses[1].path == "assignedTo";
        if t.assignedTo.None? {
          assert Holds(PathOf(t, scope.clauses[1].path), scope.clauses[1].cond);
        }
      }
      assert f0 == [Entry("$or", scope)];
      assert f0[0].key !in s0;
      assert MatchesOutside(f0, s0, t) <==> EntryHolds(f0[0], t);
    } else if actor.role == Member {
      assert f0 == [Entry("assignedTo", Is(IdIs(actor.id)))];
      assert EntryHolds(f0[0], t) <==> t.assignedTo == Some(actor.id);
      assert !un ==> f0[0].key !in s0 && (MatchesOutside(f0, s0, t) <==> EntryHolds(f0[0], t));
    }
  }


  // ---------------------------------------------------------------- the cache key

  function BoolJson(b: bool): string {
    if b then "true" else "false"
  }

  function StringsJson(values: seq<string>): string {
    "[" + Join(seq(|values|, i requires 0 <= i < |values| => JsonString(values[i])), ',') + "]"
  }

  /** `JSON.stringify` of a UTC-midnight `Date`: its ISO text (the server clock is taken to be on UTC). */
  function DateJson(d: CalDate): string {
    var year :=
      if 0 <= d.year <= 9999 then PadStart(IntToString(d.year), 4, '0')
      else (if d.year < 0 then "-" else "+") + PadStart(IntToString(if d.year < 0 then -d.year else d.year), 6, '0');
    "\"" + year + "-" + PadStart(IntToString(d.month), 2, '0') + "-" + PadStart(IntToString(d.day), 2, '0')
    + "T00:00:00.000Z\""
  }

  function CondJson(c: Cond): string {
    match c
    case IdIs(id) => JsonString(id)
    case Exists(present) => "{\"$exists\":" + BoolJson(present) + "}"
    case InList(values) => "{\"$in\":" + StringsJson(values) + "}"
    case Window(from, until) => "{\"$gte\":" + DateJson(from) + ",\"$lt\":" + DateJson(until) + "}"
  }

  function ClauseJson(c: Clause): string {
    "{" + JsonString(c.path) + ":" + CondJson(c.cond) + "}"
  }

  function EntryJson(e: Entry): string {
    JsonString(e.key) + ":" +
      match e.value
      case Is(c) => CondJson(c)
      case AnyOf(clauses) => "[" + Join(seq(|clauses|, k requires 0 <= k < |clauses| => ClauseJson(clauses[k])), ',') + "]"
  }

  /** `JSON.stringify(filter)`. */
  function FilterJson(f: Filter): string {
    "{" + Join(seq(|f|, i requires 0 <= i < |f| => EntryJson(f[i])), ',') + "}"
  }

  /** `JSON.stringify(sort)`. */
  function SortJson(s: SortSpec): string {
    match s
    case Unsorted => "{}"
    case ByDueDate(direction) => "{\"dueDate\":" + IntToString(direction) + "}"
  }

  /** `` `tasks_${JSON.stringify(filter)}_${JSON.stringify(sort)}` ``. */
  function ListKey(f: Filter, s: SortSpec): string {
    "tasks_" + FilterJson(f) + "_" + SortJson(s)
  }

  // ---------------------------------------------------------------- getAllTasks

  /**
   * Lines 168-230: a refusal, a cached list for the key, or the listed tasks,
   * which are then cached under the key. The list is whatever the filter
   * selects in the order the sort gives.
   */
  function ListOutcome(tasks: seq<Task>, cache: map<string, Body>, actor: Actor, q: TaskQuery, dueDay: Option<CalDate>): (o: ReadStep)
    requires dueDay.Some? ==> ValidDate(dueDay.value)
    ensures actor.role.Other? ==> o == ReadStep(Response(403, Message(Unauthorized)), cache)
    ensures !actor.role.Other? && Truthy(q.dueDate) && dueDay.None? ==>
      o == ReadStep(Response(400, Message(TaskController.DueDateMessage)), cache)
    ensures ListFilter(actor, q, dueDay).Ok? ==> o.response.code == 200
    ensures ListFilter(actor, q, dueDay).Ok? && ListKey(ListFilter(actor, q, dueDay).value, ListSort(q)) in cache ==>
      o == ReadStep(Response(200, cache[ListKey(ListFilter(actor, q, dueDay).value, ListSort(q))]), cache)
    ensures ListFilter(actor, q, dueDay).Ok? && ListKey(ListFilter(actor, q, dueDay).value, ListSort(q)) !in cache ==>
      var f := ListFilter(actor, q, dueDay).value;
      o.response.body.TaskList? && o.cache == cache[ListKey(f, ListSort(q)) := o.response.body]
  {
    match ListFilter(actor, q, dueDay)
    case Err(m) => ReadStep(Response(if actor.role.Other? then 403 else 400, Message(m)), cache)
    case Ok(f) =>
      var key := ListKey(f, ListSort(q));
      if key in cache then ReadStep(Response(200, cache[key]), cache)
      else
        var found := SortTasks(FilterTasks(tasks, f), ListSort(q));
        ReadStep(Response(200, TaskList(found)), cache[key := TaskList(found)])
  }

  /** Lines 173-207 of `getAllTasks`: the filter is built field by field. */
  method BuildFilter(actor: Actor, q: TaskQuery, dueDay: Option<CalDate>) returns (r: Result<Filter>)
    requires dueDay.Some? ==> ValidDate(dueDay.value)
    ensures r == ListFilter(actor, q, dueDay)
  {
    var filter: Filter := [];
    if actor.role == Admin {
    } else if actor.role == Manager {
      PutIntoEmpty("$or", ManagerScope(actor));
      filter := Put(filter, "$or", ManagerScope(actor));
    } else if actor.role == Member {
      PutIntoEmpty("assignedTo", Is(IdIs(actor.id)));
      filter := Put(filter, "assignedTo", Is(IdIs(actor.id)));
    } else {
      return Err(Unauthorized);
    }
    assert RoleFilter(actor) == Some(filter);
    if Truthy(q.dueDate) {
      if dueDay.Some? {
        filter := Put(filter, "dueDate", Is(Window(dueDay.value, NextDay(dueDay.value))));
      } else {
        return Err(TaskController.DueDateMessage);
      }
    }
    if Truthy(q.status) {
      filter := Put(filter, "status", Is(InList(SplitTrim(q.status.value))));
    }
    if q.unassigned == Some("true") {
      filter := Put(filter, "assignedTo", Is(Exists(false)));
    }
    return Ok(filter);
  }

  /** Lines 209-217 of `getAllTasks`: the sort. */
  method BuildSort(q: TaskQuery) returns (sort: SortSpec)
    ensures sort == ListSort(q)
  {
    sort := Unsorted;
    if Truthy(q.sortBy) {
      if q.sortBy.value == "dueDate" {
        sort := ByDueDate(if q.sortOrder == Some("desc") then -1 else 1);
      }
    } else {
      sort := ByDueDate(1);
    }
  }

  /** `getAllTasks`. */
  method GetAllTasks(db: Db, cache: Cache, actor: Actor, q: TaskQuery, dueDay: Option<CalDate>) returns (r: Response)
    requires dueDay.Some? ==> ValidDate(dueDay.value)
    modifies cache
    ensures var o := ListOutcome(db.tasks, old(cache.entries), actor, q, dueDay);
      r == o.response && cache.entries == o.cache
  {
    var filter := BuildFilter(actor, q, dueDay);
    if filter.Err? {
      return Response(if actor.role.Other? then 403 else 400, Message(filter.message));
    }
    var sort := BuildSort(q);
    var key := ListKey(filter.value, sort);
    var cached := cache.Get(key);
    if cached.Some? {
      return Response(200, cached.value);
    }
    var found := SortTasks(FilterTasks(db.tasks, filter.value), sort);
    cache.Set(key, TaskList(found));
    return Response(200, TaskList(found));
  }

  /**
   * On a cache miss the list holds the tasks the filter selects, each at most
   * as often as it is stored, in the order the sort asks for.
   */
  lemma ListMissContents(tasks: seq<Task>, cache: map<string, Body>, actor: Actor, q: TaskQuery, dueDay: Option<CalDate>)
    requires dueDay.Some? ==> ValidDate(dueDay.value)
    requires ListFilter(actor, q, dueDay).Ok?
    requires ListKey(ListFilter(actor, q, dueDay).value, ListSort(q)) !in cache
    ensures var f := ListFilter(actor, q, dueDay).value;
      var listed := ListOutcome(tasks, cache, actor, q, dueDay).response.body;
      listed.TaskList?
      && (forall t :: t in listed.tasks <==> t in tasks && Matches(f, t))
      && multiset(listed.tasks) <= multiset(tasks)
      && (ListSort(q) == ByDueDate(1) ==> SortedBy(listed.tasks, (t: Task) => Ordinal(t.dueDate)))
      && (ListSort(q) == ByDueDate(-1) ==> SortedBy(listed.tasks, (t: Task) => -Ordinal(t.dueDate)))
  {
    var f := ListFilter(actor, q, dueDay).value;
    assert ListOutcome(tasks, cache, actor, q, dueDay).response.body == TaskList(SortTasks(FilterTasks(tasks, f), ListSort(q)));
  }

  /**
   * On a cache miss the list holds exactly the stored tasks in the role's
   * scope that fall on the requested day and carry one of the requested
   * statuses, each at most as often as it is stored.
   */
  lemma ListShowsExactly(tasks: seq<Task>, cache: map<string, Body>, actor: Actor, q: TaskQuery, dueDay: Option<CalDate>)
    requires dueDay.Some? ==> ValidDate(dueDay.value)
    requires AllWellFormed(tasks)
    requires ListFilter(actor, q, dueDay).Ok?
    requires ListKey(ListFilter(actor, q, dueDay).value, ListSort(q)) !in cache
    ensures var o := ListOutcome(tasks, cache, actor, q, dueDay);
      o.response.body.TaskList?
      && forall t :: t in o.response.body.tasks <==>
        t in tasks && InScope(actor, q, t)
        && (Truthy(q.dueDate) ==> t.dueDate == dueDay.value)
        && (Truthy(q.status) ==> StatusName(t.status) in SplitTrim(q.status.value))
  {
    var o := ListOutcome(tasks, cache, actor, q, dueDay);
    ListMissContents(tasks, cache, actor, q, dueDay);
    forall t
      ensures t in o.response.body.tasks <==>
        t in tasks && InScope(actor, q, t)
        && (Truthy(q.dueDate) ==> t.dueDate == dueDay.value)
        && (Truthy(q.status) ==> StatusName(t.status) in SplitTrim(q.status.value))
    {
      if t in tasks {
        ListFilterMeaning(actor, q, dueDay, t);
      }
    }
  }

  /**
   * A manager's list never shows a task assigned to anyone, not even to the
   * manager, though `getTaskById` lets the manager read a task assigned to
   * them: the `managerId` clause names a path tasks do not have.
   */
  lemma ManagerListMissesOwnTasks(actor: Actor, q: TaskQuery, dueDay: Option<CalDate>, t: Task)
    requires dueDay.Some? ==> ValidDate(dueDay.value)
    requires WellFormed(t)
    requires actor.role == Manager
    requires t.assignedTo == Some(actor.id)
    ensures ListFilter(actor, q, dueDay).Ok? ==> !Matches(ListFilter(actor, q, dueDay).value, t)
    ensures TaskController.CanView(actor, t)
  {
    if ListFilter(actor, q, dueDay).Ok? {
      ListFilterMeaning(actor, q, dueDay, t);
    }
  }

  /**
   * `unassigned=true` overwrites a user's own `assignedTo` entry, so a user's
   * list shows every unassigned task, none of which `getTaskById` lets the
   * user read.
   */
  lemma UserSeesUnassigned(actor: Actor, q: TaskQuery, dueDay: Option<CalDate>, t: Task)
    requires dueDay.Some? ==> ValidDate(dueDay.value)
    requires WellFormed(t)
    requires actor.role == Member && q.unassigned == Some("true")
    requires !Truthy(q.dueDate) && !Truthy(q.status)
    requires t.assignedTo.None?
    ensures ListFilter(actor, q, dueDay) == Ok([Entry("assignedTo", Is(Exists(false)))])
    ensures Matches(ListFilter(actor, q, dueDay).value, t)
    ensures !TaskController.CanView(actor, t)
  {
    var own := [Entry("assignedTo", Is(IdIs(actor.id)))];
    assert Put(own, "assignedTo", Is(Exists(false))) == [Entry("assignedTo", Is(Exists(false)))];
    ListFilterMeaning(actor, q, dueDay, t);
  }

  /** The `priority` query field changes neither the answer nor the cache. */
  lemma PriorityIgnored(tasks: seq<Task>, cache: map<string, Body>, actor: Actor, q: TaskQuery, dueDay: Option<CalDate>, p: Option<string>)
    requires dueDay.Some? ==> ValidDate(dueDay.value)
    ensures ListOutcome(tasks, cache, actor, q.(priority := p), dueDay) == ListOutcome(tasks, cache, actor, q, dueDay)
  {
    assert ListFilter(actor, q.(priority := p), dueDay) == ListFilter(actor, q, dueDay);
    assert ListSort(q.(priority := p)) == ListSort(q);
  }

  /** The filter `{}` selects every task. */
  lemma {:induction false} FilterNothing(tasks: seq<Task>)
    ensures FilterTasks(tasks, []) == tasks
  {
    SelectAll(tasks, (t: Task) => Matches([], t));
  }

  /** A list key never equals a task key, so the two caches cannot answer for each other. */
  lemma ListKeyIsNoTaskKey(f: Filter, s: SortSpec, taskId: string)
    ensures ListKey(f, s) != TaskController.TaskKey(taskId)
  {
    assert ListKey(f, s)[4] == 's';
    assert TaskController.TaskKey(taskId)[4] == '_';
  }

  /** An admin's list without query fields is every stored task, by due date ascending. */
  lemma AdminPlainList(tasks: seq<Task>, cache: map<string, Body>, admin: Actor)
    requires admin.role == Admin
    requires ListKey([], ByDueDate(1)) !in cache
    ensures var q := TaskQuery(None, None, None, None, None, None);
      ListOutcome(tasks, cache, admin, q, None).response == Response(200, TaskList(SortTasks(tasks, ByDueDate(1))))
  {
    var q := TaskQuery(None, None, None, None, None, None);
    assert ListFilter(admin, q, None) == Ok([]);
    assert ListSort(q) == ByDueDate(1);
    FilterNothing(tasks);
  }
}
