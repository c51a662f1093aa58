/**
 * src/utils/analytics.js: the counts `calculateAnalytics` takes over the task
 * collection, and the loop of `sendAnalytics` that sends them to every
 * connected client whose user is an admin. The WebSocket transport is left
 * out: `clients` is the sequence of connected user ids in iteration order,
 * and `notifyUser` appends to a log.
 */
module Analytics {
  import opened Wrappers
  import opened Mongo
  import opened Calendar
  import opened TaskModel
  import opened UserModel
  import opened Store

  /** The object `calculateAnalytics` returns. */
  datatype Counts = Counts(total: nat, pending: nat, inProgress: nat, completed: nat, overdue: nat)

  /** The moment `new Date()` stands for: a UTC calendar day and the milliseconds since its midnight. */
  datatype Instant = Instant(day: Day, ms: nat)

  /** `dueDate < now`; a due date is the UTC midnight of its day. */
  predicate DueBefore(due: CalDate, now: Instant) {
    Ordinal(due) < Ordinal(now.day) || (due == now.day && now.ms > 0)
  }

  /** Lines 10-13: the filter of the overdue count. */
  predicate IsOverdue(t: Task, now: Instant) {
    t.status != Completed && DueBefore(t.dueDate, now)
  }

  /** `countDocuments(filter)`. */
  function Count(tasks: seq<Task>, p: Task -> bool): (n: nat)
    ensures n <= |tasks|
  {
    |Select(tasks, p)|
  }

  /** Lines 5-24. */
  function CalculateAnalytics(tasks: seq<Task>, now: Instant): (a: Counts)
    ensures a.total == |tasks|
    ensures a.pending <= a.total && a.inProgress <= a.total && a.completed <= a.total && a.overdue <= a.total
  {
    Counts(|tasks|,
      Count(tasks, (t: Task) => t.status == Pending),
      Count(tasks, (t: Task) => t.status == InProgress),
      Count(tasks, (t: Task) => t.status == Completed),
      Count(tasks, (t: Task) => IsOverdue(t, now)))
  }

  /** A count over one more task at the front. */
  lemma CountCons(tasks: seq<Task>, p: Task -> bool)
    requires tasks != []
    ensures Count(tasks, p) == (if p(tasks[0]) then 1 else 0) + Count(tasks[1..], p)
  {
  }

  /** Every stored status is one of the three the schema allows, so the three status counts add up to the total. */
  lemma {:induction false} StatusCountsAddUp(tasks: seq<Task>, now: Instant)
    ensures var a := CalculateAnalytics(tasks, now);
      a.pending + a.inProgress + a.completed == a.total
  {
    if tasks != [] {
      StatusCountsAddUp(tasks[1..], now);
      CountCons(tasks, (t: Task) => t.status == Pending);
      CountCons(tasks, (t: Task) => t.status == InProgress);
      CountCons(tasks, (t: Task) => t.status == Completed);
    }
  }

  /** A completed task is never overdue, so the overdue tasks are among the rest. */
  lemma {:induction false} OverdueAmongOpen(tasks: seq<Task>, now: Instant)
    ensures var a := CalculateAnalytics(tasks, now);
      a.overdue <= a.total - a.completed
  {
    if tasks != [] {
      OverdueAmongOpen(tasks[1..], now);
      CountCons(tasks, (t: Task) => t.status == Completed);
      CountCons(tasks, (t: Task) => IsOverdue(t, now));
    }
  }

  /** A task due on the current day becomes overdue once that day's midnight is past, and a task due later is not. */
  lemma OverdueFromMidnight(t: Task, now: Instant)
    requires t.status != Completed && ValidDate(t.dueDate)
    ensures t.dueDate == now.day ==> (IsOverdue(t, now) <==> now.ms > 0)
    ensures Ordinal(now.day) < Ordinal(t.dueDate) ==> !IsOverdue(t, now)
  {
    OrdinalIsChronological(t.dueDate, now.day);
  }

  // ---------------------------------------------------------------- sendAnalytics

  /** Line 33: the message `notifyUser` is given. */
  datatype Notice = Notice(to: string, kind: string, analytics: Counts)

  const AnalyticsKind := "TASK_ANALYTICS"

  /** The messages sent, and whether the loop went through every client. */
  datatype Delivery = Delivery(notices: seq<Notice>, finished: bool)

  /** A connected id has a user. */
  predicate Known(users: seq<User>, id: string) {
    FindUser(users, id).Found?
  }

  /** The user behind a connected id is an admin. */
  predicate IsAdminId(users: seq<User>, id: string) {
    Known(users, id) && users[FindUser(users, id).index].role == Admin
  }

  /** What one found client is sent: the counts if it is an admin, else nothing. */
  function Sent(users: seq<User>, id: string, a: Counts): seq<Notice> {
    if IsAdminId(users, id) then [Notice(id, AnalyticsKind, a)] else []
  }

  /**
   * Lines 29-35 over `clients`: each id is looked up; an admin is sent the
   * counts, anyone else nothing. An id without a user stops the loop, since
   * reading `role` of `null` throws (as does the cast of a malformed id).
   */
  function Deliver(users: seq<User>, clients: seq<string>, a: Counts): (d: Delivery)
    ensures |d.notices| <= |clients|
    decreases |clients|
  {
    if clients == [] then Delivery([], true)
    else
      var last := clients[|clients| - 1];
      var before := Deliver(users, clients[..|clients| - 1], a);
      if !before.finished then before
      else if !Known(users, last) then Delivery(before.notices, false)
      else Delivery(before.notices + Sent(users, last, a), true)
  }

  /** Only admins among the clients are sent anything, and what they are sent is the counts. */
  lemma {:induction false} DeliverOnlyToAdmins(users: seq<User>, clients: seq<string>, a: Counts)
    ensures forall n | n in Deliver(users, clients, a).notices ::
      n.kind == AnalyticsKind && n.analytics == a && IsAdminId(users, n.to) && n.to in clients
    decreases |clients|
  {
    if clients != [] {
      var init := clients[..|clients| - 1];
      DeliverOnlyToAdmins(users, init, a);
      assert forall c | c in init :: c in clients;
    }
  }

  /** The loop goes through every client exactly when every connected id has a user. */
  lemma {:induction false} DeliverFinishes(users: seq<User>, clients: seq<string>, a: Counts)
    ensures Deliver(users, clients, a).finished <==> forall k | 0 <= k < |clients| :: Known(users, clients[k])
    decreases |clients|
  {
    if clients != [] {
      var init := clients[..|clients| - 1];
      assert clients == init + [clients[|clients| - 1]];
      DeliverFinishes(users, init, a);
      assert forall k | 0 <= k < |init| :: init[k] == clients[k];
    }
  }

  /** The ids the loop sends to when every client has a user: the admins, in client order. */
  function Recipients(notices: seq<Notice>): seq<string>
    decreases |notices|
  {
    if notices == [] then [] else Recipients(notices[..|notices| - 1]) + [notices[|notices| - 1].to]
  }

  /** Sending one more notice adds its recipient at the end. */
  lemma RecipientsSnoc(notices: seq<Notice>, n: Notice)
    ensures Recipients(notices + [n]) == Recipients(notices) + [n.to]
  {
    assert (notices + [n])[..|notices|] == notices;
  }

  /** One more client after a delivery that is still going. */
  lemma DeliverStep(users: seq<User>, clients: seq<string>, i: nat, a: Counts)
    requires i < |clients|
    requires Deliver(users, clients[..i], a).finished
    ensures var before := Deliver(users, clients[..i], a);
      Deliver(users, clients[..i + 1], a) ==
        if !Known(users, clients[i]) then Delivery(before.notices, false)
        else Delivery(before.notices + Sent(users, clients[i], a), true)
  {
    assert clients[..i + 1][..i] == clients[..i];
  }

  /** With every client found, exactly the admins among the clients are notified, in order. */
  lemma {:induction false} DeliverAllFound(users: seq<User>, clients: seq<string>, a: Counts)
    requires forall k | 0 <= k < |clients| :: Known(users, clients[k])
    ensures Deliver(users, clients, a).finished
    ensures Recipients(Deliver(users, clients, a).notices) == Select(clients, (c: string) => IsAdminId(users, c))
    decreases |clients|
  {
    if clients != [] {
      var n := |clients| - 1;
      var init := clients[..n];
      var last := clients[n];
      assert clients == init + [last];
      var p := (c: string) => IsAdminId(users, c);
      assert forall k | 0 <= k < |init| :: init[k] == clients[k];
      DeliverAllFound(users, init, a);
      var before := Deliver(users, init, a);
      DeliverStep(users, clients, n, a);
      assert clients[..n + 1] == clients;
      var d := Deliver(users, clients, a);
      if p(last) {
        assert d.notices == before.notices + [Notice(last, AnalyticsKind, a)];
        RecipientsSnoc(before.notices, Notice(last, AnalyticsKind, a));
      } else {
        assert d.notices == before.notices;
      }
      SelectSnoc(init, last, p);
    }
  }

  /** A delivery that has stopped stays as it was however many clients follow. */
  lemma {:induction false} StoppedStays(users: seq<User>, clients: seq<string>, i: nat, a: Counts)
    requires i <= |clients|
    requires !Deliver(users, clients[..i], a).finished
    ensures Deliver(users, clients, a) == Deliver(users, clients[..i], a)
    decreases |clients| - i
  {
    if i < |clients| {
      assert clients[..i + 1][..i] == clients[..i];
      StoppedStays(users, clients, i + 1, a);
    } else {
      assert clients[..i] == clients;
    }
  }

  /** Where `notifyUser` sends: the log of notices. */
  class Notifier {
    var sent: seq<Notice>

    constructor ()
      ensures sent == []
    {
      sent := [];
    }

    method Notify(to: string, n: Notice)
      modifies this
      ensures sent == old(sent) + [n]
    {
      sent := sent + [n];
    }
  }

  /** One turn of the loop of lines 30-34; `ok` is false where it throws. */
  method Visit(notifier: Notifier, users: seq<User>, userId: string, a: Counts) returns (ok: bool)
    modifies notifier
    ensures ok == Known(users, userId)
    ensures notifier.sent == old(notifier.sent) + (if ok then Sent(users, userId, a) else [])
  {
    var found := FindUser(users, userId);
    if !found.Found? {
      return false;
    }
    if users[found.index].role == Admin {
      notifier.Notify(userId, Notice(userId, AnalyticsKind, a));
    }
    return true;
  }

  /** Lines 29-35: the loop over the connected clients with the counts already taken. */
  method Broadcast(notifier: Notifier, users: seq<User>, clients: seq<string>, a: Counts) returns (finished: bool)
    modifies notifier
    ensures notifier.sent == old(notifier.sent) + Deliver(users, clients, a).notices
    ensures finished == Deliver(users, clients, a).finished
  {
    var i := 0;
    while i < |clients|
      invariant 0 <= i <= |clients|
      invariant Deliver(users, clients[..i], a).finished
      invariant notifier.sent == old(notifier.sent) + Deliver(users, clients[..i], a).notices
    {
      var ok := Visit(notifier, users, clients[i], a);
      DeliverStep(users, clients, i, a);
      if !ok {
        StoppedStays(users, clients, i + 1, a);
        return false;
      }
      i := i + 1;
    }
    assert clients[..i] == clients;
    return true;
  }

  /** `sendAnalytics`: `finished` is false when the loop threw. */
  method SendAnalytics(db: Db, notifier: Notifier, clients: seq<string>, now: Instant) returns (finished: bool)
    modifies notifier
    ensures var d := Deliver(db.users, clients, CalculateAnalytics(db.tasks, now));
      notifier.sent == old(notifier.sent) + d.notices && finished == d.finished
  {
    var a := CalculateAnalytics(db.tasks, now);
    finished := Broadcast(notifier, db.users, clients, a);
  }
}
