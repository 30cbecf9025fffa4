/**
  The request handlers of the HTTP server, stripped of their `req`/`res` plumbing:
  each is a method on the in-memory document (`DataStore`) that `readData` loads and
  `writeData` persists. A handler that answers with an error status writes nothing.
 */
module Server {
  import opened Wrappers
  import opened Model
  import Reminders

  /** A handler's answer: the JSON body of a success, or an error status and message */
  datatype Reply<T> = Ok(value: T) | Failed(status: nat, error: string)

  const ActivityNotFound := "Activity not found"
  const StartMonthRequired := "Start month is required"
  const AlreadyCompleted := "Activity is already completed and cannot be changed back"

  /** Number of activities bulk create makes, and the months between two of them */
  const BatchSize := 8
  const MonthsApart := 2
  const BatchTitle := "Loge Activity "

  /**
    What a handler reads from its surroundings: the value of `Date.now()` during the
    request, `Number.prototype.toString` for ids, and the JavaScript `Date` arithmetic
    of bulk create. `monthDate(start, k)` is the instant of the first day of the month
    `k` months after the month `start` ('YYYY-MM'); `monthName(start, k)` is that day
    written as a long month name and a numeric year.
   */
  datatype Runtime = Runtime(
    now: int,
    idOf: int -> string,
    monthDate: (string, int) -> int,
    monthName: (string, int) -> string)

  /* ----- POST /api/activities ----- */

  /** The record a create request makes: `responsible || null`, `notes || ''`, no participants, planned */
  function NewActivity(id: string, title: string, date: int, responsible: Option<string>, notes: Option<string>): (a: Activity)
    ensures a.id == id && a.title == title && a.date == date
    ensures a.status == Planned && a.participants == [] && a.notifications.None?
    ensures Truthy(a.responsible) <==> Truthy(responsible)
    ensures a.responsible.Some? ==> a.responsible == responsible && Truthy(a.responsible)
    ensures a.notes == if notes.Some? then notes.value else ""
  {
    Activity(id, title, date, if Truthy(responsible) then responsible else None, notes.GetOr(""), [], Planned, None)
  }

  method CreateActivity(data: DataStore, rt: Runtime, title: string, date: int, responsible: Option<string>, notes: Option<string>)
    returns (created: Activity)
    modifies data
    ensures created == NewActivity(rt.idOf(rt.now), title, date, responsible, notes)
    ensures data.activities == old(data.activities) + [created]
    ensures data.users == old(data.users) && data.saves == old(data.saves) + 1
  {
    created := NewActivity(rt.idOf(rt.now), title, date, responsible, notes);
    data.activities := data.activities + [created];
    data.saves := data.saves + 1;
  }

  /* ----- POST /api/activities/bulk ----- */

  /** The `i`-th activity of a batch: `2 * i` months after the start month, id `now + i` */
  function BatchActivity(start: string, i: nat, rt: Runtime): Activity {
    Activity(rt.idOf(rt.now + i), BatchTitle + rt.monthName(start, MonthsApart * i),
      rt.monthDate(start, MonthsApart * i), None, "", [], Planned, None)
  }

  /** The eight activities bulk create appends */
  function Batch(start: string, rt: Runtime): (r: seq<Activity>)
    ensures |r| == BatchSize
    ensures forall i :: 0 <= i < |r| ==>
      && r[i].status == Planned && r[i].participants == [] && r[i].responsible.None? && r[i].notes == ""
      && r[i].date == rt.monthDate(start, 2 * i)
      && r[i].title == BatchTitle + rt.monthName(start, 2 * i)
      && r[i].notifications.None?
  {
    seq(BatchSize, i requires 0 <= i => BatchActivity(start, i, rt))
  }

  /** When `toString` tells numbers apart, the eight ids of a batch are pairwise different */
  lemma BatchIdsDistinct(start: string, rt: Runtime)
    requires forall x, y :: rt.idOf(x) == rt.idOf(y) ==> x == y
    ensures forall i, j :: 0 <= i < j < BatchSize ==> Batch(start, rt)[i].id != Batch(start, rt)[j].id
  {
    var r := Batch(start, rt);
    forall i, j | 0 <= i < j < BatchSize
      ensures r[i].id != r[j].id
    {
      assert r[i] == BatchActivity(start, i, rt) && r[j] == BatchActivity(start, j, rt);
      assert rt.now + i != rt.now + j;
    }
  }

  /** The next reminder sweep processes every activity of a batch */
  lemma BatchAllProcessed(start: string, rt: Runtime)
    ensures Reminders.CountPlanned(Batch(start, rt)) == BatchSize
  {
    AllPlannedCounted(Batch(start, rt));
  }

  lemma {:induction false} AllPlannedCounted(activities: seq<Activity>)
    requires forall i :: 0 <= i < |activities| ==> activities[i].status == Planned
    ensures Reminders.CountPlanned(activities) == |activities|
  {
    if activities != [] {
      AllPlannedCounted(activities[..|activities| - 1]);
    }
  }

  /** A missing or empty start month is refused with 400; otherwise eight activities are appended one by one */
  method BulkCreate(data: DataStore, rt: Runtime, startMonth: Option<string>) returns (reply: Reply<seq<Activity>>)
    modifies data
    ensures !Truthy(startMonth) ==>
      reply == Failed(400, StartMonthRequired) && data.activities == old(data.activities) && data.saves == old(data.saves)
    ensures Truthy(startMonth) ==>
      && reply == Ok(Batch(startMonth.value, rt))
      && data.activities == old(data.activities) + Batch(startMonth.value, rt)
      && data.saves == old(data.saves) + 1
    ensures data.users == old(data.users)
  {
    if !Truthy(startMonth) {
      return Failed(400, StartMonthRequired);
    }
    var start := startMonth.value;
    var created := [];
    for i := 0 to BatchSize
      invariant created == Batch(start, rt)[..i]
      invariant data.activities == old(data.activities) + created
      invariant data.users == old(data.users) && data.saves == old(data.saves)
    {
      var activity := BatchActivity(start, i, rt);
      data.activities := data.activities + [activity];
      created := created + [activity];
    }
    assert created == Batch(start, rt);
    data.saves := data.saves + 1;
    reply := Ok(created);
  }

  /* ----- POST /api/activities/:id/signup ----- */

  /** The activity after `userId` signs up: added once, and made responsible if no one is */
  function Joined(a: Activity, userId: string): (b: Activity)
    ensures b == a.(participants := b.participants, responsible := b.responsible)
    ensures userId in b.participants
    ensures b.participants == if userId in a.participants then a.participants else a.participants + [userId]
    ensures b.responsible == if Truthy(a.responsible) then a.responsible else Some(userId)
  {
    var participants := if userId in a.participants then a.participants else a.participants + [userId];
    var responsible := if Truthy(a.responsible) then a.responsible else Some(userId);
    a.(participants := participants, responsible := responsible)
  }

  /** Signing up twice is signing up once, and a duplicate-free participant list stays so */
  lemma {:induction false} SignupIdempotent(a: Activity, userId: string)
    ensures Joined(Joined(a, userId), userId) == Joined(a, userId)
    ensures NoDuplicates(a.participants) ==> NoDuplicates(Joined(a, userId).participants)
  {
    var b := Joined(a, userId);
    if userId !in a.participants && NoDuplicates(a.participants) {
      forall i, j | 0 <= i < j < |b.participants|
        ensures b.participants[i] != b.participants[j]
      {
        if j == |a.participants| {
          assert b.participants[i] == a.participants[i];
        }
      }
    }
  }

  /** A repeated signup request leaves the whole list as the first one left it */
  lemma SignupRepeatNoChange(activities: seq<Activity>, id: string, userId: string)
    ensures match ActivityIndex(activities, id)
      case None => true
      case Some(i) =>
        var once := activities[i := Joined(activities[i], userId)];
        ActivityIndex(once, id) == Some(i) && once[i := Joined(once[i], userId)] == once
  {
    match ActivityIndex(activities, id)
    case None =>
    case Some(i) =>
      var once := activities[i := Joined(activities[i], userId)];
      SameIdSameIndex(activities, i, Joined(activities[i], userId), id);
      SignupIdempotent(activities[i], userId);
  }

  /** Replacing the first match by a record with the same id keeps it the first match */
  lemma SameIdSameIndex(activities: seq<Activity>, i: nat, b: Activity, id: string)
    requires ActivityIndex(activities, id) == Some(i) && b.id == id
    ensures ActivityIndex(activities[i := b], id) == Some(i)
  {
    var after := activities[i := b];
    assert after[i].id == id;
    forall j | 0 <= j < i
      ensures after[j].id != id
    {
      assert after[j] == activities[j];
    }
  }

  /** 404 when no activity has the id; otherwise the first match is edited in place and saved */
  method Signup(data: DataStore, id: string, userId: string) returns (reply: Reply<Activity>)
    modifies data
    ensures match ActivityIndex(old(data.activities), id)
      case None =>
        reply == Failed(404, ActivityNotFound) && data.activities == old(data.activities) && data.saves == old(data.saves)
      case Some(i) =>
        && data.activities == old(data.activities)[i := Joined(old(data.activities)[i], userId)]
        && reply == Ok(data.activities[i])
        && data.saves == old(data.saves) + 1
    ensures data.users == old(data.users)
  {
    var index := ActivityIndex(data.activities, id);
    if index.None? {
      return Failed(404, ActivityNotFound);
    }
    var i := index.value;
    var activity := data.activities[i];
    if userId !in activity.participants {
      activity := activity.(participants := activity.participants + [userId]);
    }
    if !Truthy(activity.responsible) {
      activity := activity.(responsible := Some(userId));
    }
    data.activities := data.activities[i := activity];
    data.saves := data.saves + 1;
    reply := Ok(activity);
  }

  /* ----- POST /api/activities/:id/leave ----- */

  /** `s.filter(p => p !== x)` */
  function Without(s: seq<string>, x: string): (r: seq<string>)
    ensures forall y :: y in r <==> y in s && y != x
    ensures |r| == |s| - multiset(s)[x]
  {
    if s == [] then []
    else
      assert s == [s[0]] + s[1..];
      (if s[0] == x then [] else [s[0]]) + Without(s[1..], x)
  }

  /** Filtering commutes with concatenation: the remaining participants keep their order */
  lemma {:induction false} WithoutAppend(s: seq<string>, t: seq<string>, x: string)
    ensures Without(s + t, x) == Without(s, x) + Without(t, x)
  {
    if s == [] {
      assert s + t == t;
    } else {
      assert (s + t)[0] == s[0] && (s + t)[1..] == s[1..] + t;
      WithoutAppend(s[1..], t, x);
    }
  }

  /** Filtering out someone absent changes nothing */
  lemma {:induction false} WithoutAbsent(s: seq<string>, x: string)
    requires x !in s
    ensures Without(s, x) == s
  {
    if s != [] {
      WithoutAbsent(s[1..], x);
    }
  }

  /** The activity after `userId` leaves: every occurrence removed, responsibility handed to the first one left */
  function Left(a: Activity, userId: string): (b: Activity)
    ensures b == a.(participants := Without(a.participants, userId), responsible := b.responsible)
    ensures a.responsible != Some(userId) ==> b.responsible == a.responsible
    ensures a.responsible == Some(userId) ==> b.responsible != Some(userId)
    ensures a.responsible == Some(userId) && b.participants != [] ==> b.responsible == Some(b.participants[0])
    ensures a.responsible == Some(userId) && b.participants == [] ==> b.responsible.None?
  {
    var participants := Without(a.participants, userId);
    var responsible :=
      if a.responsible == Some(userId) then (if |participants| > 0 then Some(participants[0]) else None)
      else a.responsible;
    assert |participants| > 0 ==> participants[0] in participants;
    a.(participants := participants, responsible := responsible)
  }

  /**
    Leaving undoes a signup by someone who was not a participant, as long as the
    signup did not change who is responsible, or there was nobody at all before.
   */
  lemma LeaveUndoesSignup(a: Activity, userId: string)
    requires userId !in a.participants
    requires (Truthy(a.responsible) && a.responsible != Some(userId)) || (a.participants == [] && a.responsible.None?)
    ensures Left(Joined(a, userId), userId) == a
  {
    WithoutAbsent(a.participants, userId);
    WithoutAppend(a.participants, [userId], userId);
  }

  /** 404 when no activity has the id; otherwise the first match is edited in place and saved */
  method Leave(data: DataStore, id: string, userId: string) returns (reply: Reply<Activity>)
    modifies data
    ensures match ActivityIndex(old(data.activities), id)
      case None =>
        reply == Failed(404, ActivityNotFound) && data.activities == old(data.activities) && data.saves == old(data.saves)
      case Some(i) =>
        && data.activities == old(data.activities)[i := Left(old(data.activities)[i], userId)]
        && reply == Ok(data.activities[i])
        && data.saves == old(data.saves) + 1
    ensures data.users == old(data.users)
  {
    var index := ActivityIndex(data.activities, id);
    if index.None? {
      return Failed(404, ActivityNotFound);
    }
    var i := index.value;
    var activity := data.activities[i];
    activity := activity.(participants := Without(activity.participants, userId));
    if activity.responsible == Some(userId) {
      activity := activity.(responsible := if |activity.participants| > 0 then Some(activity.participants[0]) else None);
    }
    data.activities := data.activities[i := activity];
    data.saves := data.saves + 1;
    reply := Ok(activity);
  }

  /* ----- POST /api/activities/:id/mark-held and /mark-skipped ----- */

  /** The status machine: only a planned activity moves, and only to `to` */
  function Settled(a: Activity, to: Status): (r: Option<Activity>)
    requires to != Planned
    ensures r.Some? <==> a.status == Planned
    ensures r.Some? ==> r.value == a.(status := to) && r.value.status != Planned
  {
    if a.status == Planned then Some(a.(status := to)) else None
  }

  /** A settled activity can never be settled again, to either outcome */
  lemma SettledIsFinal(a: Activity, to: Status, next: Status)
    requires to != Planned && next != Planned
    requires Settled(a, to).Some?
    ensures Settled(Settled(a, to).value, next).None?
  {
  }

  /**
    Both mark handlers, with `to` Held or Skipped: 404 for an unknown id, 400 when the
    activity is not planned, otherwise the status changes in place and is saved.
   */
  method Mark(data: DataStore, id: string, to: Status) returns (reply: Reply<Activity>)
    requires to != Planned
    modifies data
    ensures match ActivityIndex(old(data.activities), id)
      case None =>
        reply == Failed(404, ActivityNotFound) && data.activities == old(data.activities) && data.saves == old(data.saves)
      case Some(i) =>
        match Settled(old(data.activities)[i], to)
        case None =>
          reply == Failed(400, AlreadyCompleted) && data.activities == old(data.activities) && data.saves == old(data.saves)
        case Some(b) =>
          data.activities == old(data.activities)[i := b] && reply == Ok(b) && data.saves == old(data.saves) + 1
    ensures data.users == old(data.users)
  {
    var index := ActivityIndex(data.activities, id);
    if index.None? {
      return Failed(404, ActivityNotFound);
    }
    var i := index.value;
    var activity := data.activities[i];
    if activity.status == Planned {
      activity := activity.(status := to);
      data.activities := data.activities[i := activity];
      data.saves := data.saves + 1;
      reply := Ok(activity);
    } else {
      reply := Failed(400, AlreadyCompleted);
    }
  }

  /* ----- DELETE /api/activities/:id ----- */

  /** The list after `splice(findIndex(...), 1)`: the first activity with the id removed, the rest in order */
  function Removed(activities: seq<Activity>, id: string): (r: Option<seq<Activity>>)
    ensures r.None? <==> forall k :: 0 <= k < |activities| ==> activities[k].id != id
    ensures r.Some? ==> exists i ::
      && 0 <= i < |activities| && activities[i].id == id
      && (forall j :: 0 <= j < i ==> activities[j].id != id)
      && r.value == activities[..i] + activities[i + 1..]
  {
    match ActivityIndex(activities, id)
    case None => None
    case Some(i) => Some(activities[..i] + activities[i + 1..])
  }

  /** Deleting by the id of a freshly appended activity with an unused id restores the list */
  lemma DeleteUndoesCreate(activities: seq<Activity>, a: Activity)
    requires forall k :: 0 <= k < |activities| ==> activities[k].id != a.id
    ensures Removed(activities + [a], a.id) == Some(activities)
  {
    var s := activities + [a];
    assert s[|activities|].id == a.id;
    forall j | 0 <= j < |activities|
      ensures s[j].id != a.id
    {
      assert s[j] == activities[j];
    }
    assert ActivityIndex(s, a.id) == Some(|activities|);
    assert s[..|activities|] + s[|activities| + 1..] == activities;
  }

  method Delete(data: DataStore, id: string) returns (reply: Reply<bool>)
    modifies data
    ensures Removed(old(data.activities), id).None? ==>
      reply == Failed(404, ActivityNotFound) && data.activities == old(data.activities) && data.saves == old(data.saves)
    ensures Removed(old(data.activities), id).Some? ==>
      reply == Ok(true) && data.activities == Removed(old(data.activities), id).value && data.saves == old(data.saves) + 1
    ensures data.users == old(data.users)
  {
    var index := ActivityIndex(data.activities, id);
    if index.None? {
      return Failed(404, ActivityNotFound);
    }
    var i := index.value;
    data.activities := data.activities[..i] + data.activities[i + 1..];
    data.saves := data.saves + 1;
    reply := Ok(true);
  }

  /* ----- POST /api/users ----- */

  /** `users.find(u => u.facebookId === facebookId)` */
  function UserByFacebookId(users: seq<User>, facebookId: string): Option<User> {
    FindUser(users, (u: User) => u.facebookId == facebookId)
  }

  /** The user list after a registration: unchanged for a known Facebook id, else one user appended without email */
  function Registered(users: seq<User>, id: string, name: string, facebookId: string): (r: seq<User>)
    ensures exists u :: u in r && u.facebookId == facebookId
    ensures UserByFacebookId(users, facebookId).Some? ==> r == users
    ensures UserByFacebookId(users, facebookId).None? ==> r == users + [User(id, name, facebookId, None)]
  {
    if UserByFacebookId(users, facebookId).Some? then users
    else
      assert users + [User(id, name, facebookId, None)] == users + [User(id, name, facebookId, None)];
      users + [User(id, name, facebookId, None)]
  }

  predicate UniqueFacebookIds(users: seq<User>) {
    forall i, j :: 0 <= i < j < |users| ==> users[i].facebookId != users[j].facebookId
  }

  /** Registration keeps Facebook ids unique, and registering the same Facebook id again changes nothing */
  lemma RegisterKeepsUnique(users: seq<User>, id: string, name: string, facebookId: string, id2: string, name2: string)
    requires UniqueFacebookIds(users)
    ensures UniqueFacebookIds(Registered(users, id, name, facebookId))
    ensures var r := Registered(users, id, name, facebookId);
      Registered(r, id2, name2, facebookId) == r
  {
    var r := Registered(users, id, name, facebookId);
    if UserByFacebookId(users, facebookId).None? {
      forall i, j | 0 <= i < j < |r|
        ensures r[i].facebookId != r[j].facebookId
      {
        if j == |users| {
          assert r[i] == users[i];
        }
      }
      assert r[|users|] in r;
    }
  }

  /** A known Facebook id returns the stored user without writing; otherwise a new user is appended and saved */
  method RegisterUser(data: DataStore, rt: Runtime, name: string, facebookId: string) returns (user: User)
    modifies data
    ensures data.users == Registered(old(data.users), rt.idOf(rt.now), name, facebookId)
    ensures user in data.users && user.facebookId == facebookId
    ensures UserByFacebookId(old(data.users), facebookId).Some? ==>
      user == UserByFacebookId(old(data.users), facebookId).value && data.saves == old(data.saves)
    ensures UserByFacebookId(old(data.users), facebookId).None? ==>
      user == User(rt.idOf(rt.now), name, facebookId, None) && data.saves == old(data.saves) + 1
    ensures data.activities == old(data.activities)
  {
    var existing := UserByFacebookId(data.users, facebookId);
    if existing.Some? {
      return existing.value;
    }
    user := User(rt.idOf(rt.now), name, facebookId, None);
    data.users := data.users + [user];
    data.saves := data.saves + 1;
  }
}
