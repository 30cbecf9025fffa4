/**
  The entities of the persisted document (`data.json`): users, activities and the
  reminder bookkeeping stored on each activity, plus the document itself and the
  `Array.prototype.find` / `findIndex` lookups every component uses.
 */
module Model {
  import opened Wrappers

  /** An activity's `status` string: 'planned', 'held' or 'skipped' */
  datatype Status = Planned | Held | Skipped

  /** The keys of the reminder table: 'twoMonths', 'oneMonth', 'twoWeeks' */
  datatype LeadTime = TwoMonths | OneMonth | TwoWeeks

  /** The record `{sent, sentAt, recipients}` kept under `notifications[leadTime]`; `sentAt` is in ms */
  datatype Notice = Notice(sent: bool, sentAt: int, recipients: seq<string>)

  /** A registered user; `email` is absent until someone sets it */
  datatype User = User(id: string, name: string, facebookId: string, email: Option<string>)

  /**
    An activity. `date` is the instant (ms since the epoch) that the activity's date
    denotes; `responsible` is a user id or a typed name; `notifications` is absent
    until the first reminder sweep that processes the activity.
   */
  datatype Activity = Activity(
    id: string,
    title: string,
    date: int,
    responsible: Option<string>,
    notes: string,
    participants: seq<string>,
    status: Status,
    notifications: Option<map<LeadTime, Notice>>)

  /** JavaScript truthiness of an optional string: present and not empty */
  predicate Truthy(v: Option<string>) {
    v.Some? && v.value != ""
  }

  predicate NoDuplicates<T(==)>(s: seq<T>) {
    forall i, j :: 0 <= i < j < |s| ==> s[i] != s[j]
  }

  /** `findIndex`: the first position whose element satisfies `p` */
  function FirstIndex<T>(s: seq<T>, p: T -> bool): (r: Option<nat>)
    ensures r.Some? ==> r.value < |s| && p(s[r.value]) && forall j :: 0 <= j < r.value ==> !p(s[j])
    ensures r.None? ==> forall j :: 0 <= j < |s| ==> !p(s[j])
  {
    if s == [] then None
    else if p(s[0]) then Some(0)
    else
      match FirstIndex(s[1..], p)
      case None => None
      case Some(k) => Some(k + 1)
  }

  /** `users.find(p)`: the first user that satisfies `p` */
  function FindUser(users: seq<User>, p: User -> bool): (r: Option<User>)
    ensures r.Some? ==>
      exists i :: 0 <= i < |users| && users[i] == r.value && p(r.value) && forall j :: 0 <= j < i ==> !p(users[j])
    ensures r.None? ==> forall u :: u in users ==> !p(u)
  {
    match FirstIndex(users, p)
    case None => None
    case Some(i) => Some(users[i])
  }

  /** `users.find(user => user.id === id)` */
  function UserById(users: seq<User>, id: string): Option<User> {
    FindUser(users, (u: User) => u.id == id)
  }

  /** `activities.findIndex(a => a.id === id)` */
  function ActivityIndex(activities: seq<Activity>, id: string): Option<nat> {
    FirstIndex(activities, (a: Activity) => a.id == id)
  }

  /**
    The in-memory copy of the data file: what `readData` returns and `writeData`
    persists. `saves` counts the calls of `writeData`.
   */
  class DataStore {
    var activities: seq<Activity>
    var users: seq<User>
    var saves: nat

    /** The default document `readData` falls back to when the file cannot be read */
    constructor ()
      ensures activities == [] && users == [] && saves == 0
    {
      activities, users, saves := [], [], 0;
    }
  }
}
