/**
  The decisions the activity page makes before it renders anything: the name shown for
  a responsible person, whether an activity counts as having one, the split into the
  upcoming and the recently held lists, and which action buttons a card offers.
 */
module App {
  import opened Wrappers
  import opened JsText
  import opened Model
  import Server

  const NoOneAssigned := "No one assigned"
  const Someone := "Someone"
  const AdminName := "Morten Gryning"
  /** Ids longer than this are taken for user ids rather than typed names */
  const TypedNameLength := 10
  /** How many held or skipped activities the page lists */
  const RecentCount := 5

  /* ----- getUserName ----- */

  /**
    The name shown for a `responsible` value, by the first rule that applies: nobody,
    the signed-in user, a known user, a short typed name, or a placeholder.
   */
  function GetUserName(userId: Option<string>, currentUser: Option<User>, users: seq<User>): (r: string)
    ensures !Truthy(userId) ==> r == NoOneAssigned
    ensures Truthy(userId) && currentUser.Some? && currentUser.value.id == userId.value ==> r == currentUser.value.name
    ensures Truthy(userId) && (currentUser.None? || currentUser.value.id != userId.value) ==>
      r == match UserById(users, userId.value)
        case Some(u) => u.name
        case None => if |userId.value| <= TypedNameLength then userId.value else Someone
  {
    if !Truthy(userId) then NoOneAssigned
    else if currentUser.Some? && userId.value == currentUser.value.id then currentUser.value.name
    else match UserById(users, userId.value)
      case Some(u) => u.name
      case None => if |userId.value| <= TypedNameLength then userId.value else Someone
  }

  /**
    With user ids unique and the signed-in user's record agreeing with the list, the
    page shows a known user's own name.
   */
  lemma ShowsKnownName(u: User, currentUser: Option<User>, users: seq<User>)
    requires u in users && u.id != ""
    requires forall i, j :: 0 <= i < j < |users| ==> users[i].id != users[j].id
    requires currentUser.Some? && currentUser.value.id == u.id ==> currentUser.value.name == u.name
    ensures GetUserName(Some(u.id), currentUser, users) == u.name
  {
    var i :| 0 <= i < |users| && users[i] == u;
    assert UserById(users, u.id).Some?;
    var j :| 0 <= j < |users| && users[j] == UserById(users, u.id).value;
    assert users[j].id == users[i].id;
  }

  /* ----- hasResponsiblePerson ----- */

  /** `activity.responsible && activity.responsible.trim() !== ''` */
  function HasResponsiblePerson(responsible: Option<string>): (b: bool)
    ensures b <==> responsible.Some? && exists k :: 0 <= k < |responsible.value| && !IsSpace(responsible.value[k])
  {
    Truthy(responsible) && Trim(responsible.value) != ""
  }

  /**
    The page and the reminder mails judge responsibility differently: a responsible
    value made of white space only is a person for the mails (it is truthy) but not for
    the page, which offers "Make me responsible" while signing up keeps that value.
   */
  lemma BlankResponsibleDisagrees(a: Activity, user: User)
    requires Truthy(a.responsible) && forall k :: 0 <= k < |a.responsible.value| ==> IsSpace(a.responsible.value[k])
    requires a.status == Planned && user.id != a.responsible.value
    ensures !HasResponsiblePerson(a.responsible)
    ensures ActionButtons(a, user).join
    ensures Server.Joined(a, user.id).responsible == a.responsible
  {
  }

  /* ----- The upcoming / held partition of renderActivities ----- */

  /** The status filter of each list: planned for the upcoming list, held or skipped for the other */
  predicate Listed(a: Activity, upcoming: bool) {
    if upcoming then a.status == Planned else a.status == Held || a.status == Skipped
  }

  /** `filter` on the activity list */
  function Only(activities: seq<Activity>, upcoming: bool): (r: seq<Activity>)
    ensures forall a :: a in r <==> a in activities && Listed(a, upcoming)
    ensures |r| <= |activities|
  {
    if activities == [] then []
    else (if Listed(activities[0], upcoming) then [activities[0]] else []) + Only(activities[1..], upcoming)
  }

  /** The filter keeps each listed activity as often as it occurs and drops the others */
  lemma {:induction false} OnlyCounts(activities: seq<Activity>, upcoming: bool)
    ensures forall a :: multiset(Only(activities, upcoming))[a] == if Listed(a, upcoming) then multiset(activities)[a] else 0
    decreases |activities|
  {
    if activities != [] {
      assert activities == [activities[0]] + activities[1..];
      OnlyCounts(activities[1..], upcoming);
    }
  }

  /** The order the comparator asks for: by date, earliest first or latest first */
  predicate InOrder(a: Activity, b: Activity, ascending: bool) {
    if ascending then a.date <= b.date else b.date <= a.date
  }

  predicate SortedBy(s: seq<Activity>, ascending: bool) {
    forall i, j :: 0 <= i < j < |s| ==> InOrder(s[i], s[j], ascending)
  }

  /** Places `x` before the first element it may precede; equal dates keep `x` first */
  function Insert(x: Activity, s: seq<Activity>, ascending: bool): (r: seq<Activity>)
    ensures multiset(r) == multiset(s) + multiset{x}
  {
    if s == [] || InOrder(x, s[0], ascending) then [x] + s
    else
      assert s == [s[0]] + s[1..];
      [s[0]] + Insert(x, s[1..], ascending)
  }

  lemma {:induction false} InsertSorted(x: Activity, s: seq<Activity>, ascending: bool)
    requires SortedBy(s, ascending)
    ensures SortedBy(Insert(x, s, ascending), ascending)
  {
    if s != [] && !InOrder(x, s[0], ascending) {
      var rest := Insert(x, s[1..], ascending);
      InsertSorted(x, s[1..], ascending);
      forall j | 0 <= j < |rest|
        ensures InOrder(s[0], rest[j], ascending)
      {
        assert rest[j] in multiset(rest);
        if rest[j] != x {
          assert rest[j] in multiset(s[1..]);
          var k :| 0 <= k < |s[1..]| && s[1..][k] == rest[j];
          assert s[k + 1] == rest[j];
        }
      }
    }
  }

  /** The stable `Array.prototype.sort` with a date comparator */
  function SortByDate(s: seq<Activity>, ascending: bool): (r: seq<Activity>)
    ensures SortedBy(r, ascending)
    ensures multiset(r) == multiset(s)
  {
    if s == [] then []
    else
      assert s == [s[0]] + s[1..];
      InsertSorted(s[0], SortByDate(s[1..], ascending), ascending);
      Insert(s[0], SortByDate(s[1..], ascending), ascending)
  }

  /** The activities a list shows are those of the filtered list, in whatever order */
  lemma SortedMembers(activities: seq<Activity>, upcoming: bool)
    ensures forall a :: a in SortByDate(Only(activities, upcoming), upcoming) <==> a in activities && Listed(a, upcoming)
  {
    var only := Only(activities, upcoming);
    var sorted := SortByDate(only, upcoming);
    forall a
      ensures a in sorted <==> a in only
    {
      assert a in sorted <==> a in multiset(sorted);
      assert a in only <==> a in multiset(only);
    }
  }

  /** The upcoming list: planned activities, earliest first */
  function Upcoming(activities: seq<Activity>): (r: seq<Activity>)
    ensures SortedBy(r, true)
    ensures multiset(r) == multiset(Only(activities, true))
    ensures forall a :: a in r <==> a in activities && a.status == Planned
    ensures forall a :: multiset(r)[a] == if a.status == Planned then multiset(activities)[a] else 0
  {
    SortedMembers(activities, true);
    OnlyCounts(activities, true);
    SortByDate(Only(activities, true), true)
  }

  /** The held list: held or skipped activities, latest first, at most five, none more often than it occurs */
  function Recent(activities: seq<Activity>): (r: seq<Activity>)
    ensures |r| <= RecentCount && SortedBy(r, false)
    ensures forall a :: a in r ==> a in activities && (a.status == Held || a.status == Skipped)
    ensures |r| == if |Only(activities, false)| < RecentCount then |Only(activities, false)| else RecentCount
    ensures multiset(r) <= multiset(Only(activities, false))
  {
    var all := SortByDate(Only(activities, false), false);
    var n := if |all| < RecentCount then |all| else RecentCount;
    SortedMembers(activities, false);
    assert |all| == |Only(activities, false)| by {
      assert |multiset(all)| == |multiset(Only(activities, false))|;
    }
    assert forall a :: a in all[..n] ==> a in all;
    PrefixIncluded(all, n);
    all[..n]
  }

  lemma PrefixIncluded(s: seq<Activity>, n: nat)
    requires n <= |s|
    ensures multiset(s[..n]) <= multiset(s)
  {
    assert s == s[..n] + s[n..];
  }

  /** No held or skipped activity left off the held list is later than one shown on it */
  lemma RecentAreLatest(activities: seq<Activity>, a: Activity, b: Activity)
    requires a in activities && (a.status == Held || a.status == Skipped) && a !in Recent(activities)
    requires b in Recent(activities)
    ensures a.date <= b.date
  {
    var all := SortByDate(Only(activities, false), false);
    var r := Recent(activities);
    SortedMembers(activities, false);
    assert r == all[..|r|];
    var j :| 0 <= j < |all| && all[j] == a;
    var i :| 0 <= i < |r| && r[i] == b;
    assert j >= |r|;
    assert all[i] == b;
  }

  /* ----- The action buttons of renderActivityCard ----- */

  /** Which buttons a card shows: Leave, Make me responsible, Held/Skipped, Mark as Planned, Delete */
  datatype Buttons = Buttons(leave: bool, join: bool, settle: bool, replan: bool, delete: bool)

  function ActionButtons(a: Activity, currentUser: User): (b: Buttons)
    ensures b.leave <==> a.responsible == Some(currentUser.id) && a.status == Planned
    ensures b.join <==> a.status == Planned && !HasResponsiblePerson(a.responsible) && a.responsible != Some(currentUser.id)
    ensures b.settle <==> a.status == Planned && (currentUser.name == AdminName || a.responsible == Some(currentUser.id))
    ensures b.replan <==> a.status != Planned && (currentUser.name == AdminName || a.responsible == Some(currentUser.id))
    ensures b.delete <==> currentUser.name == AdminName
  {
    var isResponsible := a.responsible == Some(currentUser.id);
    var isAdmin := currentUser.name == AdminName;
    var leave := isResponsible && a.status == Planned;
    Buttons(
      leave,
      !leave && !HasResponsiblePerson(a.responsible) && a.status == Planned,
      (isAdmin || isResponsible) && a.status == Planned,
      (isAdmin || isResponsible) && (a.status == Held || a.status == Skipped),
      isAdmin)
  }

  /**
    What the server does with the buttons shown: settling succeeds, leaving hands the
    responsibility on, joining an activity with no responsible value makes the user
    responsible, and a settled activity has no server route back to planned.
   */
  lemma ButtonsMatchServer(a: Activity, currentUser: User)
    ensures ActionButtons(a, currentUser).settle ==>
      Server.Settled(a, Held).Some? && Server.Settled(a, Skipped).Some?
    ensures ActionButtons(a, currentUser).leave ==>
      Server.Left(a, currentUser.id).responsible != Some(currentUser.id)
    ensures ActionButtons(a, currentUser).join && !Truthy(a.responsible) ==>
      Server.Joined(a, currentUser.id).responsible == Some(currentUser.id)
    ensures ActionButtons(a, currentUser).replan ==>
      Server.Settled(a, Held).None? && Server.Settled(a, Skipped).None?
  {
  }
}
