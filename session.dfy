/**
  The browser's login session: one `localStorage` entry holding the signed-in user and
  two instants, a 30-minute lifetime, and a sliding extension once a session is past
  the halfway point of its start. Every read or write happens at an instant `now`
  (ms) that the caller supplies.
 */
module Session {
  import opened Wrappers
  import opened Model

  /** `SESSION_DURATION`: 30 minutes in ms, and the halfway point used for extension */
  const Duration := 30 * 60 * 1000
  const Half := Duration / 2

  /** The JSON object kept under the session key */
  datatype Session = Session(user: User, timestamp: int, expiresAt: int)

  /**
    The storage slot of the session key: nothing (or an empty string), a stored session,
    or something whose reading throws (text `JSON.parse` rejects, or a value without a user).
   */
  datatype Slot = Empty | Stored(session: Session) | Unreadable

  /** What one `getSession` call leaves in the slot, and what it returns */
  datatype Read = Read(slot: Slot, user: Option<User>)

  /** The session `saveSession(user)` stores at `now` */
  function Saved(user: User, now: int): (s: Session)
    ensures s.user == user && s.timestamp == now && s.expiresAt == now + 1800000
  {
    Session(user, now, now + Duration)
  }

  /** `getSession` at `now`: expiry, sliding extension, and clearing of what cannot be read */
  function Lookup(slot: Slot, now: int): (r: Read)
    ensures r.user.Some? <==> slot.Stored? && now <= slot.session.expiresAt
    ensures r.user.None? ==> r.slot == Empty
    ensures r.user.Some? ==>
      && r.user.value == slot.session.user && r.slot.Stored?
      && r.slot.session == slot.session.(expiresAt := r.slot.session.expiresAt)
    ensures r.user.Some? && now > slot.session.timestamp + 900000 ==> r.slot.session.expiresAt == now + 1800000
    ensures r.user.Some? && now <= slot.session.timestamp + 900000 ==> r.slot == slot
  {
    match slot
    case Empty => Read(Empty, None)
    case Unreadable => Read(Empty, None)
    case Stored(session) =>
      if now > session.expiresAt then Read(Empty, None)
      else if now > session.timestamp + Half then Read(Stored(session.(expiresAt := now + Duration)), Some(session.user))
      else Read(slot, Some(session.user))
  }

  /**
    What the slot holds after `getSession` is called at each instant of `visits` in turn,
    and what those calls return.
   */
  function Replay(slot: Slot, visits: seq<int>): Slot
    decreases |visits|
  {
    if visits == [] then slot else Replay(Lookup(slot, visits[0]).slot, visits[1..])
  }

  function Answers(slot: Slot, visits: seq<int>): (r: seq<Option<User>>)
    ensures |r| == |visits|
    decreases |visits|
  {
    if visits == [] then [] else [Lookup(slot, visits[0]).user] + Answers(Lookup(slot, visits[0]).slot, visits[1..])
  }

  /**
    A stored session that lasts at least the whole duration from its start, and at
    least half of it from the last time it was saved or read at `last`.
   */
  ghost predicate Alive(slot: Slot, last: int) {
    && slot.Stored?
    && slot.session.timestamp + Duration <= slot.session.expiresAt
    && last + Half <= slot.session.expiresAt
  }

  /** A session is alive right after it is saved */
  lemma SavedIsAlive(user: User, now: int)
    ensures Alive(Stored(Saved(user, now)), now)
  {
  }

  /** One read within half the duration of the last keeps the session alive and returns its user */
  lemma ReadKeepsAlive(slot: Slot, last: int, now: int)
    requires Alive(slot, last) && last <= now <= last + Half
    ensures Lookup(slot, now).user == Some(slot.session.user)
    ensures Alive(Lookup(slot, now).slot, now) && Lookup(slot, now).slot.session.user == slot.session.user
  {
  }

  /**
    A user who comes back at least every fifteen minutes is never logged out: every
    read returns the stored user, and the session is still alive after the last one.
   */
  lemma {:induction false} ActiveUserStaysLoggedIn(slot: Slot, last: int, visits: seq<int>)
    requires Alive(slot, last)
    requires visits != [] ==> last <= visits[0] <= last + Half
    requires forall i :: 0 < i < |visits| ==> visits[i - 1] <= visits[i] <= visits[i - 1] + Half
    ensures forall i :: 0 <= i < |visits| ==> Answers(slot, visits)[i] == Some(slot.session.user)
    ensures Replay(slot, visits).Stored? && Replay(slot, visits).session.user == slot.session.user
    decreases |visits|
  {
    if visits != [] {
      var next := Lookup(slot, visits[0]).slot;
      ReadKeepsAlive(slot, last, visits[0]);
      assert forall i :: 0 < i < |visits[1..]| ==> visits[1..][i - 1] <= visits[1..][i] <= visits[1..][i - 1] + Half by {
        forall i | 0 < i < |visits[1..]|
          ensures visits[1..][i - 1] <= visits[1..][i] <= visits[1..][i - 1] + Half
        {
          assert visits[1..][i - 1] == visits[i] && visits[1..][i] == visits[i + 1];
        }
      }
      ActiveUserStaysLoggedIn(next, visits[0], visits[1..]);
      forall i | 0 <= i < |visits|
        ensures Answers(slot, visits)[i] == Some(slot.session.user)
      {
        if i > 0 {
          assert Answers(slot, visits)[i] == Answers(next, visits[1..])[i - 1];
        }
      }
    }
  }

  /**
    A stored session that runs out at most one duration after the last read or save at
    `last`; this holds of every session the functions here store, while time moves on.
   */
  ghost predicate Bounded(slot: Slot, last: int) {
    slot.Stored? ==> slot.session.expiresAt <= last + Duration
  }

  /** With the clock moving forward, a read never brings the expiry closer, and the bound is kept */
  lemma ExtensionNeverShortens(slot: Slot, last: int, now: int)
    requires Bounded(slot, last) && last <= now
    ensures Bounded(Lookup(slot, now).slot, now)
    ensures Lookup(slot, now).slot.Stored? ==> slot.session.expiresAt <= Lookup(slot, now).slot.session.expiresAt
  {
  }

  /** Once a read finds no session, none comes back without a new save */
  lemma LoggedOutStaysOut(slot: Slot, now: int, visits: seq<int>)
    requires Lookup(slot, now).user.None?
    ensures Replay(Lookup(slot, now).slot, visits) == Empty
    ensures forall i :: 0 <= i < |visits| ==> Answers(Lookup(slot, now).slot, visits)[i].None?
  {
    EmptyStaysEmpty(visits);
  }

  lemma {:induction false} EmptyStaysEmpty(visits: seq<int>)
    ensures Replay(Empty, visits) == Empty
    ensures forall i :: 0 <= i < |visits| ==> Answers(Empty, visits)[i].None?
    decreases |visits|
  {
    if visits != [] {
      EmptyStaysEmpty(visits[1..]);
      forall i | 0 < i < |visits|
        ensures Answers(Empty, visits)[i].None?
      {
        assert Answers(Empty, visits)[i] == Answers(Empty, visits[1..])[i - 1];
      }
    }
  }

  /** The browser's `localStorage`, reduced to the one entry under the session key */
  class SessionStorage {
    var slot: Slot

    constructor ()
      ensures slot == Empty
    {
      slot := Empty;
    }

    /** `saveSession` */
    method Save(user: User, now: int)
      modifies this
      ensures slot == Stored(Saved(user, now))
    {
      slot := Stored(Session(user, now, now + Duration));
    }

    /** `getSession` */
    method Get(now: int) returns (user: Option<User>)
      modifies this
      ensures Read(slot, user) == Lookup(old(slot), now)
    {
      match slot
      case Empty =>
        return None;
      case Unreadable =>
        Clear();
        return None;
      case Stored(session) =>
        if now > session.expiresAt {
          Clear();
          return None;
        }
        var halfwayPoint := session.timestamp + Duration / 2;
        if now > halfwayPoint {
          slot := Stored(session.(expiresAt := now + Duration));
        }
        return Some(session.user);
    }

    /** `clearSession` */
    method Clear()
      modifies this
      ensures slot == Empty
    {
      slot := Empty;
    }

    /** `isSessionValid`: a read, with its effects, that only reports whether a user came back */
    method IsValid(now: int) returns (valid: bool)
      modifies this
      ensures valid <==> Lookup(old(slot), now).user.Some?
      ensures slot == Lookup(old(slot), now).slot
    {
      var user := Get(now);
      valid := user.Some?;
    }
  }
}
