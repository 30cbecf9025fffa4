/**
  The user administration page: the email validator and the part of `saveEmail` that
  decides what is sent to the server and how the page's own user list is updated.
 */
module Users {
  import opened Wrappers
  import opened JsText
  import opened Model

  /* ----- isValidEmail ----- */

  /** The character class `[^\s@]` */
  predicate Plain(c: char) {
    !IsSpace(c) && c != '@'
  }

  /** Every character of `s` from `i` up to `j` is in `[^\s@]` */
  ghost predicate PlainBetween(s: string, i: int, j: int) {
    forall k :: i <= k < j && 0 <= k < |s| ==> Plain(s[k])
  }

  /**
    The language of `/^[^\s@]+@[^\s@]+\.[^\s@]+$/`: the whole string splits into a
    non-empty run of `[^\s@]`, '@', a non-empty run, '.', and a non-empty run.
   */
  ghost predicate EmailPattern(s: string) {
    exists at, dot ::
      && 0 < at && at + 1 < dot && dot + 1 < |s|
      && s[at] == '@' && s[dot] == '.'
      && PlainBetween(s, 0, at) && PlainBetween(s, at + 1, dot) && PlainBetween(s, dot + 1, |s|)
  }

  predicate IsAt(c: char) {
    c == '@'
  }

  predicate NoSpace(s: string) {
    forall k :: 0 <= k < |s| ==> !IsSpace(s[k])
  }

  predicate NoAtAfter(s: string, at: nat) {
    forall k :: at < k < |s| ==> s[k] != '@'
  }

  predicate DotAfter(s: string, at: nat) {
    exists dot :: at + 1 < dot < |s| - 1 && s[dot] == '.'
  }

  /** The scan `isValidEmail` amounts to: no white space, a first '@' that is not first and is the only one, a '.' after it */
  predicate Scan(email: string) {
    && NoSpace(email)
    && match FirstIndex(email, IsAt)
      case None => false
      case Some(at) => 0 < at && NoAtAfter(email, at) && DotAfter(email, at)
  }

  /** `isValidEmail` */
  function IsValidEmail(email: string): (b: bool)
    ensures b <==> EmailPattern(email)
  {
    PatternToScan(email);
    ScanToPattern(email);
    Scan(email)
  }

  lemma PatternToScan(email: string)
    ensures EmailPattern(email) ==> Scan(email)
  {
    if EmailPattern(email) {
      PatternWitness(email);
    }
  }

  lemma PatternWitness(email: string)
    requires EmailPattern(email)
    ensures Scan(email)
  {
    var at, dot :| 0 < at && at + 1 < dot && dot + 1 < |email| && email[at] == '@' && email[dot] == '.'
      && PlainBetween(email, 0, at) && PlainBetween(email, at + 1, dot) && PlainBetween(email, dot + 1, |email|);
    forall k | 0 <= k < |email| && k != at && k != dot
      ensures Plain(email[k])
    {
      if k < at {
      } else if k < dot {
        assert at + 1 <= k;
      } else {
        assert dot + 1 <= k;
      }
    }
    assert NoSpace(email);
    assert forall k :: 0 <= k < at ==> !IsAt(email[k]);
    assert FirstIndex(email, IsAt) == Some(at);
    assert NoAtAfter(email, at);
    assert DotAfter(email, at);
  }

  lemma ScanToPattern(email: string)
    ensures Scan(email) ==> EmailPattern(email)
  {
    if !Scan(email) {
      return;
    }
    var at := FirstIndex(email, IsAt).value;
    var dot :| at + 1 < dot < |email| - 1 && email[dot] == '.';
    assert PlainBetween(email, 0, at);
    assert PlainBetween(email, at + 1, dot);
    assert PlainBetween(email, dot + 1, |email|);
  }

  /** An accepted address has exactly one '@' and no white space */
  lemma ValidEmailShape(email: string)
    requires IsValidEmail(email)
    ensures exists at :: 0 < at < |email| && email[at] == '@' && forall k :: 0 <= k < |email| && k != at ==> email[k] != '@'
    ensures forall k :: 0 <= k < |email| ==> !IsSpace(email[k])
  {
    var at := FirstIndex(email, IsAt).value;
    assert email[at] == '@';
  }

  /* ----- saveEmail ----- */

  /** What `saveEmail` does with the text typed in: nothing (an alert), or a request with this email */
  datatype Submission = Rejected | Request(email: Option<string>)

  /** Trim, validate a non-empty value, and send an empty one as `null` */
  function Submit(input: string): (r: Submission)
    ensures r.Rejected? <==> Trim(input) != "" && !IsValidEmail(Trim(input))
    ensures r == Request(None) <==> forall k :: 0 <= k < |input| ==> IsSpace(input[k])
    ensures r.Request? && r.email.Some? ==>
      && r.email.value == Trim(input) && IsValidEmail(r.email.value)
      && !IsSpace(r.email.value[0]) && !IsSpace(r.email.value[|r.email.value| - 1])
  {
    var newEmail := Trim(input);
    if newEmail != "" && !IsValidEmail(newEmail) then Rejected
    else Request(if newEmail != "" then Some(newEmail) else None)
  }

  /** Submitting what a previous submission sent gives the same submission */
  lemma SubmitStable(input: string)
    requires Submit(input).Request?
    ensures Submit(Submit(input).email.GetOr("")) == Submit(input)
  {
    TrimIdempotent(input);
  }

  /** `users[users.findIndex(u => u.id === userId)] = updatedUser`, when there is such an entry */
  method ReplaceUser(users: array<User>, userId: string, updated: User)
    modifies users
    ensures match FirstIndex(old(users[..]), (u: User) => u.id == userId)
      case None => users[..] == old(users[..])
      case Some(i) => users[..] == old(users[..])[i := updated]
  {
    var userIndex := FirstIndex(users[..], (u: User) => u.id == userId);
    if userIndex.Some? {
      users[userIndex.value] := updated;
    }
  }

  /**
    `saveEmail`: nothing is sent for a rejected value; otherwise the request is made and,
    when the server answers with an updated user, the page's list entry is replaced.
   */
  method SaveEmail(users: array<User>, userId: string, input: string, answer: Option<User>) returns (sent: Submission)
    modifies users
    ensures sent == Submit(input)
    ensures sent.Rejected? || answer.None? ==> users[..] == old(users[..])
    ensures sent.Request? && answer.Some? ==>
      match FirstIndex(old(users[..]), (u: User) => u.id == userId)
      case None => users[..] == old(users[..])
      case Some(i) => users[..] == old(users[..])[i := answer.value]
  {
    var newEmail := Trim(input);
    if newEmail != "" && !IsValidEmail(newEmail) {
      return Rejected;
    }
    sent := Request(if newEmail != "" then Some(newEmail) else None);
    if answer.Some? {
      ReplaceUser(users, userId, answer.value);
    }
  }
}
