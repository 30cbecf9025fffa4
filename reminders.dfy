/**
  The reminder sweep of `lib/reminders.js`.

  One sweep reads the document once, takes one `now`, and for every planned activity
  computes the whole number of days until the activity. When that number is exactly
  60, 30 or 14 and the matching lead time has not been sent yet, it resolves the
  recipients, renders the message, hands it to the SMTP transport and, only on
  success, records `{sent, sentAt, recipients}` under that lead time. The document is
  written back once at the end of a sweep over a non-empty activity list.

  The transport and the Luxon date formatter are outside the model: they are the
  functions `transport` and `formatDate` of an `Env`.
 */
module Reminders {
  import opened Wrappers
  import opened JsText
  import opened Model

  const MsPerDay: int := 86400000

  /* ----- Lead times ----- */

  /** `Math.floor` of the day difference between the activity's instant and `now` */
  function DaysUntil(date: int, now: int): (d: int)
    ensures d * MsPerDay <= date - now < d * MsPerDay + MsPerDay
  {
    (date - now) / MsPerDay
  }

  /** The `reminderIntervals` table, in days: a different number for each lead time */
  function Threshold(l: LeadTime): (days: int)
    ensures l == TwoMonths <==> days == 60
    ensures l == OneMonth <==> days == 30
    ensures l == TwoWeeks <==> days == 14
  {
    match l
    case TwoMonths => 60
    case OneMonth => 30
    case TwoWeeks => 14
  }

  /**
    The order in which `Object.entries(reminderIntervals)` visits the lead times: each
    lead time once, the longest first.
   */
  function Schedule(): (s: seq<LeadTime>)
    ensures |s| == 3 && forall l :: l in s
    ensures forall i, j :: 0 <= i < j < |s| ==> Threshold(s[i]) > Threshold(s[j])
  {
    var s := [TwoMonths, OneMonth, TwoWeeks];
    assert forall l :: l in s by {
      forall l: LeadTime
        ensures l in s
      {
        if l == TwoMonths {
          assert s[0] == l;
        } else if l == OneMonth {
          assert s[1] == l;
        } else {
          assert s[2] == l;
        }
      }
    }
    s
  }

  function LeadIndex(l: LeadTime): (k: nat)
    ensures k < |Schedule()| && Schedule()[k] == l
  {
    match l
    case TwoMonths => 0
    case OneMonth => 1
    case TwoWeeks => 2
  }

  /** The one lead time, if any, whose threshold equals `days` */
  function FiringLead(days: int): (r: Option<LeadTime>)
    ensures forall l :: Threshold(l) == days <==> r == Some(l)
  {
    if days == 60 then Some(TwoMonths)
    else if days == 30 then Some(OneMonth)
    else if days == 14 then Some(TwoWeeks)
    else None
  }

  /** A lead time fires on exactly one day: while the activity is between T and T + 1 days away */
  lemma FiresWithinOneDay(l: LeadTime, date: int, now: int)
    ensures FiringLead(DaysUntil(date, now)) == Some(l)
        <==> Threshold(l) * MsPerDay <= date - now < Threshold(l) * MsPerDay + MsPerDay
  {
    var d := DaysUntil(date, now);
    if Threshold(l) * MsPerDay <= date - now < Threshold(l) * MsPerDay + MsPerDay {
      assert d == Threshold(l);
    }
  }

  /* ----- Recipients (getEmailsForActivity) ----- */

  /** The email of the first user with id `id`, when that user exists and has a non-empty email */
  function EmailOf(users: seq<User>, id: string): (r: Option<string>)
    ensures r.Some? ==> r.value != "" && exists u :: u in users && u.id == id && u.email == r
    ensures r.Some? <==> UserById(users, id).Some? && Truthy(UserById(users, id).value.email)
    ensures r.Some? ==> r == UserById(users, id).value.email
  {
    match UserById(users, id)
    case None => None
    case Some(u) => if Truthy(u.email) then u.email else None
  }

  /** The responsible person's email, as a list of zero or one address */
  function ResponsibleEmails(a: Activity, users: seq<User>): seq<string> {
    if Truthy(a.responsible) then
      match EmailOf(users, a.responsible.value)
      case Some(e) => [e]
      case None => []
    else []
  }

  /** Appends the emails of the participants `ids`, in order, skipping addresses already present */
  function AddParticipantEmails(emails: seq<string>, ids: seq<string>, users: seq<User>): seq<string>
    decreases |ids|
  {
    if ids == [] then emails
    else
      var next :=
        match EmailOf(users, ids[0])
        case Some(e) => if e in emails then emails else emails + [e]
        case None => emails;
      AddParticipantEmails(next, ids[1..], users)
  }

  /** The recipient list of an activity: the responsible person first, then the participants */
  function Recipients(a: Activity, users: seq<User>): (r: seq<string>)
    ensures NoDuplicates(r)
    ensures forall e :: e in r ==> e != ""
  {
    AddParticipantEmailsProperties(ResponsibleEmails(a, users), a.participants, users);
    AddParticipantEmails(ResponsibleEmails(a, users), a.participants, users)
  }

  /** The email of some participant */
  ghost predicate ParticipantEmail(ids: seq<string>, users: seq<User>, e: string) {
    exists j :: 0 <= j < |ids| && EmailOf(users, ids[j]) == Some(e)
  }

  lemma {:induction false} AddParticipantEmailsProperties(emails: seq<string>, ids: seq<string>, users: seq<User>)
    ensures var r := AddParticipantEmails(emails, ids, users);
      && emails <= r
      && (NoDuplicates(emails) ==> NoDuplicates(r))
      && (forall e :: e in r <==> e in emails || ParticipantEmail(ids, users, e))
    decreases |ids|
  {
    if ids != [] {
      var next :=
        match EmailOf(users, ids[0])
        case Some(e) => if e in emails then emails else emails + [e]
        case None => emails;
      AddParticipantEmailsProperties(next, ids[1..], users);
      var r := AddParticipantEmails(emails, ids, users);
      forall e | e in r
        ensures e in emails || ParticipantEmail(ids, users, e)
      {
        if e !in emails && e in next {
          assert EmailOf(users, ids[0]) == Some(e);
        } else if e !in next {
          var j :| 0 <= j < |ids[1..]| && EmailOf(users, ids[1..][j]) == Some(e);
          assert ids[1..][j] == ids[j + 1];
        }
      }
      forall e | ParticipantEmail(ids, users, e)
        ensures e in r
      {
        var j :| 0 <= j < |ids| && EmailOf(users, ids[j]) == Some(e);
        if j == 0 {
          assert e in next;
        } else {
          assert ids[1..][j - 1] == ids[j];
        }
      }
    }
  }

  /**
    The recipient list has no duplicate address, contains exactly the emails of the
    responsible person and of the participants, and starts with the responsible
    person's email when there is one.
   */
  lemma RecipientsProperties(a: Activity, users: seq<User>)
    ensures NoDuplicates(Recipients(a, users))
    ensures forall e :: e in Recipients(a, users) <==>
      (Truthy(a.responsible) && EmailOf(users, a.responsible.value) == Some(e))
      || ParticipantEmail(a.participants, users, e)
    ensures Truthy(a.responsible) && EmailOf(users, a.responsible.value).Some? ==>
      |Recipients(a, users)| > 0 && Recipients(a, users)[0] == EmailOf(users, a.responsible.value).value
    ensures forall e :: e in Recipients(a, users) ==> e != ""
  {
    AddParticipantEmailsProperties(ResponsibleEmails(a, users), a.participants, users);
  }

  /** Bookkeeping never influences who is mailed */
  lemma RecipientsIgnoreNotifications(a: Activity, users: seq<User>, n: Option<map<LeadTime, Notice>>)
    ensures Recipients(a.(notifications := n), users) == Recipients(a, users)
  {
  }

  /** Every participant's address in participant order, repetitions kept */
  function ParticipantEmails(ids: seq<string>, users: seq<User>): seq<string>
    decreases |ids|
  {
    if ids == [] then []
    else
      (match EmailOf(users, ids[0])
       case Some(e) => [e]
       case None => [])
      + ParticipantEmails(ids[1..], users)
  }

  /** `indexOf`: the first position of `x` in `s`, or `|s|` when it does not occur */
  function Position(s: seq<string>, x: string): (k: nat)
    ensures k <= |s| && (k < |s| <==> x in s)
    ensures k < |s| ==> s[k] == x
    ensures forall j :: 0 <= j < k ==> s[j] != x
    decreases |s|
  {
    if s == [] then 0
    else if s[0] == x then 0
    else
      var k := 1 + Position(s[1..], x);
      assert forall j :: 1 <= j < k ==> s[j] == s[1..][j - 1];
      k
  }

  lemma {:induction false} PositionAppend(s: seq<string>, t: seq<string>, x: string)
    ensures Position(s + t, x) == if x in s then Position(s, x) else |s| + Position(t, x)
    decreases |s|
  {
    if s == [] {
      assert s + t == t;
    } else if s[0] != x {
      assert (s + t)[1..] == s[1..] + t;
      PositionAppend(s[1..], t, x);
    }
  }

  /** `r` holds exactly the elements of `c`, in the order in which they first occur in `c` */
  ghost predicate InFirstOccurrenceOrder(r: seq<string>, c: seq<string>) {
    && (forall e :: e in r <==> e in c)
    && (forall i, j :: 0 <= i < j < |r| ==> Position(c, r[i]) < Position(c, r[j]))
  }

  /**
    Appending the participants keeps the order of first occurrence: the result lists
    the addresses of `emails` followed by the participants' addresses, each where it
    first shows up.
   */
  lemma {:induction false} AddParticipantEmailsOrder(emails: seq<string>, ids: seq<string>, users: seq<User>)
    requires NoDuplicates(emails)
    ensures InFirstOccurrenceOrder(AddParticipantEmails(emails, ids, users), emails + ParticipantEmails(ids, users))
    decreases |ids|
  {
    if ids == [] {
      assert emails + ParticipantEmails(ids, users) == emails;
      forall i, j | 0 <= i < j < |emails|
        ensures Position(emails, emails[i]) < Position(emails, emails[j])
      {
        assert Position(emails, emails[i]) == i;
        assert Position(emails, emails[j]) == j;
      }
    } else {
      var rest := ParticipantEmails(ids[1..], users);
      var c := emails + ParticipantEmails(ids, users);
      var r := AddParticipantEmails(emails, ids, users);
      match EmailOf(users, ids[0])
      case None =>
        assert c == emails + rest;
        assert r == AddParticipantEmails(emails, ids[1..], users);
        AddParticipantEmailsOrder(emails, ids[1..], users);
      case Some(e0) =>
        assert c == emails + ([e0] + rest);
        if e0 in emails {
          assert r == AddParticipantEmails(emails, ids[1..], users);
          AddParticipantEmailsOrder(emails, ids[1..], users);
          RepeatKeepsOrder(emails, e0, rest, r);
        } else {
          var next := emails + [e0];
          assert c == next + rest;
          assert r == AddParticipantEmails(next, ids[1..], users);
          AddParticipantEmailsOrder(next, ids[1..], users);
        }
    }
  }

  /** An address already listed changes no first occurrence but shifts the later ones by one */
  lemma RepeatKeepsOrder(emails: seq<string>, e0: string, rest: seq<string>, r: seq<string>)
    requires e0 in emails
    requires InFirstOccurrenceOrder(r, emails + rest)
    ensures InFirstOccurrenceOrder(r, emails + ([e0] + rest))
  {
    var c := emails + ([e0] + rest);
    var c' := emails + rest;
    forall x
      ensures x in emails ==> Position(c, x) == Position(c', x) < |emails|
      ensures x !in emails ==> Position(c, x) == Position(c', x) + 1 && Position(c', x) >= |emails|
      ensures x in c <==> x in c'
    {
      PositionAppend(emails, [e0] + rest, x);
      PositionAppend(emails, rest, x);
      PositionAppend([e0], rest, x);
    }
    forall i, j | 0 <= i < j < |r|
      ensures Position(c, r[i]) < Position(c, r[j])
    {
      assert Position(c', r[i]) < Position(c', r[j]);
    }
  }

  /**
    The recipients come in the order in which their addresses first appear in the
    responsible person's address followed by the participants' addresses; with
    `NoDuplicates` this fixes the list completely.
   */
  lemma RecipientsOrder(a: Activity, users: seq<User>)
    ensures InFirstOccurrenceOrder(Recipients(a, users), ResponsibleEmails(a, users) + ParticipantEmails(a.participants, users))
  {
    AddParticipantEmailsOrder(ResponsibleEmails(a, users), a.participants, users);
  }

  /** `getEmailsForActivity`, which pushes addresses inside a `forEach` */
  method GetEmailsForActivity(a: Activity, users: seq<User>) returns (emails: seq<string>)
    ensures emails == Recipients(a, users)
  {
    emails := [];
    if Truthy(a.responsible) {
      var responsibleUser := UserById(users, a.responsible.value);
      if responsibleUser.Some? && Truthy(responsibleUser.value.email) {
        emails := emails + [responsibleUser.value.email.value];
      }
    }
    assert emails == ResponsibleEmails(a, users);
    assert a.participants[0..] == a.participants;
    var i := 0;
    while i < |a.participants|
      invariant 0 <= i <= |a.participants|
      invariant AddParticipantEmails(emails, a.participants[i..], users) == Recipients(a, users)
    {
      assert a.participants[i..][1..] == a.participants[i + 1..];
      var participant := UserById(users, a.participants[i]);
      if participant.Some? && Truthy(participant.value.email) && participant.value.email.value !in emails {
        emails := emails + [participant.value.email.value];
      }
      i := i + 1;
    }
  }

  /* ----- Message content (createEmailContent) ----- */

  /**
    What `createEmailContent` fills its templates with: the activity's title, its
    formatted date, its notes, whether someone is responsible, and the lead time.
   */
  datatype Draft = Draft(title: string, date: string, notes: string, hasResponsible: bool, lead: LeadTime)

  /** The `{subject, text, html}` object `createEmailContent` returns */
  datatype Content = Content(subject: string, text: string, html: string)

  /** `timeframes[type].label`: a different label for each lead time */
  function Label(l: LeadTime): (r: string)
    ensures l == TwoMonths <==> r == "2 months"
    ensures l == OneMonth <==> r == "1 month"
    ensures l == TwoWeeks <==> r == "2 weeks"
  {
    match l
    case TwoMonths => "2 months"
    case OneMonth => "1 month"
    case TwoWeeks => "2 weeks"
  }

  /** `timeframes[type].period`: a different wording for each lead time */
  function Period(l: LeadTime): (r: string)
    ensures l == TwoMonths <==> r == "two months"
    ensures l == OneMonth <==> r == "one month"
    ensures l == TwoWeeks <==> r == "two weeks"
  {
    match l
    case TwoMonths => "two months"
    case OneMonth => "one month"
    case TwoWeeks => "two weeks"
  }

  const SubjectPrefix: string := "⏰ Reminder: \""

  function SubjectSuffix(l: LeadTime): string {
    "\" is in " + Label(l) + "!"
  }

  function Subject(title: string, l: LeadTime): string {
    SubjectPrefix + title + SubjectSuffix(l)
  }

  predicate EndsWith(s: string, suffix: string) {
    |suffix| <= |s| && s[|s| - |suffix|..] == suffix
  }

  /** The lead time a subject line announces, read back from its ending */
  function LeadOfSubject(s: string): Option<LeadTime> {
    if EndsWith(s, SubjectSuffix(TwoMonths)) then Some(TwoMonths)
    else if EndsWith(s, SubjectSuffix(OneMonth)) then Some(OneMonth)
    else if EndsWith(s, SubjectSuffix(TwoWeeks)) then Some(TwoWeeks)
    else None
  }

  /** Reads the title and the lead time back from a subject line */
  function ParseSubject(s: string): Option<(string, LeadTime)> {
    match LeadOfSubject(s)
    case None => None
    case Some(l) =>
      if |SubjectPrefix| + |SubjectSuffix(l)| <= |s| && s[..|SubjectPrefix|] == SubjectPrefix then
        Some((s[|SubjectPrefix|..|s| - |SubjectSuffix(l)|], l))
      else None
  }

  /** The subject names the activity and the lead time unambiguously: both can be read back */
  lemma ParseSubjectRoundTrip(title: string, l: LeadTime)
    ensures ParseSubject(Subject(title, l)) == Some((title, l))
  {
    var s := Subject(title, l);
    var n := |s|;
    assert s[n - |SubjectSuffix(l)|..] == SubjectSuffix(l);
    assert s[..|SubjectPrefix|] == SubjectPrefix;
    assert s[|SubjectPrefix|..n - |SubjectSuffix(l)|] == title;
    assert s[n - 2] == SubjectSuffix(l)[|SubjectSuffix(l)| - 2];
    assert s[n - 3] == SubjectSuffix(l)[|SubjectSuffix(l)| - 3];
    if l != TwoMonths {
      assert s[n - 3] != SubjectSuffix(TwoMonths)[|SubjectSuffix(TwoMonths)| - 3];
    }
    if l == TwoWeeks {
      assert s[n - 2] != SubjectSuffix(OneMonth)[|SubjectSuffix(OneMonth)| - 2];
    }
  }

  /** The fixed text between the `${…}` substitutions of the mail templates */
  datatype Fixed =
    | Greeting | ReminderFor | DateLabel | LineBreak | BlankLine | NotesLabel
    | ResponsibleNote | UnassignedNote | SignOff
    | HtmlHeading | HtmlDateLabel | HtmlParagraphEnd | HtmlNotesLabel | HtmlCardBreak
    | HtmlResponsibleNote | HtmlUnassignedNote | HtmlPeriodLabel | HtmlSignOff
    | DebugOpening | DebugRedirect | DebugClosing
    | HtmlDebugOpening | HtmlDebugRedirect | HtmlDebugClosing

  function Wording(f: Fixed): string {
    match f
    case Greeting => "Hi there!\n\nThis is your "
    case ReminderFor => " reminder for the upcoming activity:\n\n📅 Activity: "
    case DateLabel => "\n📆 Date: "
    case LineBreak => "\n"
    case BlankLine => "\n\n"
    case NotesLabel => "📝 Notes: "
    case ResponsibleNote => "👤 Remember you are responsible for this activity."
    case UnassignedNote =>
      "⚠️  No one is currently responsible for organizing this activity. Please assign someone soon!"
    case SignOff => "\n\nRemember to plan it! 📅\n\nBest regards,\nSwagPlan Activity Reminder System"
    case HtmlHeading => "<div><h2>⏰ Activity Reminder</h2><div><h3>"
    case HtmlDateLabel => "</h3><p><strong>📆 Date:</strong> "
    case HtmlParagraphEnd => "</p>"
    case HtmlNotesLabel => "<p><strong>📝 Notes:</strong> "
    case HtmlCardBreak => "</div><div><p>"
    case HtmlResponsibleNote => "👤 <strong>Remember</strong> you are responsible for this activity."
    case HtmlUnassignedNote =>
      "⚠️ <strong>Heads up!</strong> No one is currently responsible for organizing this activity. Please assign someone soon!"
    case HtmlPeriodLabel => "</p></div><p>This is your <strong>"
    case HtmlSignOff =>
      "</strong> reminder. Remember to plan it! 📅</p><hr><p>Sent by SwagPlan Activity Reminder System</p></div>"
    case DebugOpening => "\n\n--- DEBUG MODE ---\nOriginal recipients would have been: "
    case DebugRedirect => "\nThis email was redirected to: "
    case DebugClosing => "\n--- END DEBUG ---"
    case HtmlDebugOpening => "<div><strong>🐛 DEBUG MODE</strong><br>\n      Original recipients: "
    case HtmlDebugRedirect => "<br>\n      Redirected to: "
    case HtmlDebugClosing => "\n    </div>"
  }

  /** A piece of a template literal: fixed text, or a value substituted into it */
  datatype Piece = Fixed(f: Fixed) | Slot(value: string)

  function PieceText(p: Piece): string {
    match p
    case Fixed(f) => Wording(f)
    case Slot(v) => v
  }

  /** The string a template literal evaluates to */
  function Fill(t: seq<Piece>): string {
    if t == [] then "" else PieceText(t[0]) + Fill(t[1..])
  }

  lemma {:induction false} FillAppend(t: seq<Piece>, u: seq<Piece>)
    ensures Fill(t + u) == Fill(t) + Fill(u)
  {
    if t == [] {
      assert t + u == u;
    } else {
      assert (t + u)[1..] == t[1..] + u;
      FillAppend(t[1..], u);
      assert Fill(t + u) == PieceText(t[0]) + (Fill(t[1..]) + Fill(u));
    }
  }

  /** Every run of consecutive pieces shows up in the filled template */
  lemma FillContainsRun(t: seq<Piece>, i: nat, j: nat)
    requires i <= j <= |t|
    ensures Contains(Fill(t), Fill(t[i..j]))
  {
    assert t == t[..i] + t[i..j] + t[j..];
    FillAppend(t[..i] + t[i..j], t[j..]);
    FillAppend(t[..i], t[i..j]);
    ContainsMiddle(Fill(t[..i]), Fill(t[i..j]), Fill(t[j..]));
  }

  /** Every piece shows up in the filled template */
  lemma FillContains(t: seq<Piece>, p: Piece)
    requires p in t
    ensures Contains(Fill(t), PieceText(p))
  {
    var k :| 0 <= k < |t| && t[k] == p;
    FillContainsRun(t, k, k + 1);
    assert t[k..k + 1] == [p];
    FillSingle(p);
  }

  lemma FillSingle(p: Piece)
    ensures Fill([p]) == PieceText(p)
  {
    assert [p][1..] == [];
  }

  /** `${activity.notes ? `📝 Notes: ${activity.notes}` : ''}` */
  function NotesLine(d: Draft): seq<Piece> {
    if d.notes != "" then [Fixed(NotesLabel), Slot(d.notes)] else []
  }

  function TextTemplate(d: Draft): seq<Piece> {
    [ Fixed(Greeting), Slot(Period(d.lead)), Fixed(ReminderFor), Slot(d.title), Fixed(DateLabel), Slot(d.date),
      Fixed(LineBreak) ]
    + NotesLine(d)
    + [ Fixed(BlankLine), Fixed(if d.hasResponsible then ResponsibleNote else UnassignedNote), Fixed(SignOff) ]
  }

  function HtmlNotes(d: Draft): seq<Piece> {
    if d.notes != "" then [Fixed(HtmlNotesLabel), Slot(d.notes), Fixed(HtmlParagraphEnd)] else []
  }

  function HtmlTemplate(d: Draft): seq<Piece> {
    [ Fixed(HtmlHeading), Slot(d.title), Fixed(HtmlDateLabel), Slot(d.date), Fixed(HtmlParagraphEnd) ]
    + HtmlNotes(d)
    + [ Fixed(HtmlCardBreak), Fixed(if d.hasResponsible then HtmlResponsibleNote else HtmlUnassignedNote),
        Fixed(HtmlPeriodLabel), Slot(Period(d.lead)), Fixed(HtmlSignOff) ]
  }

  /** The plain-text template */
  function TextBody(d: Draft): string {
    Fill(TextTemplate(d))
  }

  /** The HTML template */
  function HtmlBody(d: Draft): string {
    Fill(HtmlTemplate(d))
  }

  /** The three templates of `createEmailContent`, filled in */
  function Render(d: Draft): Content {
    Content(Subject(d.title, d.lead), TextBody(d), HtmlBody(d))
  }

  /** `createEmailContent`'s inputs; `formatDate` stands for Luxon's `toLocaleString(DATE_FULL)` */
  function DraftOf(a: Activity, l: LeadTime, formatDate: int -> string): Draft {
    Draft(a.title, formatDate(a.date), a.notes, Truthy(a.responsible), l)
  }

  /**
    `createEmailContent`: the subject announces the activity and the lead time so that
    both can be read back, and both bodies name the activity, its formatted date and
    the lead time.
   */
  function EmailContent(a: Activity, l: LeadTime, formatDate: int -> string): (c: Content)
    ensures ParseSubject(c.subject) == Some((a.title, l))
    ensures Contains(c.text, a.title) && Contains(c.text, formatDate(a.date)) && Contains(c.text, Period(l))
    ensures Contains(c.html, a.title) && Contains(c.html, formatDate(a.date)) && Contains(c.html, Period(l))
  {
    var d := DraftOf(a, l, formatDate);
    ParseSubjectRoundTrip(a.title, l);
    TextBodyMentions(d);
    HtmlBodyMentions(d);
    Render(d)
  }

  /**
    The plain-text body names the activity, its date and the lead time, and carries the
    "you are responsible" line when someone is responsible, the warning otherwise.
   */
  lemma TextBodyMentions(d: Draft)
    ensures Contains(TextBody(d), d.title)
    ensures Contains(TextBody(d), d.date)
    ensures Contains(TextBody(d), Period(d.lead))
    ensures d.hasResponsible ==> Contains(TextBody(d), Wording(ResponsibleNote))
    ensures !d.hasResponsible ==> Contains(TextBody(d), Wording(UnassignedNote))
  {
    var t := TextTemplate(d);
    FillContains(t, Slot(d.title));
    FillContains(t, Slot(d.date));
    FillContains(t, Slot(Period(d.lead)));
    FillContains(t, Fixed(if d.hasResponsible then ResponsibleNote else UnassignedNote));
  }

  /**
    The branches of the plain-text template: the notes label only with notes, the
    "you are responsible" line only when someone is responsible, the warning only when
    nobody is.
   */
  lemma TextTemplateBranches(d: Draft)
    ensures Fixed(NotesLabel) in TextTemplate(d) <==> d.notes != ""
    ensures Fixed(ResponsibleNote) in TextTemplate(d) <==> d.hasResponsible
    ensures Fixed(UnassignedNote) in TextTemplate(d) <==> !d.hasResponsible
  {
  }

  /** The plain-text body carries the notes line when there are notes */
  lemma TextBodyNotes(d: Draft)
    requires d.notes != ""
    ensures Contains(TextBody(d), Wording(NotesLabel) + d.notes)
  {
    var t := TextTemplate(d);
    var run := [Fixed(NotesLabel), Slot(d.notes)];
    FillContainsRun(t, 7, 9);
    assert t[7..9] == run;
    assert run[1..] == [Slot(d.notes)] && run[1..][1..] == [];
    assert Fill(run[1..]) == d.notes + "" == d.notes;
    assert Fill(run) == Wording(NotesLabel) + Fill(run[1..]);
    assert TextBody(d) == Fill(t);
  }

  /**
    The HTML body names the activity, its date and the lead time, the notes when there are
    some, and the responsibility wording by the same rule as the plain-text body.
   */
  lemma HtmlBodyMentions(d: Draft)
    ensures Contains(HtmlBody(d), d.title)
    ensures Contains(HtmlBody(d), d.date)
    ensures Contains(HtmlBody(d), Period(d.lead))
    ensures d.notes != "" ==> Contains(HtmlBody(d), d.notes)
    ensures d.hasResponsible ==> Contains(HtmlBody(d), Wording(HtmlResponsibleNote))
    ensures !d.hasResponsible ==> Contains(HtmlBody(d), Wording(HtmlUnassignedNote))
  {
    var t := HtmlTemplate(d);
    FillContains(t, Slot(d.title));
    FillContains(t, Slot(d.date));
    FillContains(t, Slot(Period(d.lead)));
    FillContains(t, Fixed(if d.hasResponsible then HtmlResponsibleNote else HtmlUnassignedNote));
    if d.notes != "" {
      FillContains(t, Slot(d.notes));
    }
  }

  /** The same branches in the HTML template */
  lemma HtmlTemplateBranches(d: Draft)
    ensures Fixed(HtmlNotesLabel) in HtmlTemplate(d) <==> d.notes != ""
    ensures Fixed(HtmlResponsibleNote) in HtmlTemplate(d) <==> d.hasResponsible
    ensures Fixed(HtmlUnassignedNote) in HtmlTemplate(d) <==> !d.hasResponsible
  {
  }

  /* ----- Delivery (sendEmail) ----- */

  /** The debug block of a redirected mail: the real recipients and the address used instead */
  datatype DebugNote = DebugNote(recipients: seq<string>, redirectedTo: string)

  /**
    The options handed to `transporter.sendMail`: sender, `to` header, the message's
    content and, in debug mode, the debug block appended to it. `MailSubject`, `MailText`
    and `MailHtml` give the strings the transport receives.
   */
  datatype Mail = Mail(from: string, to: string, draft: Draft, debug: Option<DebugNote>)

  /**
    What a sweep reads from its surroundings: the debug settings (`REMINDER_DEBUG`,
    `DEBUG_EMAIL`), the sender address (`GMAIL_EMAIL`), the date formatter, and the SMTP
    transport, whose verdict is `true` when `sendMail` resolves and `false` when it throws.
   */
  datatype Env = Env(
    debugMode: bool,
    debugEmail: string,
    fromEmail: string,
    formatDate: int -> string,
    transport: Mail -> bool)

  /** `emails.join(', ')`: every address shows up in the joined header */
  function JoinRecipients(emails: seq<string>): (r: string)
    ensures forall e :: e in emails ==> Contains(r, e)
    ensures emails == [] ==> r == ""
  {
    if emails == [] then ""
    else if |emails| == 1 then
      assert OccursAt(emails[0], emails[0], 0);
      emails[0]
    else
      var rest := JoinRecipients(emails[1..]);
      ContainsAfter(emails[0] + ", ", rest);
      assert emails == [emails[0]] + emails[1..];
      assert OccursAt(emails[0] + ", " + rest, emails[0], 0);
      emails[0] + ", " + rest
  }

  predicate IsComma(c: char) {
    c == ','
  }

  /** Splits a `to` header at each comma, dropping the blank that follows it */
  function SplitRecipients(s: string): seq<string>
    decreases |s|
  {
    match FirstIndex(s, IsComma)
    case None => [s]
    case Some(i) => [s[..i]] + (if i + 2 <= |s| then SplitRecipients(s[i + 2..]) else [])
  }

  /** The joined header lists exactly the recipients, in order, when no address holds a comma */
  lemma {:induction false} SplitJoinRoundTrip(emails: seq<string>)
    requires emails != []
    requires forall e :: e in emails ==> ',' !in e
    ensures SplitRecipients(JoinRecipients(emails)) == emails
    decreases |emails|
  {
    var e0 := emails[0];
    var s := JoinRecipients(emails);
    assert e0 in emails;
    if |emails| == 1 {
      assert s == e0;
      assert forall j :: 0 <= j < |s| ==> !IsComma(s[j]);
    } else {
      var rest := JoinRecipients(emails[1..]);
      assert s == e0 + ", " + rest;
      assert s[|e0|] == ',';
      var idx := FirstIndex(s, IsComma);
      assert idx.Some?;
      assert idx.value == |e0|;
      assert s[..|e0|] == e0;
      assert s[|e0| + 2..] == rest;
      SplitJoinRoundTrip(emails[1..]);
    }
  }

  const DebugTag: string := "[DEBUG] "

  /** The block appended to the plain-text body in debug mode */
  function DebugTextTemplate(n: DebugNote): seq<Piece> {
    [ Fixed(DebugOpening), Slot(JoinRecipients(n.recipients)), Fixed(DebugRedirect), Slot(n.redirectedTo),
      Fixed(DebugClosing) ]
  }

  /** The block appended to the HTML body in debug mode */
  function DebugHtmlTemplate(n: DebugNote): seq<Piece> {
    [ Fixed(HtmlDebugOpening), Slot(JoinRecipients(n.recipients)), Fixed(HtmlDebugRedirect), Slot(n.redirectedTo),
      Fixed(HtmlDebugClosing) ]
  }

  /** The `subject` the transport receives */
  function MailSubject(m: Mail): string {
    if m.debug.Some? then DebugTag + Subject(m.draft.title, m.draft.lead) else Subject(m.draft.title, m.draft.lead)
  }

  /** The `text` the transport receives */
  function MailText(m: Mail): string {
    Fill(TextTemplate(m.draft) + (if m.debug.Some? then DebugTextTemplate(m.debug.value) else []))
  }

  /** The `html` the transport receives */
  function MailHtml(m: Mail): string {
    Fill(HtmlTemplate(m.draft) + (if m.debug.Some? then DebugHtmlTemplate(m.debug.value) else []))
  }

  /** `from: "SwagPlan" <GMAIL_EMAIL>` */
  function Sender(env: Env): string {
    "\"SwagPlan\" <" + env.fromEmail + ">"
  }

  /**
    The mail `sendEmail` hands to the transport for `d`: from the SwagPlan sender, to the
    debug address with a debug block in debug mode, to the comma-joined recipients
    otherwise.
   */
  function Envelope(env: Env, emails: seq<string>, d: Draft): (m: Mail)
    requires emails != []
    ensures m.from == Sender(env) && m.draft == d
    ensures m.to == if env.debugMode then env.debugEmail else JoinRecipients(emails)
    ensures m.debug.Some? <==> env.debugMode
  {
    if env.debugMode then Mail(Sender(env), env.debugEmail, d, Some(DebugNote(emails, env.debugEmail)))
    else Mail(Sender(env), JoinRecipients(emails), d, None)
  }

  /** Outside debug mode the message goes out exactly as `createEmailContent` rendered it */
  lemma EnvelopeKeepsContent(env: Env, emails: seq<string>, d: Draft)
    requires !env.debugMode && emails != []
    ensures var m := Envelope(env, emails, d);
      Content(MailSubject(m), MailText(m), MailHtml(m)) == Render(d)
  {
    assert TextTemplate(d) + [] == TextTemplate(d);
    assert HtmlTemplate(d) + [] == HtmlTemplate(d);
  }

  /**
    In debug mode the subject is tagged, the rendered bodies are kept as prefixes, and
    both bodies disclose the recipients the mail would have gone to and the address it
    was redirected to.
   */
  lemma DebugDisclosesRecipients(env: Env, emails: seq<string>, d: Draft)
    requires env.debugMode && emails != []
    ensures var m := Envelope(env, emails, d);
      && MailSubject(m) == DebugTag + Render(d).subject
      && Render(d).text <= MailText(m)
      && Contains(MailText(m), JoinRecipients(emails)) && Contains(MailText(m), env.debugEmail)
  {
    var m := Envelope(env, emails, d);
    var t := TextTemplate(d) + DebugTextTemplate(m.debug.value);
    FillAppend(TextTemplate(d), DebugTextTemplate(m.debug.value));
    FillContains(t, Slot(JoinRecipients(emails)));
    FillContains(t, Slot(env.debugEmail));
  }

  /** The same holds for the HTML body */
  lemma DebugDisclosesRecipientsHtml(env: Env, emails: seq<string>, d: Draft)
    requires env.debugMode && emails != []
    ensures var m := Envelope(env, emails, d);
      && Render(d).html <= MailHtml(m)
      && Contains(MailHtml(m), JoinRecipients(emails)) && Contains(MailHtml(m), env.debugEmail)
  {
    var m := Envelope(env, emails, d);
    var t := HtmlTemplate(d) + DebugHtmlTemplate(m.debug.value);
    FillAppend(HtmlTemplate(d), DebugHtmlTemplate(m.debug.value));
    FillContains(t, Slot(JoinRecipients(emails)));
    FillContains(t, Slot(env.debugEmail));
  }

  /** Outside debug mode the transport is addressed to exactly the recipients, in order */
  lemma AddressedToRecipients(env: Env, emails: seq<string>, d: Draft)
    requires !env.debugMode && emails != []
    requires forall e :: e in emails ==> ',' !in e
    ensures SplitRecipients(Envelope(env, emails, d).to) == emails
  {
    SplitJoinRoundTrip(emails);
  }

  /**
    `sendEmail`: with no recipients it returns false without touching the transport;
    otherwise it hands over one mail and reports the transport's verdict. `outbox` is
    what reached the transport.
   */
  method SendEmail(env: Env, emails: seq<string>, d: Draft) returns (ok: bool, outbox: seq<Mail>)
    ensures emails == [] ==> !ok && outbox == []
    ensures emails != [] ==> outbox == [Envelope(env, emails, d)] && ok == env.transport(outbox[0])
  {
    if |emails| == 0 {
      return false, [];
    }
    var mail := Envelope(env, emails, d);
    ok := env.transport(mail);
    outbox := [mail];
  }

  /* ----- The sweep (sendReminders) ----- */

  /** `notifications[l] && notifications[l].sent` */
  predicate AlreadySent(a: Activity, l: LeadTime) {
    a.notifications.Some? && l in a.notifications.value && a.notifications.value[l].sent
  }

  /** The notification records, an absent object read as empty */
  function Notices(a: Activity): map<LeadTime, Notice> {
    if a.notifications.Some? then a.notifications.value else map[]
  }

  /**
    The lead time for which a sweep at `now` calls the transport for `a`: a planned
    activity, exactly that many days away, not yet sent for it, with someone to mail.
   */
  function Attempt(a: Activity, users: seq<User>, now: int): (r: Option<LeadTime>)
    ensures r.Some? ==>
      && a.status == Planned
      && Threshold(r.value) == DaysUntil(a.date, now)
      && !AlreadySent(a, r.value)
      && Recipients(a, users) != []
    ensures r.None? ==>
      || a.status != Planned
      || Recipients(a, users) == []
      || forall l :: Threshold(l) == DaysUntil(a.date, now) ==> AlreadySent(a, l)
  {
    if a.status != Planned then None
    else
      match FiringLead(DaysUntil(a.date, now))
      case None => None
      case Some(l) => if AlreadySent(a, l) || Recipients(a, users) == [] then None else Some(l)
  }

  /** The reminder mail for lead time `l` */
  function ReminderMail(a: Activity, l: LeadTime, users: seq<User>, env: Env): Mail
    requires Recipients(a, users) != []
  {
    Envelope(env, Recipients(a, users), DraftOf(a, l, env.formatDate))
  }

  /** The sweep's attempt for `a` succeeded */
  predicate Delivered(a: Activity, users: seq<User>, now: int, env: Env) {
    Attempt(a, users, now).Some? && env.transport(ReminderMail(a, Attempt(a, users, now).value, users, env))
  }

  /** The mails a sweep hands to the transport for `a` */
  function MailsFor(a: Activity, users: seq<User>, now: int, env: Env): seq<Mail> {
    if Attempt(a, users, now).Some? then [ReminderMail(a, Attempt(a, users, now).value, users, env)] else []
  }

  /**
    An activity after a sweep. Only its notifications change, and only for a planned
    activity, which always comes out with a notifications object.
   */
  function AfterSweep(a: Activity, users: seq<User>, now: int, env: Env): (b: Activity)
    ensures b.(notifications := a.notifications) == a
    ensures a.status != Planned ==> b == a
    ensures a.status == Planned ==> b.notifications.Some?
  {
    if a.status != Planned then a
    else
      var notices := Notices(a);
      a.(notifications := Some(
        if Delivered(a, users, now, env) then notices[Attempt(a, users, now).value := Notice(true, now, Recipients(a, users))]
        else notices))
  }

  /** A sweep marks a lead time as sent exactly when it delivers that reminder */
  lemma AfterSweepSent(a: Activity, users: seq<User>, now: int, env: Env, l: LeadTime)
    ensures AlreadySent(AfterSweep(a, users, now, env), l) <==>
      AlreadySent(a, l) || (Delivered(a, users, now, env) && Attempt(a, users, now) == Some(l))
  {
  }

  /**
    A delivered reminder is recorded with the sweep's time and its recipients, every
    other record, sent or not, is kept as it was, and no record is invented.
   */
  lemma AfterSweepRecords(a: Activity, users: seq<User>, now: int, env: Env, l: LeadTime)
    ensures Delivered(a, users, now, env) && Attempt(a, users, now) == Some(l) ==>
      l in Notices(AfterSweep(a, users, now, env))
      && Notices(AfterSweep(a, users, now, env))[l] == Notice(true, now, Recipients(a, users))
    ensures l in Notices(a) && !(Delivered(a, users, now, env) && Attempt(a, users, now) == Some(l)) ==>
      l in Notices(AfterSweep(a, users, now, env)) && Notices(AfterSweep(a, users, now, env))[l] == Notices(a)[l]
    ensures l !in Notices(a) && !(Delivered(a, users, now, env) && Attempt(a, users, now) == Some(l)) ==>
      l !in Notices(AfterSweep(a, users, now, env))
  {
  }

  function SweepAll(activities: seq<Activity>, users: seq<User>, now: int, env: Env): seq<Activity> {
    seq(|activities|, i requires 0 <= i < |activities| => AfterSweep(activities[i], users, now, env))
  }

  /** The `processed` counter: planned activities */
  function CountPlanned(activities: seq<Activity>): nat {
    if activities == [] then 0
    else CountPlanned(activities[..|activities| - 1]) + (if activities[|activities| - 1].status == Planned then 1 else 0)
  }

  /** The `sent` counter: delivered reminders */
  function CountDelivered(activities: seq<Activity>, users: seq<User>, now: int, env: Env): nat {
    if activities == [] then 0
    else
      CountDelivered(activities[..|activities| - 1], users, now, env)
      + (if Delivered(activities[|activities| - 1], users, now, env) then 1 else 0)
  }

  /** Every mail a sweep hands to the transport, in order */
  function Outbox(activities: seq<Activity>, users: seq<User>, now: int, env: Env): seq<Mail> {
    if activities == [] then []
    else Outbox(activities[..|activities| - 1], users, now, env) + MailsFor(activities[|activities| - 1], users, now, env)
  }

  /**
    The body of the `forEach` of `sendReminders` for one activity: the loop over the
    lead times, updating `notifications` in place.
   */
  method RemindActivity(a: Activity, users: seq<User>, now: int, env: Env)
    returns (b: Activity, delivered: bool, handed: seq<Mail>)
    requires a.status == Planned
    ensures b == AfterSweep(a, users, now, env)
    ensures delivered == Delivered(a, users, now, env)
    ensures handed == MailsFor(a, users, now, env)
  {
    var daysUntilActivity := DaysUntil(a.date, now);
    b := a;
    if b.notifications.None? {
      b := b.(notifications := Some(map[]));
    }
    ghost var initialized := b;
    ghost var attempt := Attempt(a, users, now);
    RecipientsIgnoreNotifications(a, users, b.notifications);
    delivered, handed := false, [];
    var k := 0;
    while k < |Schedule()|
      invariant 0 <= k <= |Schedule()|
      invariant b.notifications.Some?
      invariant
        if attempt.Some? && LeadIndex(attempt.value) < k then
          b == AfterSweep(a, users, now, env) && delivered == Delivered(a, users, now, env)
          && handed == MailsFor(a, users, now, env)
        else
          b == initialized && !delivered && handed == []
    {
      var reminderType := Schedule()[k];
      assert LeadIndex(reminderType) == k;
      if daysUntilActivity == Threshold(reminderType) {
        if AlreadySent(b, reminderType) {
          k := k + 1;
          continue;
        }
        var emails := GetEmailsForActivity(b, users);
        if |emails| == 0 {
          k := k + 1;
          continue;
        }
        assert attempt == Some(reminderType);
        var draft := DraftOf(b, reminderType, env.formatDate);
        var emailSent;
        emailSent, handed := SendEmail(env, emails, draft);
        if emailSent {
          b := b.(notifications := Some(b.notifications.value[reminderType := Notice(true, now, emails)]));
          delivered := true;
        }
      }
      k := k + 1;
    }
  }

  /** Extending the swept prefix by one activity adds that activity's share to each total */
  lemma SweepStep(activities: seq<Activity>, i: nat, users: seq<User>, now: int, env: Env)
    requires i < |activities|
    ensures CountPlanned(activities[..i + 1]) ==
      CountPlanned(activities[..i]) + (if activities[i].status == Planned then 1 else 0)
    ensures CountDelivered(activities[..i + 1], users, now, env) ==
      CountDelivered(activities[..i], users, now, env) + (if Delivered(activities[i], users, now, env) then 1 else 0)
    ensures Outbox(activities[..i + 1], users, now, env) ==
      Outbox(activities[..i], users, now, env) + MailsFor(activities[i], users, now, env)
  {
    assert activities[..i + 1][..i] == activities[..i];
  }

  /** Sweeping one more activity of the list replaces it with its swept version */
  lemma SweepAllStep(activities: seq<Activity>, i: nat, users: seq<User>, now: int, env: Env)
    requires i < |activities|
    ensures (SweepAll(activities[..i], users, now, env) + activities[i..])[i := AfterSweep(activities[i], users, now, env)]
      == SweepAll(activities[..i + 1], users, now, env) + activities[i + 1..]
  {
  }

  /**
    The loop of `sendReminders` over the activities, with its counters: `processed`
    counts the planned activities, `sent` the delivered reminders.
   */
  method Sweep(activities: seq<Activity>, users: seq<User>, now: int, env: Env)
    returns (updated: seq<Activity>, processed: nat, sent: nat, outbox: seq<Mail>)
    ensures updated == SweepAll(activities, users, now, env)
    ensures processed == CountPlanned(activities)
    ensures sent == CountDelivered(activities, users, now, env)
    ensures outbox == Outbox(activities, users, now, env)
  {
    updated, processed, sent, outbox := activities, 0, 0, [];
    var i := 0;
    assert activities[..0] == [] && activities[0..] == activities;
    while i < |activities|
      invariant 0 <= i <= |activities| && |updated| == |activities|
      invariant updated == SweepAll(activities[..i], users, now, env) + activities[i..]
      invariant processed == CountPlanned(activities[..i])
      invariant sent == CountDelivered(activities[..i], users, now, env)
      invariant outbox == Outbox(activities[..i], users, now, env)
    {
      SweepStep(activities, i, users, now, env);
      SweepAllStep(activities, i, users, now, env);
      var activity := activities[i];
      if activity.status == Planned {
        processed := processed + 1;
        var delivered, handed;
        activity, delivered, handed := RemindActivity(activity, users, now, env);
        if delivered {
          sent := sent + 1;
        }
        outbox := outbox + handed;
      }
      updated := updated[i := activity];
      i := i + 1;
    }
    assert activities[..i] == activities;
  }

  /**
    `sendReminders` on the document: an empty activity list returns zero counters and
    writes nothing; otherwise every activity is swept and the document is written once.
   */
  method SendReminders(data: DataStore, now: int, env: Env) returns (processed: nat, sent: nat, outbox: seq<Mail>)
    modifies data
    ensures data.users == old(data.users)
    ensures old(data.activities) == [] ==>
      processed == 0 && sent == 0 && outbox == [] && data.activities == [] && data.saves == old(data.saves)
    ensures old(data.activities) != [] ==>
      && data.activities == SweepAll(old(data.activities), old(data.users), now, env)
      && processed == CountPlanned(old(data.activities))
      && sent == CountDelivered(old(data.activities), old(data.users), now, env)
      && outbox == Outbox(old(data.activities), old(data.users), now, env)
      && data.saves == old(data.saves) + 1
  {
    if |data.activities| == 0 {
      return 0, 0, [];
    }
    var updated;
    updated, processed, sent, outbox := Sweep(data.activities, data.users, now, env);
    data.activities := updated;
    data.saves := data.saves + 1;
  }

  /* ----- Properties of a sweep ----- */

  /** `sent` never exceeds the mails handed over, which never exceed `processed` */
  lemma {:induction false} SentAtMostProcessed(activities: seq<Activity>, users: seq<User>, now: int, env: Env)
    ensures CountDelivered(activities, users, now, env) <= |Outbox(activities, users, now, env)| <= CountPlanned(activities)
  {
    if activities != [] {
      SentAtMostProcessed(activities[..|activities| - 1], users, now, env);
    }
  }

  /**
    Sweeping again on the same day retries exactly the reminder whose delivery failed:
    a delivered reminder is not attempted again, and nothing else becomes due.
   */
  lemma SameDayRetry(a: Activity, users: seq<User>, now: int, env: Env)
    ensures Attempt(AfterSweep(a, users, now, env), users, now) ==
      if Delivered(a, users, now, env) then None else Attempt(a, users, now)
  {
    var b := AfterSweep(a, users, now, env);
    RecipientsIgnoreNotifications(a, users, b.notifications);
    forall l
      ensures AlreadySent(b, l) <==>
        AlreadySent(a, l) || (Delivered(a, users, now, env) && Attempt(a, users, now) == Some(l))
    {
      AfterSweepSent(a, users, now, env, l);
    }
  }

  /** Once a reminder for a lead time is delivered, no later sweep attempts that lead time again */
  lemma NeverResent(a: Activity, users: seq<User>, now: int, env: Env, later: int)
    requires Delivered(a, users, now, env)
    ensures Attempt(AfterSweep(a, users, now, env), users, later) != Attempt(a, users, now)
  {
    AfterSweepSent(a, users, now, env, Attempt(a, users, now).value);
  }

  /**
    The transport answers the same mail the same way, so a second sweep on the same day
    with the same surroundings changes nothing and delivers nothing.
   */
  lemma SweepIdempotent(activities: seq<Activity>, users: seq<User>, now: int, env: Env)
    ensures SweepAll(SweepAll(activities, users, now, env), users, now, env) == SweepAll(activities, users, now, env)
    ensures CountDelivered(SweepAll(activities, users, now, env), users, now, env) == 0
  {
    var once := SweepAll(activities, users, now, env);
    forall i | 0 <= i < |once|
      ensures AfterSweep(once[i], users, now, env) == once[i] && !Delivered(once[i], users, now, env)
    {
      AfterSweepStable(activities[i], users, now, env);
    }
    NoneDelivered(once, users, now, env);
  }

  lemma AfterSweepStable(a: Activity, users: seq<User>, now: int, env: Env)
    ensures var b := AfterSweep(a, users, now, env);
      AfterSweep(b, users, now, env) == b && !Delivered(b, users, now, env)
  {
    var b := AfterSweep(a, users, now, env);
    SameDayRetry(a, users, now, env);
    if Attempt(b, users, now).Some? {
      assert Attempt(b, users, now) == Attempt(a, users, now) && !Delivered(a, users, now, env);
      RecipientsIgnoreNotifications(a, users, b.notifications);
      assert ReminderMail(b, Attempt(b, users, now).value, users, env) == ReminderMail(a, Attempt(a, users, now).value, users, env);
    }
  }

  lemma {:induction false} NoneDelivered(activities: seq<Activity>, users: seq<User>, now: int, env: Env)
    requires forall i :: 0 <= i < |activities| ==> !Delivered(activities[i], users, now, env)
    ensures CountDelivered(activities, users, now, env) == 0
  {
    if activities != [] {
      NoneDelivered(activities[..|activities| - 1], users, now, env);
    }
  }

  /**
    A sample sweep: an activity exactly fourteen days away, whose responsible user has
    an email, gets its two-weeks reminder, and the record names that address.
   */
  lemma TwoWeeksExample(env: Env)
    requires forall m :: env.transport(m)
    ensures var users := [User("u1", "Ann", "fb1", Some("ann@example.com"))];
      var now := 1704067200000;
      var a := Activity("a1", "Dinner", now + 14 * MsPerDay, Some("u1"), "", [], Planned, None);
      && Attempt(a, users, now) == Some(TwoWeeks)
      && Notices(AfterSweep(a, users, now, env)) == map[TwoWeeks := Notice(true, now, ["ann@example.com"])]
  {
    var users := [User("u1", "Ann", "fb1", Some("ann@example.com"))];
    var now := 1704067200000;
    var a := Activity("a1", "Dinner", now + 14 * MsPerDay, Some("u1"), "", [], Planned, None);
    assert DaysUntil(a.date, now) == 14;
    assert UserById(users, "u1") == Some(users[0]);
    assert Recipients(a, users) == ["ann@example.com"];
  }
}
