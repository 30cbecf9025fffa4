# SwagPlan core, modelled in Dafny

SwagPlan is a small activity planner for a club. Members sign in through Facebook,
create activities, sign up for them and take responsibility for organising them. A
scheduled job mails reminders two months, one month and two weeks before each planned
activity. This project models the parts of it that make decisions and proves what they
promise:

- **The reminder sweep** (`lib/reminders.js`), in `reminders.dfy`:
  - the recipient list: the responsible person first, then the participants, no duplicates;
  - the mail content and the debug redirection;
  - `sendEmail`'s empty-list guard;
  - the sweep loop with its `processed`/`sent` counters and the `notifications` bookkeeping.
- **The server's request handlers** (`server.js`), in `server.dfy`. Each handler is a method on the in-memory
  document `{activities, users}` (`Model.DataStore`, in `model.dfy`). The handlers are
  create, bulk create, signup, leave, mark held or skipped, delete, and user registration.
- **The browser session** (`public/session.js`), in `session.dfy`: a class around the one `localStorage`
  slot, with expiry and sliding extension.
- **The activity page's decisions** (`public/app.js`), in `app.dfy`:
  - the displayed name of a responsible person;
  - `hasResponsiblePerson`;
  - the upcoming/held split, sorted and truncated;
  - which action buttons a card shows.
- **The user page** (`public/users.js`), in `users.dfy`:
  - the email validator, proved equal to the language of its regular expression;
  - `saveEmail`'s trim, validate and replace-by-id logic.

`text.dfy` holds the JavaScript white-space class and `String.prototype.trim`.
`wrappers.dfy` holds the `Option` type used for `null`/`undefined`.

The model leaves the following to oracles, each passed in as a function:
- The SMTP transport is `Env.transport: Mail -> bool`. It is `true` when `sendMail` resolves and `false` when it throws.
- Luxon's date formatting is `Env.formatDate`.
- The server's clock and id generation are `Runtime.now` and `Runtime.idOf`.
- The JavaScript `Date` month arithmetic of bulk create is `Runtime.monthDate` and `Runtime.monthName`.

Instants are integers, in milliseconds since the epoch.

On the day arithmetic, the model follows the code. The sweep computes
`Math.floor(diff in days)` and fires when the result equals 60, 30 or 14. So an
activity 14.9 days away counts as 14 and gets its two-weeks reminder, and each lead
time is due on every sweep while the activity is between T and T + 1 days away
(`Reminders.FiresWithinOneDay`); once it has been delivered, later sweeps skip it
(`Reminders.NeverResent`).

A further observation, proved in `App.BlankResponsibleDisagrees`: the mails and the
server treat any non-empty `responsible` as a person, but the page trims it first. For
an activity whose `responsible` is a blank string, the page offers "Make me
responsible", and the signup the button triggers leaves the blank value in place.

## Model

| member | source | states |
|---|---|---|
| `Model.FirstIndex` | server.js:164 | `findIndex`: the result is the first position whose element satisfies the predicate, and it is absent only when no element does |
| `Model.FindUser` | lib/reminders.js:61-63 | `find`: a found user is the first one that satisfies the predicate; nothing is found only when no user does |
| `Model.DataStore.constructor` | server.js:16-23 | the document `readData` falls back to has no activities and no users |
| `JsText.IsSpace` | public/users.js:240 | the white space of `trim` and `\s`: space, tab, line feed and carriage return are white space, no visible ASCII character is |
| `JsText.Trim` | public/users.js:240 | the result is a slice of the input with only white space before and after it; its ends are not white space; it is empty exactly when the input is all white space |
| `JsText.TrimIdempotent` | public/users.js:240 | trimming a trimmed string changes nothing |
| `Reminders.DaysUntil` | lib/reminders.js:241-242 | floor division: the activity is at least `d` and less than `d + 1` whole days away |
| `Reminders.Threshold` | lib/reminders.js:227-231 | the `reminderIntervals` table: 60, 30 and 14 days, a different number for each lead time |
| `Reminders.Schedule` | lib/reminders.js:227-231 | the entries of the table are visited once each, longest lead time first |
| `Reminders.LeadIndex` | lib/reminders.js:252 | every lead time has its position in the order `Object.entries` visits the interval table |
| `Reminders.FiringLead` | lib/reminders.js:227-254 | a lead time is due exactly when its threshold (60, 30, 14) equals the day count, and at most one is due |
| `Reminders.FiresWithinOneDay` | lib/reminders.js:241-254 | a lead time fires exactly while the activity is between T and T + 1 days away |
| `Reminders.EmailOf` | lib/reminders.js:69-72 | an address is returned exactly when the first user with the id exists and has a truthy email, and it is that email |
| `Reminders.AddParticipantEmailsProperties` | lib/reminders.js:77-84 | the earlier list stays a prefix; no duplicate is introduced; the result holds exactly the earlier addresses and the participants' emails |
| `Reminders.RecipientsProperties` | lib/reminders.js:65-87 | the recipients have no duplicates, are exactly the responsible person's and the participants' emails, start with the responsible person's email when there is one, and are all non-empty |
| `Reminders.Recipients` | lib/reminders.js:65-87 | the recipient list has no duplicate address and no empty one |
| `Reminders.AddParticipantEmailsOrder` | lib/reminders.js:77-84 | appending the participants lists exactly the earlier addresses and the participants' addresses, each where it first occurs |
| `Reminders.RecipientsOrder` | lib/reminders.js:65-87 | the recipients come in the order in which their addresses first occur in the responsible person's address followed by the participants' addresses, participant by participant |
| `Reminders.RecipientsIgnoreNotifications` | lib/reminders.js:65-87 | the reminder bookkeeping never changes who is mailed |
| `Reminders.GetEmailsForActivity` | lib/reminders.js:65-87 | the `push` loop computes exactly the recipient list above |
| `Reminders.ParseSubjectRoundTrip` | lib/reminders.js:96-104 | the title and the lead time can be read back from the subject `⏰ Reminder: "<title>" is in <label>!` |
| `Reminders.Label` | lib/reminders.js:96-100 | the `label` of `timeframes`: "2 months", "1 month", "2 weeks", a different one for each lead time |
| `Reminders.Period` | lib/reminders.js:96-100 | the `period` of `timeframes`: "two months", "one month", "two weeks", a different one for each lead time |
| `Reminders.TextBodyMentions` | lib/reminders.js:106-119 | the text body contains the title, the formatted date and the period, plus the "responsible" line when someone is responsible and the warning otherwise |
| `Reminders.TextBodyNotes` | lib/reminders.js:112 | with notes, the text body contains `📝 Notes: ` followed by the notes |
| `Reminders.TextTemplateBranches` | lib/reminders.js:112-114 | the text template holds the notes label only with notes, the "you are responsible" line only when `responsible` is truthy, and the warning only when it is not |
| `Reminders.HtmlBodyMentions` | lib/reminders.js:121-148 | the HTML body contains the title, date, period and notes, and the responsible or warning wording by the same rule |
| `Reminders.HtmlTemplateBranches` | lib/reminders.js:128-135 | the HTML template holds the notes paragraph only with notes, and exactly one of the responsible and warning wordings, by the same rule |
| `Reminders.EmailContent` | lib/reminders.js:94-151 | `createEmailContent`: the title and the lead time can be read back from the subject, and the text and the HTML both name the activity, its formatted date and the lead time |
| `Reminders.SplitJoinRoundTrip` | lib/reminders.js:180 | splitting `emails.join(', ')` at its commas gives the addresses back, when none contains a comma |
| `Reminders.JoinRecipients` | lib/reminders.js:180 | `emails.join(', ')`: every address shows up in the joined header, and no addresses give the empty string |
| `Reminders.Envelope` | lib/reminders.js:159-190 | in debug mode the mail goes to `DEBUG_EMAIL` only and carries a debug block; otherwise it goes to the joined recipient list; the sender is `"SwagPlan" <GMAIL_EMAIL>` |
| `Reminders.EnvelopeKeepsContent` | lib/reminders.js:179-190 | outside debug mode the subject, text and HTML are exactly what `createEmailContent` rendered |
| `Reminders.DebugDisclosesRecipients` | lib/reminders.js:162-171 | in debug mode the subject gets the `[DEBUG] ` prefix, the rendered text is kept as a prefix, and the text names the real recipients and the redirect address |
| `Reminders.DebugDisclosesRecipientsHtml` | lib/reminders.js:172-176 | in debug mode the rendered HTML is kept as a prefix and names the real recipients and the redirect address |
| `Reminders.AddressedToRecipients` | lib/reminders.js:180-186 | outside debug mode the `to` header lists exactly the recipients, in order, when no address contains a comma |
| `Reminders.SendEmail` | lib/reminders.js:153-205 | with no recipients it returns false and the transport gets nothing; otherwise the transport gets exactly one mail and its verdict is returned |
| `Reminders.Attempt` | lib/reminders.js:233-269 | a send is attempted only for a planned activity exactly a threshold away, not yet sent for that lead time, with someone to mail; with no attempt, one of these fails |
| `Reminders.AfterSweep` | lib/reminders.js:233-291 | a sweep changes only `notifications`, leaves non-planned activities untouched, and gives every planned activity a notifications object |
| `Reminders.AfterSweepSent` | lib/reminders.js:256-285 | a lead time is marked sent after the sweep exactly when it was before or its reminder was just delivered |
| `Reminders.AfterSweepRecords` | lib/reminders.js:256-288 | a delivered reminder is recorded as `{sent: true, sentAt: now, recipients}` with the real recipient list (not the debug address); other records are kept; no record appears for a lead time that was not delivered |
| `Reminders.RemindActivity` | lib/reminders.js:241-290 | the inner loop over the lead times produces the swept activity, reports whether it delivered, and hands over the reminder mail when one is due |
| `Reminders.Sweep` | lib/reminders.js:223-291 | the loop over the activities yields every activity swept, `processed` = the planned ones, `sent` = the delivered reminders, and the mails in order |
| `Reminders.SendReminders` | lib/reminders.js:207-299 | an empty list returns zero counters without writing; otherwise the swept list is written once |
| `Reminders.SentAtMostProcessed` | lib/reminders.js:239-284 | `sent` is at most the number of mails handed over, which is at most `processed` |
| `Reminders.SameDayRetry` | lib/reminders.js:256-288 | on a second sweep at the same instant, a delivered reminder is not attempted again; a failed one is retried as before |
| `Reminders.NeverResent` | lib/reminders.js:256-259 | after a delivery, no later sweep attempts the same lead time again |
| `Reminders.SweepIdempotent` | lib/reminders.js:233-291 | a second sweep at the same instant, with the same transport verdicts, changes nothing and delivers nothing |
| `Reminders.TwoWeeksExample` | lib/reminders.js:241-284 | an activity exactly 14 days away gets its two-weeks reminder, recorded with the responsible user's address |
| `Server.NewActivity` | server.js:36-44 | a new activity is planned, has no participants and no reminder records, keeps `responsible` only when truthy, and has `notes` or `''` |
| `Server.CreateActivity` | server.js:34-48 | create appends exactly that one record, leaves the rest, and writes once |
| `Server.Batch` | server.js:61-79 | bulk create makes eight planned activities with no responsible person, no participants and no notes, dated at the start month plus 0, 2, …, 14 months |
| `Server.BatchIdsDistinct` | server.js:68 | the eight ids `Date.now() + i` are pairwise different when `toString` tells numbers apart |
| `Server.BatchAllProcessed` | server.js:61-79 | the next reminder sweep processes all eight |
| `Server.BulkCreate` | server.js:50-83 | a missing or empty start month yields 400 without writing; otherwise the batch is appended in order and written once |
| `Server.Joined` | server.js:92-99 | signup adds the user once, fills `responsible` only when it is falsy, and changes nothing else |
| `Server.SignupIdempotent` | server.js:93-99 | signing up twice equals signing up once, and a duplicate-free participant list stays duplicate-free |
| `Server.SignupRepeatNoChange` | server.js:85-103 | repeating a signup request leaves the whole activity list as it was |
| `Server.Signup` | server.js:85-103 | an unknown id yields 404 without writing; otherwise the first activity with the id is edited in place and written |
| `Server.Without` | server.js:113 | `filter(p => p !== userId)` removes every occurrence of the user and keeps every other participant |
| `Server.WithoutAppend` | server.js:113 | the filter distributes over concatenation, so the remaining participants keep their order |
| `Server.WithoutAbsent` | server.js:113 | filtering out a non-participant changes nothing |
| `Server.Left` | server.js:112-117 | leave removes the user; a leaving responsible hands over to the first remaining participant or to `null`; otherwise `responsible` stays |
| `Server.LeaveUndoesSignup` | server.js:92-117 | leaving undoes the signup of a non-participant that did not take responsibility, or that joined an empty activity |
| `Server.Leave` | server.js:105-121 | an unknown id yields 404 without writing; otherwise the first activity with the id is edited in place and written |
| `Server.Settled` | server.js:135-159 | the status changes exactly when it is planned, and only to held or skipped |
| `Server.SettledIsFinal` | server.js:128-160 | a held or skipped activity can never be marked again, so nothing returns to planned |
| `Server.Mark` | server.js:128-160 | 404 for an unknown id, 400 without writing for a settled activity; otherwise the status changes in place and is written |
| `Server.Removed` | server.js:164-169 | delete removes exactly the first activity with the id, keeps the others in order, and fails only when no activity has the id |
| `Server.DeleteUndoesCreate` | server.js:162-172 | deleting a freshly created activity whose id was unused restores the list |
| `Server.Delete` | server.js:162-172 | an unknown id yields 404 with the list unchanged; otherwise the removal is written |
| `Server.Registered` | server.js:176-186 | a known Facebook id leaves the list unchanged; otherwise `{id, name, facebookId}` without email is appended |
| `Server.RegisterKeepsUnique` | server.js:174-189 | registration keeps Facebook ids unique, and registering the same Facebook id again changes nothing |
| `Server.RegisterUser` | server.js:174-189 | the returned user has the Facebook id and is in the list; a known user is returned without writing; a new one is written |
| `Session.Saved` | public/session.js:3-10 | a saved session keeps the user and the save time and expires 1,800,000 ms later |
| `Session.Lookup` | public/session.js:15-48 | a user is returned exactly when a session is stored and `now <= expiresAt`; otherwise the slot ends empty; past the halfway point the expiry becomes `now + 1800000`, before it nothing changes |
| `Session.SavedIsAlive` | public/session.js:5-11 | a freshly saved session lasts its whole duration |
| `Session.ReadKeepsAlive` | public/session.js:27-42 | a read within 15 minutes of the last one returns the user and keeps the session alive |
| `Session.ActiveUserStaysLoggedIn` | public/session.js:27-42 | a user who comes back at least every 15 minutes is never logged out |
| `Session.ExtensionNeverShortens` | public/session.js:34-39 | with time moving forward, a read never brings the expiry closer |
| `Session.LoggedOutStaysOut` | public/session.js:17-31 | once a read finds no session, no later read finds one without a new save |
| `Session.SessionStorage.Save` | public/session.js:5-13 | the slot holds the saved session |
| `Session.SessionStorage.Get` | public/session.js:15-48 | the slot and the returned user are those `Lookup` describes, including the clearing of expired or unreadable entries |
| `Session.SessionStorage.Clear` | public/session.js:50-53 | the slot is empty |
| `Session.SessionStorage.IsValid` | public/session.js:55-57 | true exactly when `getSession` returns a user, with the same effect on the slot |
| `App.GetUserName` | public/app.js:155-177 | the first applicable rule decides: `No one assigned`, the signed-in user's name, a known user's name, a typed name of at most 10 characters, or `Someone` |
| `App.ShowsKnownName` | public/app.js:159-167 | with unique ids and a consistent signed-in user, a known user's id shows that user's name |
| `App.HasResponsiblePerson` | public/app.js:215 | true exactly when `responsible` is present and has a character that is not white space |
| `App.BlankResponsibleDisagrees` | public/app.js:215-268 | a non-empty `responsible` made only of white space is truthy for mail and server but not a person for the page, which offers "Make me responsible" while signup keeps the blank value |
| `App.Only` | public/app.js:203-208 | the status filter keeps exactly the activities with a listed status |
| `App.OnlyCounts` | public/app.js:203-208 | the status filter keeps each listed activity as often as it occurs and drops every other one |
| `App.SortByDate` | public/app.js:205 | the date sort returns a permutation of its input ordered by date |
| `App.Upcoming` | public/app.js:203-205 | the upcoming list holds exactly the planned activities, each as often as it occurs, earliest first |
| `App.Recent` | public/app.js:207-210 | the held list holds only held or skipped activities, none more often than it occurs, latest first, min(5, their number) of them |
| `App.RecentAreLatest` | public/app.js:207-210 | no held or skipped activity left off the list is later than one shown |
| `App.ActionButtons` | public/app.js:261-292 | Leave, Make me responsible, Held/Skipped, Mark as Planned and Delete appear exactly under their conditions |
| `App.ButtonsMatchServer` | public/app.js:261-286 | shown Held/Skipped buttons are accepted by the server; Leave hands responsibility on; Make me responsible assigns the user when `responsible` is empty; Mark as Planned has no server transition |
| `Users.IsValidEmail` | public/users.js:290-293 | the validator accepts exactly the language of `/^[^\s@]+@[^\s@]+\.[^\s@]+$/` |
| `Users.ValidEmailShape` | public/users.js:291 | an accepted address has exactly one `@`, not at the start, and no white space |
| `Users.Submit` | public/users.js:240-257 | the input is trimmed; a non-empty invalid value sends nothing; an all-blank value is sent as `null`; otherwise the trimmed valid address is sent |
| `Users.SubmitStable` | public/users.js:240-256 | submitting what a submission sent gives the same submission again |
| `Users.ReplaceUser` | public/users.js:264-267 | only the first entry with the id is replaced; with no such entry the list is unchanged |
| `Users.SaveEmail` | public/users.js:237-288 | nothing is sent and nothing changes for a rejected value; after a successful answer the page's entry is replaced by id |

## Left out

- SMTP, file I/O and logging are not modelled. The `nodemailer` transport is an oracle. `readData`/`writeData` become the in-memory `DataStore`, whose `saves` counter stands for the writes. `console` output is dropped.
- The two data files are one document here. The server uses `data.json` and the reminder job uses `./data/data.json` (or `/data/data.json` in production).
- The transport is a deterministic function of the mail. `Reminders.SweepIdempotent` relies on this: a real SMTP server may answer the same mail differently twice.
- Luxon and JavaScript `Date` are reduced to integer instants:
  - `DateTime.fromISO` of a date-only string, time zones, daylight-saving days and `diff` are not modelled. An activity's `date` is the instant its string denotes, and a day is 86,400,000 ms.
  - Invalid date strings (NaN day counts, `Invalid Date`, the `RangeError` of `toISOString`) are not modelled.
  - `sentAt` is the sweep's instant, not its ISO string.
  - The date comparator of the page's sort never returns NaN.
- Date formatting is opaque. `toLocaleString(DATE_FULL)` and the bulk-create month name are oracles. The bulk-create `date` is the instant of the month's first day, `monthDate`.
- HTML presentation is simplified. The HTML templates keep their text and their element structure: the outer `<div>`, the heading, the two card `<div>`s, the paragraphs, the `<strong>` elements and the `<hr>`. They drop every `style` attribute, including the two colours chosen by whether someone is responsible, and the white space between tags. The debug block keeps its `<div>`, `<strong>` and `<br>` and drops its `style`.
- Reminders.TextTemplateBranches, Reminders.HtmlTemplateBranches: they state which optional lines the template holds, not that the filled-in string lacks their wording. A title or notes value may itself contain that wording.
- Clock reads are taken once per operation. `saveSession` reads `Date.now()` twice, and the model takes one `now` for both. A server request's id comes from the same single `now`.
- JSON shapes that the code does not guard are left out: missing `participants`, `null` `activities`, an `undefined` `userId` or `facebookId`, and a stored session without `expiresAt` or `timestamp`. A stored session whose reading throws is the `Unreadable` slot.
- `App.GetUserName` measures the length of a typed name in Unicode code points. JavaScript counts UTF-16 code units, so the two differ only for characters outside the Basic Multilingual Plane.
- The page's "Mark as Planned" button calls `mark-planned`, and the user page calls `PUT /api/users/:id`. Neither route exists in `server.js`, so the server side of those calls is not modelled. `Users.SaveEmail` takes the server's answer as a parameter.
- DOM rendering, `fetch`, the Facebook SDK, the `visibilitychange` listener, `public/schedule.js`, `test-email.js` and server start-up are not part of this model.
- `App.SortByDate` is an insertion sort. Its result is a date-ordered permutation, like the browser's stable sort. The model does not state stability as a separate property.
