# Habit streak tracker: a Dafny model of the daily streak step

The tracker is a Google Apps Script. Once a day, `createDailyHabitEvent` puts
an all-day event titled `Day N – message` on a calendar and keeps a running
day counter in the script properties. The user controls the streak from the
calendar: an all-day event titled `RESET` restarts the count at 1, and one
titled `SKIP` keeps the count where it was. Either marker is deleted once it
has been read. A manual counter in the configuration overrides everything.

This project models that daily step as pure functions over an immutable
state. The state is today's events (title and all-day flag) plus the stored
counter (`Option<nat>`, absent read as 0). The project proves what the step
guarantees.

Modules, one per file:

- `Wrappers` (wrappers.dfy): `Option` and `Result`.
- `Text` (text.dfy): JavaScript `trim`, `toUpperCase` (for the characters
  that matter to the markers), `includes`, and `Number.prototype.toString`
  for the counter.
- `Sequences` (sequences.dfy): order-preserving `filter` and its laws.
- `Config` (config.dfy): `validateConfig`, `changeTheme`, `setCustomMessages`
  over the raw configuration object, plus the typed configuration that
  validation produces.
- `Messages` (messages.dfy): the four built-in pools, the two milestone
  tables, `getMilestoneMessage` and `getHabitMessage`, with JavaScript's
  truncating `%`.
- `Counter` (counter.dfy): `determineCounter`, and a reference definition of
  the streak it counts across many days.
- `ControlEvents` (control_events.dfy): `processResetEvents` and
  `processSkipEvents`.
- `DailyRun` (daily_run.dfy): `createDailyHabitEvent`. It runs the duplicate
  guard, both scans, counter resolution, the ceiling check, then creates the
  event and writes the counter.

Points where the code does something other than a first reading suggests,
all modelled as the code does them:

- `changeTheme("custom")` does not check the custom pool. Starting from an
  accepted configuration with an empty `customMessages`, it yields one that
  the next `validateConfig` refuses. `Config.ChangeThemeKeepsValidity` states
  exactly when acceptance is kept. The daily run validates first, so the
  broken configuration never reaches message selection.
- Day 0 can be reached. It comes from a manual counter of 0, or from a SKIP
  when no counter is stored. No table has a milestone at 0, and `(0 - 1) % n`
  is `-1` in JavaScript, so the message is `undefined` and the title reads
  `Day 0 – undefined`. The exception is a pool of exactly one message: there
  `-1 % 1` is `-0`, which indexes the first entry (`Messages.DayZeroMessage`).
- The ceiling check runs after both scans. A run that fails on overflow has
  already deleted that day's RESET and SKIP events, but it creates no event
  and writes no counter.
- The duplicate guard is a title heuristic: any all-day event whose title
  contains both `Day` and `–` blocks the run. A user's own event can
  therefore block it as well.

The script tracks a single habit. An absent counter reads as 0, so the
first normal run gives 1; there is no back-fill from a start date. Tracking
events carry no tags, and the title has no habit-name prefix. The counter is
written once per run.

## Model

| member | source | states |
|---|---|---|
| Config.ParseTheme | script.js:180-182 | a theme name is accepted iff it is one of the five listed names, and the parsed theme prints back as that name |
| Config.ValidateConfig | script.js:155-187 | an accepted configuration satisfies every invariant the run relies on and is the raw configuration itself, read with typed fields; a refusal names a rule the raw configuration actually breaks, and every rule checked before it holds |
| Config.ValidateAcceptsValid | script.js:155-187 | every configuration that meets the invariants is accepted, unchanged, from its raw form |
| Config.ValidateAcceptsExactlyValid | script.js:155-187 | validation accepts a raw configuration iff it is the raw form of some valid configuration (both directions) |
| Config.ChangeTheme | script.js:451-457 | an unknown theme name is refused; a known one replaces the theme and nothing else |
| Config.ChangeThemeKeepsValidity | script.js:451-457 | after a theme change an accepted configuration stays accepted, with the new theme, iff the change is not to "custom" while the custom pool is empty |
| Config.SetCustomMessages | script.js:438-445 | an empty list is refused; otherwise the pool becomes the list and the theme becomes custom, nothing else changes |
| Config.SetCustomMessagesKeepsValidity | script.js:438-445 | setting a non-empty pool yields an accepted configuration with the custom theme and that pool, whenever the rest of the configuration is acceptable |
| Messages.GetMilestoneMessage | script.js:304-349 | a message exists iff the day is a key of the theme's table, and it is the table's entry for that day |
| Messages.Milestones | script.js:307-346 | day 3 is a milestone only in the sobriety table, no table has day 0, and every milestone lies between day 1 and day 3650 |
| Messages.MilestoneTablesShareDays | script.js:307-346 | the sobriety table has the general days plus day 3, and every theme other than sobriety uses the general table |
| Messages.Pool | script.js:282-286 | the custom theme draws from the configured messages; sobriety and minimal have 15 built-in messages, the others 10 |
| Messages.JsRem | script.js:296 | JavaScript's remainder agrees with the mathematical one for non-negative operands, is never positive for negative ones, and gives -1 (or -0 for divisor 1) for -1 |
| Messages.GetHabitMessage | script.js:279-297 | a milestone day yields its milestone before any pool lookup; any other day from 1 yields pool[(day-1) mod length]; any message returned comes from the milestone table or the pool |
| Messages.DayZeroMessage | script.js:296 | day 0 has a message iff the pool has exactly one entry, and then it is that entry |
| Messages.MessageDefinedFromDayOne | script.js:155-187 | under a valid configuration a message exists iff the day is at least 1 or the pool has a single entry |
| Messages.PoolCycles | script.js:294-296 | outside milestones the message repeats with the length of the pool as its period |
| Messages.WeekMilestoneExample | script.js:328-330 | day 7 under the general theme gives "Week of Consistency 📅", not a pool entry |
| Messages.CycleExample | script.js:294-296 | day 23 under the general theme gives the third pool entry, (23-1) mod 10 = 2 |
| Messages.SobrietyTableExample | script.js:307-310 | day 3 is a milestone only for the sobriety theme; other themes use the pool |
| Counter.DetermineCounter | script.js:252-272 | a manual counter wins over everything; otherwise RESET gives 1 even with SKIP; otherwise SKIP keeps the stored value (absent is 0); otherwise the stored value plus one |
| Counter.StoredValue | script.js:265-268 | an absent stored counter reads as 0, a present one as itself |
| Counter.CounterStep | script.js:258-271 | without an override the counter rises by at most one per run, and is 0 iff the day was a SKIP on a stored 0 with no RESET |
| Counter.CounterIsStreakLength | script.js:252-272 | after one run per day from an empty store, the counter is the streak length: 1 for the last RESET day plus every later day that was not skipped, or every non-skipped day if there was no RESET |
| Counter.StreakAtMostRuns | script.js:252-272 | from an empty store and without override, the counter never exceeds the number of runs |
| ControlEvents.ProcessControlEvents | script.js:196-243 | found iff some event is all-day with a trimmed, upper-cased title exactly equal to the marker; every such event is deleted, every other event stays with all its copies, and deleted plus remaining is the day's events as a multiset |
| ControlEvents.ProcessResetEvents | script.js:196-215 | the RESET scan reports a RESET event iff there is one, deletes exactly the RESET events, and keeps every copy of every other event |
| ControlEvents.ProcessSkipEvents | script.js:224-243 | the SKIP scan reports a SKIP event iff there is one, deletes exactly the SKIP events, and keeps every copy of every other event |
| ControlEvents.ScanIdempotent | script.js:196-215 | scanning what a scan left finds nothing and deletes nothing |
| ControlEvents.MarkersDisjoint | script.js:196-243 | no event is both a RESET and a SKIP event |
| ControlEvents.ScansCommute | script.js:116-119 | the day's events after both scans do not depend on the order of the scans |
| ControlEvents.SkipScanUnaffectedByReset | script.js:116-119 | the SKIP scan that runs after the RESET scan finds a SKIP event iff the day had one |
| ControlEvents.ControlTitleExamples | script.js:198-200 | blanks around the title and letter case do not matter; a timed event or any extra text in the title does |
| ControlEvents.ControlEventLetters | script.js:198-200 | an event is a RESET (SKIP) event iff it is all-day and its trimmed title is five (four) characters spelling the marker in either case, with long s for S and dotless i for I |
| Text.TrimSpec | script.js:199 | trim returns an infix that neither starts nor ends with a whitespace or line-terminator character, dropping only such characters |
| Text.TrimKeepsFirst | script.js:199 | trimming a string whose first character is not blank keeps that character first |
| Text.NatToString | script.js:130 | the decimal rendering is non-empty, all digits, one digit exactly for numbers below 10, and has no leading zero |
| Text.DecimalRoundTrip | script.js:130-133 | reading the rendered counter back in base 10 gives the counter |
| Text.ContainsAt | script.js:101 | an occurrence at any position counts as "includes" |
| Text.ContainsIff | script.js:101 | "includes" holds iff the searched text starts at some position of the string |
| Text.UpperChar | script.js:199 | a character upper-cases to an ASCII capital iff it is an ASCII letter, dotless i or long s; only those characters change, lower-case letters shifting to their capitals |
| Text.Upper | script.js:199 | upper-casing keeps the length and maps every character independently |
| DailyRun.Title | script.js:129-130 | the title starts with "Day ", the counter in decimal, and " – ", and continues with the message, or "undefined" when there is none |
| DailyRun.TitleIsTracking | script.js:99-102 | every title the run builds passes the duplicate guard |
| DailyRun.TrackingEventIff | script.js:99-101 | an event passes the duplicate guard iff it is all-day and both "Day" and "–" start at some position of its title |
| DailyRun.TitleIsNotControl | script.js:196-243 | no title the run builds is a RESET or SKIP title |
| DailyRun.ScanControls | script.js:113-119 | with event control enabled both scans run and report exactly whether a RESET, or respectively a SKIP, event existed, the SKIP scan also after a RESET fired, and the day keeps every copy of every event that is neither; disabled, nothing is scanned |
| DailyRun.Record | script.js:132-133 | a successful run appends exactly one all-day event with the title and stores the counter |
| DailyRun.Reconcile | script.js:98-133 | the run is a no-op with "already exists" iff some all-day event today has "Day" and "–" in its title, and then it reports the first such event's title; the only failure is overflow, which leaves the scanned day and the stored counter; a created event's counter is within the ceiling, is what gets stored, and its title is the day and that day's message |
| DailyRun.CreateDailyHabitEvent | script.js:81-150 | a configuration that fails validation stops the run with that error and touches nothing; an accepted one runs the daily step on the validated configuration |
| DailyRun.OverflowIff | script.js:121-133 | with no tracking event today, the run creates the event iff the resolved counter is within the ceiling, and fails otherwise, leaving the scanned day and the stored counter; a created event adds exactly one event to what the scans left |
| DailyRun.RerunIsNoOp | script.js:98-111 | running again right after a run that created the event reports that event as existing and changes nothing |
| DailyRun.CreatedIsOnlyTracking | script.js:99-133 | after a run that created the event, that event is the only one of the day that passes the duplicate guard |
| DailyRun.DailyRunIdempotent | script.js:81-111 | the same holds for the whole run from the raw configuration |
| DailyRun.NoTrackingYet | script.js:113-133 | when the run creates the event, the day ends with what the scans kept plus the new event |
| DailyRun.CreatedLeavesNoControl | script.js:113-133 | with event control enabled, a run that creates the event leaves no RESET or SKIP event behind |
| DailyRun.ResetRestartsStreak | script.js:113-133 | a RESET event today makes the run record day 1, whatever the stored counter and even beside a SKIP event, and the RESET event is gone |
| DailyRun.SkipKeepsCounter | script.js:113-133 | a SKIP event without RESET makes the run record the stored counter unchanged (absent is 0), and the SKIP event is gone |
| DailyRun.ManualCounterWins | script.js:252-256 | a manual counter within the ceiling is what the run records and stores, whatever the calendar and the stored counter say |
| DailyRun.DayZeroTitle | script.js:129-130 | a manual counter of 0 with a pool of more than one entry produces the title "Day 0 – undefined" |
| DailyRun.UndefinedDayZeroTitle | script.js:129-130 | a day 0 title without a message renders as "Day 0 – undefined" |

## Left out

- Google Apps Script services (`CalendarApp`, `PropertiesService`, `MailApp`, `ScriptApp`, `SpreadsheetApp`, `Session`, `Utilities`): the calendar is a sequence of events and the property store an `Option<nat>`.
- The calendar lookup by name (`getCalendarByName`, `getAvailableCalendarNames`) and its "calendar not found" error: the model starts from today's events of the configured calendar.
- Date and timezone handling for the day boundaries (script.js:91-94): "today's events" are an input, and which events `getEvents` returns for the day is not modelled.
- The `{search: ...}` prefilter that the scans pass to `getEvents`: the model assumes it returns every event the exact-title filter would keep.
- `toUpperCase` is modelled for a–z, dotless i and long s, the characters whose upper-case form is an ASCII letter. Every other character is left unchanged. The remaining Unicode case mappings cannot turn a title into `RESET` or `SKIP`.
- `log` and `console` output: side effects only.
- `getTrackingStats`: millisecond floating-point arithmetic on dates.
- `sendWeeklySummary`, `formatDate`, `ensureWeeklyTrigger`, `onOpen`, `onInstall`: date arithmetic, email, trigger and menu installation.
- `getCurrentCounter` and `resetCounter`: the stored counter is a natural number, so `resetCounter` writing a negative or fractional value is not representable.
- The `parseInt`/`toString` round trip of the stored counter: the store holds the number itself. Only the rendering in the title is modelled.
- JavaScript `typeof` checks in `validateConfig`: the fields are typed, so those checks cannot fail. JavaScript numbers are modelled as integers. A `NaN` or fractional `manualCounter` or `maxCounterDays` is not represented, nor is the way `NaN` slips through the `< 0` and `<= 0` checks.
- DailyRun.Reconcile: creating the event (script.js:132) and writing the counter (script.js:133) are one step that cannot fail. The script makes two separate service calls. If the write throws after the event was created, the event exists but the counter is not advanced, and the next day counts from the old value. The model does not represent that window, so `Created` always comes with the counter stored.
- The result object's `eventId` and the exception message texts: outcomes carry the counter, the title and an error variant instead.
- `startDate`, `enableLogging` and `habitName` play no part in the daily decision. `habitName` and `calendarName` are still validated as non-empty.
