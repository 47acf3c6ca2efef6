# Calendar booking widget — verified model

This project models the core of `src/mods/Calendar.tsx`, a Preact booking
widget. A visitor picks a day in a month grid, then a time slot for that
day, then fills in a name and email address, and submits the booking.

The core has two parts.

- `DateHelper` (`grid.dfy`) is the month-grid arithmetic. Its inputs are a
  reference date, an optional week-start weekday and an optional map from
  weekday to time slots. From these it computes:
  - the rotated weekday order and its labels;
  - the number of blank cells before day 1;
  - one cell per day of the month, with its weekday and its
    past/today/following/unavailable flags;
  - the `nextMonth` helper.

  The helper only reads its date and props, so it is a datatype and every
  getter is a function of it. The one getter built as a loop over mutable
  locals, `numberOfleadingDays`, is a method with a `while` loop. That
  method is proved equal to the closed form `LeadingCount`.
- `Dates` (`dates.dfy`) supplies what the helper takes from JavaScript's
  `Date`:
  - Gregorian (year, month 0..11, day) triples;
  - month lengths with the leap-year rule;
  - a day count from 1 January 1970 (a Thursday), which gives `getDay()`;
  - the two normalisations of `new Date(y, m, d)` the helper relies on:
    day 0 is the last day of the previous month, and month 12 is January
    of the next year.
- The booking page (`booking.dfy`) is the state machine inside the
  `Calendar` component. Its hook cells (`page`, `monthSelection`, `date`,
  `daySelection`, `selectedTime`, `contact`, `contactErrors`) appear twice:
  - as the record `State`, with one `Step` per user event;
  - as the fields of the class `Booking.Calendar`, whose handler methods
    update them in place and are proved to produce exactly
    `Step(cfg, old(Snapshot()), event)`.

  After a handler changes `page`, the page effect runs at once. `Inv` holds
  of every reachable state and every step preserves it. Among other things
  it says:
  - the month page shown matches `monthSelection`;
  - every page after the grid has a pickable day selected;
  - the `done` page has posted exactly one complete booking.

  A valid submit adds its post body to `outbox`, which is the model's
  record of what would be handed to the network.

Where the source and its description differ, the model follows the source.

- Going back from `time` to a month page does not keep the picked day. The
  page change re-runs the effect, and on a month page the effect clears
  `daySelection` (src/mods/Calendar.tsx:258-268).
- "Today" is the reference date's day of the month, not the current date,
  and only day numbers are compared. In the `nextMonth` view the reference
  date is the 1st, so outside December no day there is past.
- The December branch of `nextMonth` builds `new Date(year + 1, 0, 0)`,
  which is 31 December of the same year. The "next month" view of a
  December date therefore shows December again, with days 1 to 30 in the
  past. The model keeps this behaviour: `Grid.NextMonthAfterMonthDate` and
  `Grid.DecemberNextMonthViewIsPast` state it.
- `{...props, ...example}` lets the built-in `example` override the
  caller's props. `originalDate` is also built with `example`. So the
  caller's availability and week start never take effect
  (`Booking.AvailablityIsExample`, `Booking.OriginalDate`,
  `Booking.OriginalDateIgnoresProps`).

## Model

| member | source | states |
|---|---|---|
| Dates.DaysInMonth | src/mods/Calendar.tsx:48-50 | a month has 28 to 31 days; February has 29 exactly in a Gregorian leap year and 28 otherwise; April, June, September and November have 30 |
| Dates.Epoch | src/mods/Calendar.tsx:71-73 | 1 January 1970 is day 0 and a Thursday (weekday 4, Sunday being 0) |
| Dates.DayNumberSuccessor | src/mods/Calendar.tsx:71-73 | the day count goes up by exactly one from each valid date to the next, across month and year ends and leap days |
| Dates.DayOfWeekSuccessor | src/mods/Calendar.tsx:71-73 | the weekday of the next day is the next weekday, cyclically |
| Dates.YearStep | src/mods/Calendar.tsx:71-73 | consecutive 1 January day counts are one year length (365 or 366) apart |
| Dates.CarryMonth | src/mods/Calendar.tsx:49 | month 12 carries into month 0 of the next year; the carried (year, month) denotes the same month |
| Dates.NewDate | src/mods/Calendar.tsx:49 | `new Date(y, m, d)` for a month in 0..12 and a day from 0 to the month length yields a valid date |
| Dates.NewDateDayNumber | src/mods/Calendar.tsx:57 | `new Date(y, m, d)` is `d - 1` days after the 1st of the carried month, so day 0 is the day before the 1st |
| Grid.AvailableFromMembers | src/mods/Calendar.tsx:21-27 | the weekdays from `k` on listed are exactly those that are keys with a non-empty slot list |
| Grid.AvailableFromAscending | src/mods/Calendar.tsx:21-27 | those weekdays are listed in strictly increasing order |
| Grid.DaysOfTheWeekAvailable | src/mods/Calendar.tsx:21-27 | `daysOfTheWeekAvailable` has at most seven entries |
| Grid.DaysOfTheWeekAvailableMembers | src/mods/Calendar.tsx:18-27 | `daysOfTheWeekAvailable` holds a weekday exactly when `availability` maps it to a non-empty list; it lists each weekday at most once, in increasing order |
| Grid.Days | src/mods/Calendar.tsx:32-38 | `days` has length 7, starts with `startOfTheWeekDay`, and is the Sunday-first list rotated left by it |
| Grid.DaysAt | src/mods/Calendar.tsx:32-38 | position `i` of `days` holds the weekday `i` days after the week start |
| Grid.DaysIsPermutation | src/mods/Calendar.tsx:10-11 | `days` is a permutation of the weekdays 0..6 |
| Grid.DaysDistinct | src/mods/Calendar.tsx:32-38 | no weekday appears twice in `days` |
| Grid.DaysAbrev | src/mods/Calendar.tsx:39-41 | `daysAbrev` has seven entries and `daysAbrev[i]` is the label of `days[i]` |
| Grid.DaysAbrevRotation | src/mods/Calendar.tsx:39-41 | `daysAbrev` is the Sunday-first label list rotated left by the week start, so it starts with the week-start label |
| Grid.MonthDate | src/mods/Calendar.tsx:48-50 | `monthDate` is the last day of the reference month |
| Grid.MonthLength | src/mods/Calendar.tsx:68-70 | `daysInMonth` is the Gregorian length of the reference month, between 28 and 31 |
| Grid.NextMonth | src/mods/Calendar.tsx:55-60 | `nextMonth` keeps the props; outside December it is the 1st of the following month of the same year; in December it is 31 December of the same year |
| Grid.NextMonthAfterMonthDate | src/mods/Calendar.tsx:55-60 | `nextMonth` is the day after `monthDate` exactly when the month is not December; in December it is `monthDate` itself |
| Grid.FirstOfTheMonthDate | src/mods/Calendar.tsx:65-67 | `firstOfTheMonthDate` is the 1st of the reference month |
| Grid.LeadingCount | src/mods/Calendar.tsx:74-86 | the number of blank cells lies in 0..6 |
| Grid.LeadingCountIsFirstMatch | src/mods/Calendar.tsx:74-86 | `(startingDayOfTheWeek - startOfTheWeekDay) mod 7` is the index of the first entry of `days` equal to `startingDayOfTheWeek` |
| Grid.NumberOfLeadingDays | src/mods/Calendar.tsx:74-86 | the `forEach` loop returns the index of `startingDayOfTheWeek` in `days`, which is `LeadingCount` |
| Grid.LeadingDays | src/mods/Calendar.tsx:87-89 | `leadingDays` has exactly `LeadingCount` entries, all empty |
| Grid.RestrictToDOW | src/mods/Calendar.tsx:125-130 | `restrictToDOW(x)` holds exactly when `x` is in 0..6 |
| Grid.MonthDay | src/mods/Calendar.tsx:93-118 | building a day cell always succeeds, so the `throw` is unreachable |
| Grid.MonthDays | src/mods/Calendar.tsx:90-119 | `monthDays` has one cell per day of the month; cell `i` is day `i + 1` of the helper's month and year, `i` weekdays after the weekday of the 1st |
| Grid.WeekdayOfDay | src/mods/Calendar.tsx:96-97 | `(i + weekday of the 1st) % 7` is the calendar weekday of day `i + 1` |
| Grid.CellWeekday | src/mods/Calendar.tsx:96-116 | each cell's `dayOfTheWeek` is the calendar weekday of its date and passes `restrictToDOW` |
| Grid.CellFlags | src/mods/Calendar.tsx:98-111 | exactly one of `isPrev`, `isToday`, `isFollowing` holds, by comparing the cell's day with the reference day of the month; `isUnavailable` holds exactly when the day is past or its weekday has no slots |
| Grid.GridColumn | src/mods/Calendar.tsx:310-320 | after the blank cells, in a 7-column grid headed by `days`, each day falls in the column of its own weekday |
| Grid.NextMonthViewHasNoPastDays | src/mods/Calendar.tsx:102-109 | in the `nextMonth` view of a month other than December, day 1 is today and no day is past |
| Grid.DecemberNextMonthViewIsPast | src/mods/Calendar.tsx:57 | in December the `nextMonth` view is December of the same year with the 31st as today, so days 1 to 30 are past and unavailable |
| Booking.Spread | src/mods/Calendar.tsx:240 | `{...a, ...b}` defines exactly the props that `a` or `b` defines |
| Booking.SpreadLaws | src/mods/Calendar.tsx:240 | spreading the empty object on either side changes nothing; spread is associative; spreading `b` twice is spreading it once; an object that defines every prop hides the one it is spread over |
| Booking.AvailablityIsExample | src/mods/Calendar.tsx:240 | the availability in use is always the built-in `example` one: Monday to Friday have slots, Saturday and Sunday do not |
| Booking.OriginalDate | src/mods/Calendar.tsx:241 | `originalDate` holds the clock's date; because `example` (src/mods/Calendar.tsx:146) sets no week start, its week starts on Sunday and `days` is 0..6, and its availability is `example`'s |
| Booking.OriginalDateIgnoresProps | src/mods/Calendar.tsx:241 | `originalDate` is the same whatever props the caller passes |
| Booking.MonthView | src/mods/Calendar.tsx:258-267 | each month page shows a valid date with the `example` props |
| Booking.TimesNonEmpty | src/mods/Calendar.tsx:271-277 | `times` is non-empty exactly when there is an availability map, a selected day, and a non-empty slot list for its weekday |
| Booking.ParseContact | src/mods/Calendar.tsx:169-172 | the contact schema reports no issue exactly when the email is well formed and the name is non-empty; it reports at most two issues, each the email issue for a bad email or the name issue for an empty name |
| Booking.RouteIssuesKeepsEmail | src/mods/Calendar.tsx:366-372 | with no issue naming `email`, the email error keeps its old text |
| Booking.RouteIssuesLastEmail | src/mods/Calendar.tsx:366-372 | the email error ends with the message of the last issue whose path names `email` |
| Booking.RouteIssuesKeepsName | src/mods/Calendar.tsx:366-372 | with no issue naming `name` without `email`, the name error keeps its old text |
| Booking.RouteIssuesLastName | src/mods/Calendar.tsx:366-372 | the name error ends with the message of the last issue whose path names `name` but not `email` |
| Booking.ParseContactErrors | src/mods/Calendar.tsx:353-372 | after a failed parse, each failing field shows the schema's message and each passing field keeps its old error |
| Booking.Effect | src/mods/Calendar.tsx:251-269 | the effect keeps `page`; on a month page it shows that month, clears `daySelection` and sets `monthSelection` to the page; on other pages it changes no modelled state |
| Booking.Init | src/mods/Calendar.tsx:241-249 | after mounting and the first effect, the state is the initial hook values |
| Booking.InitSatisfiesInv | src/mods/Calendar.tsx:241-249 | the mounted state satisfies the invariant and shows `start` with `originalDate` |
| Booking.SelectableHasTimes | src/mods/Calendar.tsx:271-277 | a pickable day of a month view always has at least one time slot |
| Booking.BackPreservesInv | src/mods/Calendar.tsx:290-300 | the back arrow keeps the invariant |
| Booking.ForwardPreservesInv | src/mods/Calendar.tsx:301-305 | the forward arrow keeps the invariant |
| Booking.CellClickPreservesInv | src/mods/Calendar.tsx:317-320 | a day-cell click keeps the invariant |
| Booking.TimeClickPreservesInv | src/mods/Calendar.tsx:334-337 | a time click keeps the invariant |
| Booking.SubmitPreservesInv | src/mods/Calendar.tsx:351-373 | a submit keeps the invariant |
| Booking.StepPreservesInv | src/mods/Calendar.tsx:251-382 | every event the page offers keeps the invariant |
| Booking.ForwardOnlyFromStart | src/mods/Calendar.tsx:301-305 | the forward arrow changes nothing except on `start`; from there it shows `nextMonth` with `originalDate.nextMonth`, no day selected |
| Booking.BackNavigation | src/mods/Calendar.tsx:290-300 | back goes from `nextMonth` to `start`, from `time` to the remembered month page with the day selection cleared, and from `contact` to `time`; it does nothing on `start` and `done` |
| Booking.UnavailableCellIgnored | src/mods/Calendar.tsx:204-206 | clicking an unavailable day changes nothing |
| Booking.AvailableCellSelects | src/mods/Calendar.tsx:317-320 | clicking an available day selects it and moves to `time`, which then has at least one slot |
| Booking.TimeClickSelects | src/mods/Calendar.tsx:334-337 | clicking a slot selects that slot, which is one of the day's times, and moves to `contact` |
| Booking.TimePageOffersTimes | src/mods/Calendar.tsx:325-344 | on `time` the slot list is never empty, so the "no times" message never shows |
| Booking.FieldEditsOnlyContact | src/mods/Calendar.tsx:375-382 | typing in a field changes that form field and nothing else |
| Booking.ValidSubmit | src/mods/Calendar.tsx:353-362 | a valid form moves to `done` and emits one post carrying the picked day, the form and the picked time |
| Booking.InvalidSubmit | src/mods/Calendar.tsx:364-372 | an invalid form stays on `contact` and posts nothing; only the errors change, to the schema's message under each failing field, and a passing field keeps its earlier error |
| Booking.DoneIsFinal | src/mods/Calendar.tsx:290-305 | nothing the `done` page offers changes the state |
| Booking.PostIsComplete | src/mods/Calendar.tsx:355-361 | a finished booking has posted once, with a pickable day of the month shown, one of that day's slots, and a contact the schema accepts |
| Booking.Calendar.constructor | src/mods/Calendar.tsx:241-249 | the component keeps the props, clock date and email test it was given, and mounts in the initial state, which satisfies the invariant |
| Booking.Calendar.RunEffect | src/mods/Calendar.tsx:251-269 | running the effect in place yields `Effect` of the previous state |
| Booking.Calendar.ClickBack | src/mods/Calendar.tsx:290-300 | the back handler followed by the effect yields the back step and keeps the invariant |
| Booking.Calendar.ClickForward | src/mods/Calendar.tsx:301-305 | the forward handler followed by the effect yields the forward step and keeps the invariant |
| Booking.Calendar.ClickCell | src/mods/Calendar.tsx:317-320 | the cell handler followed by the effect yields the cell step and keeps the invariant |
| Booking.Calendar.ClickTime | src/mods/Calendar.tsx:334-337 | the time handler followed by the effect yields the time step and keeps the invariant |
| Booking.Calendar.EditName | src/mods/Calendar.tsx:375-378 | the name field handler yields the name-edit step and keeps the invariant |
| Booking.Calendar.EditEmail | src/mods/Calendar.tsx:379-382 | the email field handler yields the email-edit step and keeps the invariant |
| Booking.Calendar.Submit | src/mods/Calendar.tsx:351-373 | the submit handler followed by the effect yields the submit step and keeps the invariant |
| Booking.Calendar.ApplyIssues | src/mods/Calendar.tsx:366-372 | the `forEach` over the issues routes them in order into `contactErrors` and changes nothing else |

## Left out

- Rendering. The model does not cover JSX, the `Cell` and `Input` markup, or the CSS classes.
- The `title` cell and `monthName`. They are display text from locale formatting (`toLocaleString`).
- `postData` (src/mods/Calendar.tsx:400-416). This is a network call. A valid submit appends the post body to `outbox` instead, and the request URL (the page origin) is not modelled.
- `calendarServer` (src/mods/Calendar.tsx:418-428). This is a database write and is not part of this model.
- The zod schemas. The model states the contact schema's rule itself: a non-empty name, and an email accepted by `isEmail`.
  - `isEmail` is a parameter, because the library's email pattern is not part of this model.
  - The issue messages are the library's default texts.
  - Name length is counted in characters of the string.
- Logging. The `console.log(e)` in the failed-submit branch (src/mods/Calendar.tsx:365) writes to the console only and is not modelled.
- Preact scheduling. The effect runs synchronously right after the handler that changed `page`. The model does not cover batching, re-render timing or the first render before the mount effect.
- The clock. `new Date()` at mount is the `now` parameter. The model has no time of day, time zone or daylight-saving time.
- Dates.NewDate: it handles only the inputs the helper passes, a month in 0..12 and a day from 0 to the month length. The rest of JavaScript's date normalisation is left out, and so are its two-digit-year mapping and its ±100,000,000-day range.
- Grid: `totalRows` and `totalCells` are never read, so they are not modelled.
- Booking: the `date` and `dayOfBooking` props are never read, so they are not modelled.
- Booking: only `availablity` and `startOfTheWeekDay` take part in `{...props, ...example}`. An explicit `undefined` in `example` would override the caller's value. The model treats such a key as absent. `example` has no such key.
