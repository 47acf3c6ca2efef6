/**
 * The month-grid arithmetic of the calendar helper (`DateHelper` in
 * src/mods/Calendar.tsx).  The helper is an object whose getters only read
 * the reference date and the props it was built with, so it is a value here
 * and every getter is a function of it.
 */
module Grid {
  import opened Wrappers
  import opened Dates

  /** Time-slot labels per weekday; a weekday that is absent or maps to [] has no slots. */
  type Availability = map<Weekday, seq<string>>

  /** The props the helper reads (`startOfTheWeekDay?`, `availablity?`). */
  datatype Props = Props(startOfTheWeekDay: Option<Weekday>, availablity: Option<Availability>)

  /** A helper: the reference date and the props. */
  datatype DateHelper = DateHelper(date: Date, props: Props)

  /** One day of the displayed month. */
  datatype DayCell = DayCell(
    isPrev: bool, isFollowing: bool, isToday: bool, isUnavailable: bool,
    dayOfTheWeek: Weekday, day: int, month: int, year: int)

  const SundayLedDays: seq<string> := ["Su", "Mo", "Tu", "We", "Th", "Fr", "Sa"]
  const SundayLedDaysInt: seq<Weekday> := [0, 1, 2, 3, 4, 5, 6]
  const December := 11

  /** Weekday `w` is a key with a non-empty slot list. */
  predicate HasSlots(a: Availability, w: Weekday)
  {
    w in a && |a[w]| > 0
  }

  /** `availablity || {}` */
  function AvailabilityOf(h: DateHelper): Availability
  {
    h.props.availablity.GetOr(map[])
  }

  /** The weekdays from `k` on that have slots, in increasing order (the
      order in which `Object.entries` lists integer keys). */
  function AvailableFrom(a: Availability, k: nat): (r: seq<Weekday>)
    requires k <= 7
    ensures |r| <= 7 - k
    decreases 7 - k
  {
    if k == 7 then []
    else if HasSlots(a, k) then [k] + AvailableFrom(a, k + 1)
    else AvailableFrom(a, k + 1)
  }

  /** `AvailableFrom(a, k)` holds exactly the weekdays from `k` on that have slots. */
  lemma {:induction false} AvailableFromMembers(a: Availability, k: nat)
    requires k <= 7
    ensures forall w: Weekday :: w in AvailableFrom(a, k) <==> k <= w && HasSlots(a, w)
    decreases 7 - k
  {
    if k < 7 {
      AvailableFromMembers(a, k + 1);
    }
  }

  /** ... and lists them in strictly increasing order. */
  lemma {:induction false} AvailableFromAscending(a: Availability, k: nat)
    requires k <= 7
    ensures forall i :: 0 <= i < |AvailableFrom(a, k)| ==> k <= AvailableFrom(a, k)[i]
    ensures forall i, j :: 0 <= i < j < |AvailableFrom(a, k)| ==> AvailableFrom(a, k)[i] < AvailableFrom(a, k)[j]
    decreases 7 - k
  {
    if k < 7 {
      AvailableFromAscending(a, k + 1);
    }
  }

  /** `daysOfTheWeekAvailable`: the keys of `availability` whose slot list
      is non-empty, as numbers. */
  function DaysOfTheWeekAvailable(h: DateHelper): (r: seq<Weekday>)
    ensures |r| <= 7
  {
    AvailableFrom(AvailabilityOf(h), 0)
  }

  /** `daysOfTheWeekAvailable` holds exactly the weekdays with slots, in
      increasing order, so each appears once. */
  lemma DaysOfTheWeekAvailableMembers(h: DateHelper)
    ensures forall w: Weekday :: w in DaysOfTheWeekAvailable(h) <==> HasSlots(AvailabilityOf(h), w)
    ensures forall i, j :: 0 <= i < j < |DaysOfTheWeekAvailable(h)| ==>
      DaysOfTheWeekAvailable(h)[i] < DaysOfTheWeekAvailable(h)[j]
  {
    AvailableFromMembers(AvailabilityOf(h), 0);
    AvailableFromAscending(AvailabilityOf(h), 0);
  }

  /** `startOfTheWeekDay || 0` */
  function StartOfTheWeekDay(h: DateHelper): Weekday
  {
    h.props.startOfTheWeekDay.GetOr(0)
  }

  /** Rotating a week-long sequence left by `s` moves entry `(s + i) % 7` to position `i`. */
  lemma RotateAt<T>(xs: seq<T>, s: Weekday, i: int)
    requires |xs| == 7 && 0 <= i < 7
    ensures (xs[s..] + xs[..s])[i] == xs[(s + i) % 7]
  {
    if i < 7 - s {
      assert (s + i) % 7 == s + i;
    } else {
      assert (s + i) % 7 == s + i - 7;
    }
  }

  lemma SundayLedDaysIntAt(j: int)
    requires 0 <= j < 7
    ensures SundayLedDaysInt[j] == j
  {
    if j == 0 {} else if j == 1 {} else if j == 2 {} else if j == 3 {}
    else if j == 4 {} else if j == 5 {} else {}
  }

  /** `days`: the Sunday-first weekdays rotated left so that the week-start
      day comes first. */
  function Days(h: DateHelper): (r: seq<Weekday>)
    ensures |r| == 7 && r[0] == StartOfTheWeekDay(h)
    ensures r == SundayLedDaysInt[StartOfTheWeekDay(h)..] + SundayLedDaysInt[..StartOfTheWeekDay(h)]
  {
    var s := StartOfTheWeekDay(h);
    if s == 0 then SundayLedDaysInt else SundayLedDaysInt[s..] + SundayLedDaysInt[..s]
  }

  /** Position `i` of `days` holds the weekday `i` days after the week start. */
  lemma DaysAt(h: DateHelper, i: int)
    requires 0 <= i < 7
    ensures Days(h)[i] == (StartOfTheWeekDay(h) + i) % 7
  {
    var s := StartOfTheWeekDay(h);
    RotateAt(SundayLedDaysInt, s, i);
    SundayLedDaysIntAt((s + i) % 7);
  }

  /** Rotating a sequence keeps its elements. */
  lemma RotationMultiset<T>(xs: seq<T>, s: int)
    requires 0 <= s <= |xs|
    ensures multiset(xs[s..] + xs[..s]) == multiset(xs)
  {
    calc {
      multiset(xs[s..] + xs[..s]);
      multiset(xs[s..]) + multiset(xs[..s]);
      multiset(xs[..s] + xs[s..]);
      { assert xs[..s] + xs[s..] == xs; }
      multiset(xs);
    }
  }

  /** `days` is a permutation of the Sunday-first weekdays. */
  lemma DaysIsPermutation(h: DateHelper)
    ensures multiset(Days(h)) == multiset(SundayLedDaysInt)
  {
    RotationMultiset(SundayLedDaysInt, StartOfTheWeekDay(h));
  }

  /** Distinct offsets from the same weekday reach distinct weekdays. */
  lemma DistinctOffsets(s: Weekday, i: int, j: int)
    requires 0 <= i < j < 7
    ensures (s + i) % 7 != (s + j) % 7
  {
    var w: Weekday := (s + i) % 7;
    RotationIndex(s, w, i);
    RotationIndex(s, w, j);
  }

  /** ... so no weekday appears twice in `days`. */
  lemma DaysDistinct(h: DateHelper)
    ensures forall i, j :: 0 <= i < j < 7 ==> Days(h)[i] != Days(h)[j]
  {
    forall i, j | 0 <= i < j < 7 ensures Days(h)[i] != Days(h)[j] {
      DaysAt(h, i);
      DaysAt(h, j);
      DistinctOffsets(StartOfTheWeekDay(h), i, j);
    }
  }

  /** `daysAbrev`: the label of each entry of `days`. */
  function DaysAbrev(h: DateHelper): (r: seq<string>)
    ensures |r| == 7
    ensures forall i :: 0 <= i < 7 ==> r[i] == SundayLedDays[Days(h)[i]]
  {
    var days := Days(h);
    seq(7, i requires 0 <= i < 7 => SundayLedDays[days[i]])
  }

  /** The labels are the Sunday-first labels rotated by the same amount as
      `days`, so the week-start label comes first. */
  lemma DaysAbrevRotation(h: DateHelper)
    ensures DaysAbrev(h)[0] == SundayLedDays[StartOfTheWeekDay(h)]
    ensures DaysAbrev(h) == SundayLedDays[StartOfTheWeekDay(h)..] + SundayLedDays[..StartOfTheWeekDay(h)]
  {
    var s := StartOfTheWeekDay(h);
    var rotated := SundayLedDays[s..] + SundayLedDays[..s];
    forall i | 0 <= i < 7 ensures DaysAbrev(h)[i] == rotated[i] {
      DaysAt(h, i);
      RotateAt(SundayLedDays, s, i);
    }
  }

  predicate IsDecember(h: DateHelper)
  {
    h.date.month == December
  }

  /** `monthDate`, `new Date(year, month + 1, 0)`: the last day of the month. */
  function MonthDate(h: DateHelper): (r: Date)
    requires ValidDate(h.date)
    ensures r == Date(h.date.year, h.date.month, Dates.DaysInMonth(h.date.year, h.date.month))
  {
    NewDate(h.date.year, h.date.month + 1, 0)
  }

  /** `daysInMonth`: the day-of-month of the month's last day. */
  function MonthLength(h: DateHelper): (n: int)
    requires ValidDate(h.date)
    ensures n == Dates.DaysInMonth(h.date.year, h.date.month) && 28 <= n <= 31
  {
    MonthDate(h).day
  }

  /** `nextMonth`, as written: in December it is built from
      `new Date(year + 1, 0, 0)`, which is 31 December of the same year. */
  function NextMonth(h: DateHelper): (r: DateHelper)
    requires ValidDate(h.date)
    ensures r.props == h.props && ValidDate(r.date)
    ensures h.date.month < December ==> r.date == Date(h.date.year, h.date.month + 1, 1)
    ensures h.date.month == December ==> r.date == Date(h.date.year, December, 31)
  {
    if IsDecember(h) then DateHelper(NewDate(h.date.year + 1, 0, 0), h.props)
    else DateHelper(NewDate(h.date.year, h.date.month + 1, 1), h.props)
  }

  /** Outside December `nextMonth` is the day after the month's last day;
      in December it is the month's last day itself, so the view does not
      advance. */
  lemma NextMonthAfterMonthDate(h: DateHelper)
    requires ValidDate(h.date)
    ensures !IsDecember(h) <==> NextMonth(h).date == NextDay(MonthDate(h))
    ensures !IsDecember(h) ==> DayNumber(NextMonth(h).date) == DayNumber(MonthDate(h)) + 1
    ensures IsDecember(h) ==> NextMonth(h).date == MonthDate(h)
  {
    DayNumberSuccessor(MonthDate(h));
  }

  /** `firstOfTheMonthDate`, `new Date(year, month, 1)`. */
  function FirstOfTheMonthDate(h: DateHelper): (r: Date)
    requires ValidDate(h.date)
    ensures r == Date(h.date.year, h.date.month, 1)
  {
    NewDate(h.date.year, h.date.month, 1)
  }

  /** `startingDayOfTheWeek`: the calendar weekday of the 1st, i.e. of
      `FirstOfTheMonthDate(h)`, which is the triple (year, month, 1). */
  function StartingDayOfTheWeek(h: DateHelper): Weekday
    requires ValidDate(h.date)
  {
    DayOfWeek(Date(h.date.year, h.date.month, 1))
  }

  /** The number of blank cells before day 1: how far the 1st's weekday is
      from the week-start day, going forward. */
  function LeadingCount(h: DateHelper): (n: int)
    requires ValidDate(h.date)
    ensures 0 <= n < 7
  {
    (StartingDayOfTheWeek(h) - StartOfTheWeekDay(h)) % 7
  }

  /** Position `k` of the rotated week holds weekday `w` exactly when `k` is
      the forward distance from the week start to `w`. */
  lemma RotationIndex(s: Weekday, w: Weekday, k: int)
    requires 0 <= k < 7
    ensures (s + k) % 7 == w <==> k == (w - s) % 7
  {
    if s + k < 7 {
      assert (s + k) % 7 == s + k;
    } else {
      assert (s + k) % 7 == s + k - 7;
    }
    if w - s >= 0 {
      assert (w - s) % 7 == w - s;
    } else {
      assert (w - s) % 7 == w - s + 7;
    }
  }

  /** `LeadingCount` is the index of the first entry of `days` equal to
      `startingDayOfTheWeek`. */
  lemma {:induction false} LeadingCountIsFirstMatch(h: DateHelper)
    requires ValidDate(h.date)
    ensures Days(h)[LeadingCount(h)] == StartingDayOfTheWeek(h)
    ensures forall j :: 0 <= j < LeadingCount(h) ==> Days(h)[j] != StartingDayOfTheWeek(h)
  {
    var s, w, n := StartOfTheWeekDay(h), StartingDayOfTheWeek(h), LeadingCount(h);
    DaysAt(h, n);
    RotationIndex(s, w, n);
    forall j | 0 <= j < n ensures Days(h)[j] != w {
      DaysAt(h, j);
      RotationIndex(s, w, j);
    }
  }

  /** `numberOfleadingDays`: walks `days`, counting entries until the one
      equal to `startingDayOfTheWeek`; later entries are skipped. */
  method NumberOfLeadingDays(h: DateHelper) returns (leadingDays: int)
    requires ValidDate(h.date)
    ensures leadingDays == LeadingCount(h)
  {
    var days := Days(h);
    var start := StartingDayOfTheWeek(h);
    var matchedDayOfTheWeek := false;
    leadingDays := 0;
    var i := 0;
    while i < |days|
      invariant 0 <= i <= |days|
      invariant matchedDayOfTheWeek ==> 0 <= leadingDays < i && days[leadingDays] == start
      invariant !matchedDayOfTheWeek ==> leadingDays == i
      invariant forall j :: 0 <= j < leadingDays ==> days[j] != start
    {
      if !matchedDayOfTheWeek {
        if days[i] == start {
          matchedDayOfTheWeek := true;
        } else {
          leadingDays := leadingDays + 1;
        }
      }
      i := i + 1;
    }
    LeadingCountIsFirstMatch(h);
  }

  /** `leadingDays`: one empty entry per blank cell. */
  function LeadingDays(h: DateHelper): (r: seq<Option<DayCell>>)
    requires ValidDate(h.date)
    ensures |r| == LeadingCount(h) && forall i :: 0 <= i < |r| ==> r[i] == None
  {
    seq(LeadingCount(h), _ => None)
  }

  /** `today`: the reference date's day-of-month (not the clock's date). */
  function Today(h: DateHelper): int
  {
    h.date.day
  }

  /** `restrictToDOW`: whether `x` is one of 0..6. */
  function RestrictToDOW(x: int): (b: bool)
    ensures b <==> 0 <= x < 7
  {
    x == 0 || x == 1 || x == 2 || x == 3 || x == 4 || x == 5 || x == 6
  }

  /** The cell for day index `dayIndex` of `monthDays`; the `throw` for a
      weekday outside 0..6 is a `Failure`, and it never happens. */
  function MonthDay(h: DateHelper, dayIndex: int): (r: Result<DayCell, string>)
    requires ValidDate(h.date) && 0 <= dayIndex < MonthLength(h)
    ensures r.Success?
  {
    var day := dayIndex + 1;
    var dayOfTheWeek := (dayIndex + StartingDayOfTheWeek(h)) % 7;
    var isToday := day == Today(h);
    var isPrev := !isToday && day < Today(h);
    var isFollowing := !isToday && !isPrev && day > Today(h);
    var available := dayOfTheWeek in DaysOfTheWeekAvailable(h);
    var isUnavailable := isPrev || !available;
    if RestrictToDOW(dayOfTheWeek) then
      Success(DayCell(isPrev, isFollowing, isToday, isUnavailable, dayOfTheWeek, day, h.date.month, h.date.year))
    else
      Failure("dayOfTheWeek is not a proper day")
  }

  /** `monthDays`: one cell per day of the month, in order, carrying the
      helper's month and year. */
  function MonthDays(h: DateHelper): (r: seq<DayCell>)
    requires ValidDate(h.date)
    ensures |r| == Dates.DaysInMonth(h.date.year, h.date.month)
    ensures forall i :: 0 <= i < |r| ==>
      r[i].day == i + 1 && r[i].month == h.date.month && r[i].year == h.date.year &&
      r[i].dayOfTheWeek == (i + StartingDayOfTheWeek(h)) % 7
  {
    seq(MonthLength(h), i requires 0 <= i < MonthLength(h) => MonthDay(h, i).value)
  }

  /** The weekday of day `i + 1` is `i` days on from the weekday of the 1st. */
  lemma WeekdayOfDay(y: int, m: int, i: int, w: int)
    requires 0 <= m < 12 && w == (i + DayOfWeek(Date(y, m, 1))) % 7
    ensures w == DayOfWeek(Date(y, m, i + 1))
  {
    var first := Date(y, m, 1);
    assert DayNumber(Date(y, m, i + 1)) == DayNumber(first) + i;
    ModShift(DayNumber(first) + 4, i);
  }

  /** Cell `i` of `monthDays` is the cell built for day index `i`. */
  lemma CellAt(h: DateHelper, i: int)
    requires ValidDate(h.date) && 0 <= i < MonthLength(h)
    ensures MonthDays(h)[i] == MonthDay(h, i).value
  {
  }

  /** Each cell's weekday is the true calendar weekday of its date, and it
      always passes `restrictToDOW`, so the `throw` is unreachable. */
  lemma CellWeekday(h: DateHelper, i: int)
    requires ValidDate(h.date) && 0 <= i < |MonthDays(h)|
    ensures MonthDays(h)[i].dayOfTheWeek == DayOfWeek(Date(h.date.year, h.date.month, i + 1))
    ensures RestrictToDOW(MonthDays(h)[i].dayOfTheWeek)
  {
    WeekdayOfDay(h.date.year, h.date.month, i, MonthDays(h)[i].dayOfTheWeek);
  }

  /** Each cell is exactly one of past, today and following, by comparing
      its day with the reference day-of-month; it is unavailable exactly
      when it is past or its weekday has no slots. */
  lemma CellFlags(h: DateHelper, i: int)
    requires ValidDate(h.date) && 0 <= i < |MonthDays(h)|
    ensures var c := MonthDays(h)[i];
      && (c.isPrev <==> c.day < Today(h))
      && (c.isToday <==> c.day == Today(h))
      && (c.isFollowing <==> c.day > Today(h))
      && (c.isPrev || c.isToday || c.isFollowing)
      && !(c.isPrev && c.isToday) && !(c.isPrev && c.isFollowing) && !(c.isToday && c.isFollowing)
      && (c.isUnavailable <==> c.isPrev || !HasSlots(AvailabilityOf(h), c.dayOfTheWeek))
  {
    CellAt(h, i);
    DaysOfTheWeekAvailableMembers(h);
  }

  /** Going `(w - s) % 7 + i` days on from weekday `s` lands on the weekday
      `i` days after `w`. */
  lemma ColumnArith(s: Weekday, w: Weekday, i: int, d: int, c: int)
    requires d == (s + ((w - s) % 7 + i) % 7) % 7 && c == (i + w) % 7
    ensures d == c
  {
    ModShift((w - s) % 7 + i, s);
    ModShift(w - s, i + s);
  }

  /** Laid into a 7-column grid after the blank cells, day `i + 1` falls in
      the column whose header weekday is its own weekday. */
  lemma GridColumn(h: DateHelper, i: int)
    requires ValidDate(h.date) && 0 <= i < |MonthDays(h)|
    ensures Days(h)[(LeadingCount(h) + i) % 7] == MonthDays(h)[i].dayOfTheWeek
  {
    var s, w := StartOfTheWeekDay(h), StartingDayOfTheWeek(h);
    var col := (LeadingCount(h) + i) % 7;
    var c := MonthDays(h)[i].dayOfTheWeek;
    assert c == (i + w) % 7;
    DaysAt(h, col);
    ColumnArith(s, w, i, Days(h)[col], c);
  }

  /** In the `nextMonth` view of a month other than December the reference
      date is the 1st, so day 1 is today and no day is past. */
  lemma NextMonthViewHasNoPastDays(h: DateHelper)
    requires ValidDate(h.date) && !IsDecember(h)
    ensures MonthDays(NextMonth(h))[0].isToday
    ensures forall i :: 0 <= i < |MonthDays(NextMonth(h))| ==> !MonthDays(NextMonth(h))[i].isPrev
  {
    var v := NextMonth(h);
    CellFlags(v, 0);
    forall i | 0 <= i < |MonthDays(v)| ensures !MonthDays(v)[i].isPrev {
      CellFlags(v, i);
    }
  }

  /** In December the `nextMonth` view is December again with 31 December
      as today, so days 1 to 30 are past and cannot be picked. */
  lemma DecemberNextMonthViewIsPast(h: DateHelper)
    requires ValidDate(h.date) && IsDecember(h)
    ensures NextMonth(h).date.year == h.date.year && IsDecember(NextMonth(h))
    ensures MonthDays(NextMonth(h))[30].isToday
    ensures forall i :: 0 <= i < 30 ==>
      MonthDays(NextMonth(h))[i].isPrev && MonthDays(NextMonth(h))[i].isUnavailable
  {
    var v := NextMonth(h);
    CellFlags(v, 30);
    forall i | 0 <= i < 30 ensures MonthDays(v)[i].isPrev && MonthDays(v)[i].isUnavailable {
      CellFlags(v, i);
    }
  }
}
