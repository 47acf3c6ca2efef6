/**
 * The booking page of the `Calendar` component (src/mods/Calendar.tsx):
 * a month grid, then the time slots of the picked day, then a contact
 * form, then a thank-you page.  The component keeps its state in several
 * hook cells; here they are one `State` record, each user event is a
 * `Step` on it, and the class `Calendar` holds the same cells as fields
 * and performs the steps in place.  After an event that changes `page`,
 * the page effect runs at once.
 */
module Booking {
  import opened Wrappers
  import opened Dates
  import opened Grid

  datatype Page = StartPage | NextMonthPage | TimePage | ContactPage | DonePage

  /** The two pages that show a month grid. */
  predicate IsMonthPage(p: Page)
  {
    p == StartPage || p == NextMonthPage
  }

  /** The form values, and the error text shown under each field. */
  datatype ContactFields = ContactFields(name: string, email: string)

  /** A validation issue: the path of the offending field and its message. */
  datatype Issue = Issue(path: seq<string>, message: string)

  /** The body handed to `postData` on a valid submit, under `PostKey`. */
  datatype Post = Post(key: string, daySelection: Option<DayCell>, contact: ContactFields, selectedTime: Option<string>)

  datatype State = State(
    page: Page,
    monthSelection: Page,
    date: DateHelper,
    daySelection: Option<DayCell>,
    selectedTime: Option<string>,
    contact: ContactFields,
    contactErrors: ContactFields,
    outbox: seq<Post>)

  datatype Event =
    | BackClick
    | ForwardClick
    | CellClick(cellIndex: int)
    | TimeClick(timeIndex: int)
    | NameInput(name: string)
    | EmailInput(email: string)
    | FormSubmit

  /** What the component is given: the caller's props, the clock's date at
      mount, and the email-format test of the contact schema. */
  datatype Config = Config(props: Props, now: Date, isEmail: string -> bool)

  const PostKey := "@reggi/calendarScheduler"
  const EmailIssueMessage := "Invalid email"
  const NameIssueMessage := "String must contain at least 1 character(s)"
  const NoonSlots: seq<string> := ["12:00pm"]

  /** The built-in `example` props: Monday to Friday at noon, no week start. */
  const Example := Props(None, Some(map[1 := NoonSlots, 2 := NoonSlots, 3 := NoonSlots, 4 := NoonSlots, 5 := NoonSlots]))

  /** The names of the props that `p` defines. */
  function DefinedKeys(p: Props): set<string>
  {
    (if p.startOfTheWeekDay.Some? then {"startOfTheWeekDay"} else {}) +
    (if p.availablity.Some? then {"availablity"} else {})
  }

  /** Object spread `{...a, ...b}` over the props the component reads: a key
      that `b` defines wins. */
  function Spread(a: Props, b: Props): (r: Props)
    ensures DefinedKeys(r) == DefinedKeys(a) + DefinedKeys(b)
  {
    Props(
      if b.startOfTheWeekDay.Some? then b.startOfTheWeekDay else a.startOfTheWeekDay,
      if b.availablity.Some? then b.availablity else a.availablity)
  }

  /** The empty object is a unit of spread on both sides, spread is
      associative and idempotent, and an object defining every key hides
      whatever it is spread over. */
  lemma SpreadLaws(a: Props, b: Props, c: Props)
    ensures Spread(a, Props(None, None)) == a && Spread(Props(None, None), b) == b
    ensures Spread(Spread(a, b), c) == Spread(a, Spread(b, c))
    ensures Spread(Spread(a, b), b) == Spread(a, b)
    ensures b.startOfTheWeekDay.Some? && b.availablity.Some? ==> Spread(a, b) == b
  {
  }

  /** The availability the `times` lookup uses: `{...props, ...example}`. */
  function Availablity(cfg: Config): Option<Availability>
  {
    Spread(cfg.props, Example).availablity
  }

  /** `example` defines `availablity`, so the caller's availability is never used. */
  lemma AvailablityIsExample(cfg: Config)
    ensures Availablity(cfg) == Example.availablity
    ensures forall w: Weekday :: HasSlots(Availablity(cfg).value, w) <==> 1 <= w <= 5
  {
  }

  /** `originalDate`: the helper for the clock's date, built with `example`. */
  function OriginalDate(cfg: Config): (h: DateHelper)
    ensures h.date == cfg.now
    ensures StartOfTheWeekDay(h) == 0 && Days(h) == SundayLedDaysInt
    ensures AvailabilityOf(h) == Example.availablity.value
  {
    DateHelper(cfg.now, Example)
  }

  /** The caller's props never reach `originalDate`: only the clock does. */
  lemma OriginalDateIgnoresProps(cfg: Config, p: Props)
    ensures OriginalDate(cfg) == OriginalDate(cfg.(props := p))
  {
  }

  /** The helper each month page shows: `originalDate` or its `nextMonth`. */
  function MonthView(cfg: Config, p: Page): (h: DateHelper)
    requires ValidDate(cfg.now)
    ensures ValidDate(h.date) && h.props == Example
  {
    if p == NextMonthPage then NextMonth(OriginalDate(cfg)) else OriginalDate(cfg)
  }

  /** `times`: the slots of the selected day's weekday, or none. */
  function Times(availablity: Option<Availability>, daySelection: Option<DayCell>): seq<string>
  {
    if availablity.None? then []
    else if daySelection.None? then []
    else if daySelection.value.dayOfTheWeek in availablity.value then availablity.value[daySelection.value.dayOfTheWeek]
    else []
  }

  /** `times` is empty exactly when the selected day's weekday has no slots. */
  lemma TimesNonEmpty(availablity: Option<Availability>, daySelection: Option<DayCell>)
    ensures |Times(availablity, daySelection)| > 0 <==>
      availablity.Some? && daySelection.Some? && HasSlots(availablity.value, daySelection.value.dayOfTheWeek)
  {
  }

  // ---------------------------------------------------------------------
  // The contact schema and the routing of its issues
  // ---------------------------------------------------------------------

  /** The contact schema accepts a well-formed email and a non-empty name. */
  predicate ContactValid(isEmail: string -> bool, c: ContactFields)
  {
    isEmail(c.email) && |c.name| >= 1
  }

  /** The issues of parsing `c`, in schema order: email first, then name. */
  function ParseContact(isEmail: string -> bool, c: ContactFields): (issues: seq<Issue>)
    ensures |issues| == 0 <==> ContactValid(isEmail, c)
    ensures |issues| <= 2
    ensures forall k :: 0 <= k < |issues| ==>
      (issues[k] == Issue(["email"], EmailIssueMessage) && !isEmail(c.email)) ||
      (issues[k] == Issue(["name"], NameIssueMessage) && |c.name| == 0)
  {
    (if isEmail(c.email) then [] else [Issue(["email"], EmailIssueMessage)]) +
    (if |c.name| >= 1 then [] else [Issue(["name"], NameIssueMessage)])
  }

  /** One issue: a path naming `email` sets the email error, otherwise one
      naming `name` sets the name error, otherwise nothing changes. */
  function RouteIssue(errors: ContactFields, issue: Issue): ContactFields
  {
    if "email" in issue.path then errors.(email := issue.message)
    else if "name" in issue.path then errors.(name := issue.message)
    else errors
  }

  /** The issues routed one after another, in order. */
  function RouteIssues(errors: ContactFields, issues: seq<Issue>): ContactFields
    decreases |issues|
  {
    if |issues| == 0 then errors
    else RouteIssue(RouteIssues(errors, issues[..|issues| - 1]), issues[|issues| - 1])
  }

  predicate SetsEmail(issue: Issue)
  {
    "email" in issue.path
  }

  predicate SetsName(issue: Issue)
  {
    "email" !in issue.path && "name" in issue.path
  }

  /** No issue after position `k` sets the email error. */
  predicate LastEmailIssue(issues: seq<Issue>, k: int)
  {
    forall j :: 0 <= j < |issues| && k < j ==> !SetsEmail(issues[j])
  }

  /** No issue after position `k` sets the name error. */
  predicate LastNameIssue(issues: seq<Issue>, k: int)
  {
    forall j :: 0 <= j < |issues| && k < j ==> !SetsName(issues[j])
  }

  /** With no issue for it, the email error keeps its old text. */
  lemma {:induction false} RouteIssuesKeepsEmail(errors: ContactFields, issues: seq<Issue>)
    requires forall k :: 0 <= k < |issues| ==> !SetsEmail(issues[k])
    ensures RouteIssues(errors, issues).email == errors.email
    decreases |issues|
  {
    if |issues| > 0 {
      var n := |issues| - 1;
      assert forall k :: 0 <= k < n ==> issues[..n][k] == issues[k];
      RouteIssuesKeepsEmail(errors, issues[..n]);
    }
  }

  /** The email error ends up with the message of the last issue that names `email`. */
  lemma {:induction false} RouteIssuesLastEmail(errors: ContactFields, issues: seq<Issue>, k: int)
    requires 0 <= k < |issues| && SetsEmail(issues[k]) && LastEmailIssue(issues, k)
    ensures RouteIssues(errors, issues).email == issues[k].message
    decreases |issues|
  {
    var n := |issues| - 1;
    if k < n {
      var init := issues[..n];
      assert init[k] == issues[k];
      assert LastEmailIssue(init, k) by {
        forall j | k < j < |init| ensures !SetsEmail(init[j]) {
          assert init[j] == issues[j];
        }
      }
      RouteIssuesLastEmail(errors, init, k);
      assert !SetsEmail(issues[n]);
    }
  }

  /** With no issue for it, the name error keeps its old text. */
  lemma {:induction false} RouteIssuesKeepsName(errors: ContactFields, issues: seq<Issue>)
    requires forall k :: 0 <= k < |issues| ==> !SetsName(issues[k])
    ensures RouteIssues(errors, issues).name == errors.name
    decreases |issues|
  {
    if |issues| > 0 {
      var n := |issues| - 1;
      assert forall k :: 0 <= k < n ==> issues[..n][k] == issues[k];
      RouteIssuesKeepsName(errors, issues[..n]);
    }
  }

  /** The name error ends up with the message of the last issue that names
      `name` and not `email`. */
  lemma {:induction false} RouteIssuesLastName(errors: ContactFields, issues: seq<Issue>, k: int)
    requires 0 <= k < |issues| && SetsName(issues[k]) && LastNameIssue(issues, k)
    ensures RouteIssues(errors, issues).name == issues[k].message
    decreases |issues|
  {
    var n := |issues| - 1;
    if k < n {
      var init := issues[..n];
      assert init[k] == issues[k];
      assert LastNameIssue(init, k) by {
        forall j | k < j < |init| ensures !SetsName(init[j]) {
          assert init[j] == issues[j];
        }
      }
      RouteIssuesLastName(errors, init, k);
      assert !SetsName(issues[n]);
    }
  }

  /** The errors shown after a failed parse: the schema's message under
      each failing field, the old text under a passing one. */
  function ShownErrors(errors: ContactFields, emailOk: bool, nameOk: bool): ContactFields
  {
    ContactFields(
      if nameOk then errors.name else NameIssueMessage,
      if emailOk then errors.email else EmailIssueMessage)
  }

  /** Routing the issues of a parse yields `ShownErrors`. */
  lemma ParseContactErrors(isEmail: string -> bool, c: ContactFields, errors: ContactFields)
    ensures RouteIssues(errors, ParseContact(isEmail, c)) == ShownErrors(errors, isEmail(c.email), |c.name| >= 1)
  {
    var issues := ParseContact(isEmail, c);
    if isEmail(c.email) {
      RouteIssuesKeepsEmail(errors, issues);
    } else {
      assert issues[0] == Issue(["email"], EmailIssueMessage);
      RouteIssuesLastEmail(errors, issues, 0);
    }
    if |c.name| >= 1 {
      RouteIssuesKeepsName(errors, issues);
    } else {
      var n := |issues| - 1;
      assert issues[n] == Issue(["name"], NameIssueMessage);
      RouteIssuesLastName(errors, issues, n);
    }
  }

  // ---------------------------------------------------------------------
  // The state machine
  // ---------------------------------------------------------------------

  /** The hook cells as first rendered. */
  function Mounted(cfg: Config): State
  {
    State(StartPage, StartPage, OriginalDate(cfg), None, None, ContactFields("", ""), ContactFields("", ""), [])
  }

  /** The page effect: entering a month page shows that month, clears the
      day selection and remembers the month; other pages change no state
      the model keeps. */
  function Effect(cfg: Config, s: State): (r: State)
    requires ValidDate(cfg.now)
    ensures r.page == s.page
    ensures IsMonthPage(s.page) ==>
      r == s.(date := MonthView(cfg, s.page), daySelection := None, monthSelection := s.page)
    ensures !IsMonthPage(s.page) ==> r == s
  {
    match s.page
    case NextMonthPage => s.(date := NextMonth(OriginalDate(cfg)), daySelection := None, monthSelection := NextMonthPage)
    case StartPage => s.(date := OriginalDate(cfg), daySelection := None, monthSelection := StartPage)
    case _ => s
  }

  /** The effect runs only when `page` changed. */
  function Commit(cfg: Config, before: Page, s: State): State
    requires ValidDate(cfg.now)
  {
    if s.page != before then Effect(cfg, s) else s
  }

  /** The state after mounting, once the effect has run for `start`. */
  function Init(cfg: Config): (s: State)
    requires ValidDate(cfg.now)
    ensures s == Mounted(cfg)
  {
    Effect(cfg, Mounted(cfg))
  }

  /** The events the rendered page offers: the arrows always, day cells on
      a month page, time slots on `time`, the form on `contact`. */
  predicate Enabled(cfg: Config, s: State, e: Event)
  {
    match e
    case BackClick => true
    case ForwardClick => true
    case CellClick(i) => IsMonthPage(s.page) && ValidDate(s.date.date) && 0 <= i < |MonthDays(s.date)|
    case TimeClick(k) => s.page == TimePage && 0 <= k < |Times(Availablity(cfg), s.daySelection)|
    case NameInput(_) => s.page == ContactPage
    case EmailInput(_) => s.page == ContactPage
    case FormSubmit => s.page == ContactPage
  }

  /** What each handler sets directly, before any effect. */
  function Handle(cfg: Config, s: State, e: Event): State
    requires Enabled(cfg, s, e)
  {
    match e
    case BackClick =>
      (match s.page
       case NextMonthPage => s.(page := StartPage)
       case TimePage => s.(page := s.monthSelection)
       case ContactPage => s.(page := TimePage)
       case _ => s)
    case ForwardClick =>
      if s.page == StartPage then s.(page := NextMonthPage) else s
    case CellClick(i) =>
      var cell := MonthDays(s.date)[i];
      if cell.isUnavailable then s else s.(page := TimePage, daySelection := Some(cell))
    case TimeClick(k) =>
      s.(selectedTime := Some(Times(Availablity(cfg), s.daySelection)[k]), page := ContactPage)
    case NameInput(v) => s.(contact := s.contact.(name := v))
    case EmailInput(v) => s.(contact := s.contact.(email := v))
    case FormSubmit =>
      var issues := ParseContact(cfg.isEmail, s.contact);
      if |issues| == 0 then
        s.(page := DonePage, outbox := s.outbox + [Post(PostKey, s.daySelection, s.contact, s.selectedTime)])
      else
        s.(contactErrors := RouteIssues(s.contactErrors, issues))
  }

  /** One event: the handler, then the effect if the page changed. */
  function Step(cfg: Config, s: State, e: Event): State
    requires ValidDate(cfg.now) && Enabled(cfg, s, e)
  {
    Commit(cfg, s.page, Handle(cfg, s, e))
  }

  /** The day `c` is a pickable cell of the month `h` shows. */
  predicate Selectable(h: DateHelper, c: DayCell)
  {
    ValidDate(h.date) && c in MonthDays(h) && !c.isUnavailable
  }

  /** What holds of every state the page can reach. */
  predicate Inv(cfg: Config, s: State)
  {
    && ValidDate(cfg.now)
    && IsMonthPage(s.monthSelection)
    && s.date == MonthView(cfg, s.monthSelection)
    && (IsMonthPage(s.page) ==> s.monthSelection == s.page && s.daySelection.None?)
    && (!IsMonthPage(s.page) ==> s.daySelection.Some? && Selectable(s.date, s.daySelection.value))
    && ((s.page == ContactPage || s.page == DonePage) ==>
          s.selectedTime.Some? && s.selectedTime.value in Times(Availablity(cfg), s.daySelection))
    && (s.page == DonePage <==> |s.outbox| == 1)
    && |s.outbox| <= 1
    && (s.page == DonePage ==>
          s.outbox[0] == Post(PostKey, s.daySelection, s.contact, s.selectedTime) && ContactValid(cfg.isEmail, s.contact))
  }

  lemma InitSatisfiesInv(cfg: Config)
    requires ValidDate(cfg.now)
    ensures Inv(cfg, Init(cfg))
    ensures Init(cfg).page == StartPage && Init(cfg).date == OriginalDate(cfg)
  {
  }

  /** A pickable day of a month view always has time slots, so `time`
      never shows the "no times" message. */
  lemma SelectableHasTimes(cfg: Config, h: DateHelper, c: DayCell)
    requires h.props == Example && Selectable(h, c)
    ensures |Times(Availablity(cfg), Some(c))| > 0
  {
    var i :| 0 <= i < |MonthDays(h)| && MonthDays(h)[i] == c;
    CellFlags(h, i);
    AvailablityIsExample(cfg);
  }

  lemma BackPreservesInv(cfg: Config, s: State)
    requires Inv(cfg, s)
    ensures Inv(cfg, Step(cfg, s, BackClick))
  {
  }

  lemma ForwardPreservesInv(cfg: Config, s: State)
    requires Inv(cfg, s)
    ensures Inv(cfg, Step(cfg, s, ForwardClick))
  {
  }

  lemma CellClickPreservesInv(cfg: Config, s: State, i: int)
    requires Inv(cfg, s) && Enabled(cfg, s, CellClick(i))
    ensures Inv(cfg, Step(cfg, s, CellClick(i)))
  {
  }

  lemma TimeClickPreservesInv(cfg: Config, s: State, k: int)
    requires Inv(cfg, s) && Enabled(cfg, s, TimeClick(k))
    ensures Inv(cfg, Step(cfg, s, TimeClick(k)))
  {
  }

  lemma SubmitPreservesInv(cfg: Config, s: State)
    requires Inv(cfg, s) && Enabled(cfg, s, FormSubmit)
    ensures Inv(cfg, Step(cfg, s, FormSubmit))
  {
  }

  /** Every enabled event keeps the invariant. */
  lemma StepPreservesInv(cfg: Config, s: State, e: Event)
    requires Inv(cfg, s) && Enabled(cfg, s, e)
    ensures Inv(cfg, Step(cfg, s, e))
  {
    match e
    case BackClick => BackPreservesInv(cfg, s);
    case ForwardClick => ForwardPreservesInv(cfg, s);
    case CellClick(i) => CellClickPreservesInv(cfg, s, i);
    case TimeClick(k) => TimeClickPreservesInv(cfg, s, k);
    case NameInput(_) =>
    case EmailInput(_) =>
    case FormSubmit => SubmitPreservesInv(cfg, s);
  }

  // ---------------------------------------------------------------------
  // What each event does
  // ---------------------------------------------------------------------

  /** The forward arrow acts only on `start`, moving to the next month. */
  lemma ForwardOnlyFromStart(cfg: Config, s: State)
    requires ValidDate(cfg.now)
    ensures s.page != StartPage ==> Step(cfg, s, ForwardClick) == s
    ensures s.page == StartPage ==> (Step(cfg, s, ForwardClick) ==
      s.(page := NextMonthPage, monthSelection := NextMonthPage, date := NextMonth(OriginalDate(cfg)), daySelection := None))
  {
  }

  /** The back arrow: `nextMonth` to `start`, `time` to the remembered month
      page, `contact` to `time`; nothing on `start` and `done`.  Going back
      from `time` lands on a month page and so drops the picked day. */
  lemma BackNavigation(cfg: Config, s: State)
    requires Inv(cfg, s)
    ensures s.page == StartPage || s.page == DonePage ==> Step(cfg, s, BackClick) == s
    ensures s.page == NextMonthPage ==> (Step(cfg, s, BackClick) ==
      s.(page := StartPage, monthSelection := StartPage, date := OriginalDate(cfg)))
    ensures s.page == TimePage ==> (Step(cfg, s, BackClick) ==
      s.(page := s.monthSelection, daySelection := None))
    ensures s.page == ContactPage ==> Step(cfg, s, BackClick) == s.(page := TimePage)
  {
  }

  /** Clicking a past or slot-less day changes nothing. */
  lemma UnavailableCellIgnored(cfg: Config, s: State, i: int)
    requires ValidDate(cfg.now) && Enabled(cfg, s, CellClick(i)) && MonthDays(s.date)[i].isUnavailable
    ensures Step(cfg, s, CellClick(i)) == s
  {
  }

  /** Clicking a pickable day selects it and shows its times, of which there
      is at least one. */
  lemma AvailableCellSelects(cfg: Config, s: State, i: int)
    requires Inv(cfg, s) && Enabled(cfg, s, CellClick(i)) && !MonthDays(s.date)[i].isUnavailable
    ensures Step(cfg, s, CellClick(i)) == s.(page := TimePage, daySelection := Some(MonthDays(s.date)[i]))
    ensures |Times(Availablity(cfg), Step(cfg, s, CellClick(i)).daySelection)| > 0
  {
    SelectableHasTimes(cfg, s.date, MonthDays(s.date)[i]);
  }

  /** Clicking the `k`th slot selects it and moves to the form. */
  lemma TimeClickSelects(cfg: Config, s: State, k: int)
    requires ValidDate(cfg.now) && Enabled(cfg, s, TimeClick(k))
    ensures Step(cfg, s, TimeClick(k)) ==
      s.(selectedTime := Some(Times(Availablity(cfg), s.daySelection)[k]), page := ContactPage)
    ensures Step(cfg, s, TimeClick(k)).selectedTime.value in Times(Availablity(cfg), s.daySelection)
  {
  }

  /** The `time` page always has a slot to offer. */
  lemma TimePageOffersTimes(cfg: Config, s: State)
    requires Inv(cfg, s) && s.page == TimePage
    ensures |Times(Availablity(cfg), s.daySelection)| > 0
  {
    SelectableHasTimes(cfg, s.date, s.daySelection.value);
  }

  /** Typing in a field changes only that field of the form. */
  lemma FieldEditsOnlyContact(cfg: Config, s: State, v: string)
    requires ValidDate(cfg.now) && s.page == ContactPage
    ensures Step(cfg, s, NameInput(v)) == s.(contact := ContactFields(v, s.contact.email))
    ensures Step(cfg, s, EmailInput(v)) == s.(contact := ContactFields(s.contact.name, v))
  {
  }

  /** A valid form moves to `done` and emits exactly one post carrying the
      picked day, the form and the picked time. */
  lemma ValidSubmit(cfg: Config, s: State)
    requires ValidDate(cfg.now) && s.page == ContactPage && ContactValid(cfg.isEmail, s.contact)
    ensures Step(cfg, s, FormSubmit) ==
      s.(page := DonePage, outbox := s.outbox + [Post(PostKey, s.daySelection, s.contact, s.selectedTime)])
  {
  }

  /** An invalid form stays on `contact`, posts nothing, and shows the
      schema's message under each failing field; a field that passes keeps
      whatever error it showed before. */
  lemma InvalidSubmit(cfg: Config, s: State)
    requires ValidDate(cfg.now) && s.page == ContactPage && !ContactValid(cfg.isEmail, s.contact)
    ensures Step(cfg, s, FormSubmit) == s.(contactErrors := RouteIssues(s.contactErrors, ParseContact(cfg.isEmail, s.contact)))
    ensures Step(cfg, s, FormSubmit).contactErrors ==
      ShownErrors(s.contactErrors, cfg.isEmail(s.contact.email), |s.contact.name| >= 1)
  {
    ParseContactErrors(cfg.isEmail, s.contact, s.contactErrors);
  }

  /** Nothing the `done` page offers changes the state. */
  lemma DoneIsFinal(cfg: Config, s: State, e: Event)
    requires ValidDate(cfg.now) && s.page == DonePage && Enabled(cfg, s, e)
    ensures Step(cfg, s, e) == s
  {
  }

  /** The one post of a finished booking names a pickable day of the month
      shown, one of that day's slots, and a contact the schema accepts. */
  lemma PostIsComplete(cfg: Config, s: State)
    requires Inv(cfg, s) && s.page == DonePage
    ensures |s.outbox| == 1
    ensures s.outbox[0].daySelection.Some? && Selectable(s.date, s.outbox[0].daySelection.value)
    ensures s.outbox[0].selectedTime.Some? &&
      s.outbox[0].selectedTime.value in Times(Availablity(cfg), s.outbox[0].daySelection)
    ensures ContactValid(cfg.isEmail, s.outbox[0].contact)
  {
  }

  // ---------------------------------------------------------------------
  // The component, with its state cells as fields
  // ---------------------------------------------------------------------

  class Calendar {
    const cfg: Config
    var page: Page
    var monthSelection: Page
    var date: DateHelper
    var daySelection: Option<DayCell>
    var selectedTime: Option<string>
    var contact: ContactFields
    var contactErrors: ContactFields
    var outbox: seq<Post>

    /** The state cells as one record. */
    function Snapshot(): State
      reads this
    {
      State(page, monthSelection, date, daySelection, selectedTime, contact, contactErrors, outbox)
    }

    ghost predicate Valid()
      reads this
    {
      Inv(cfg, Snapshot())
    }

    /** Mounting: the initial cells, then the effect for `start`. */
    constructor (props: Props, now: Date, isEmail: string -> bool)
      requires ValidDate(now)
      ensures cfg == Config(props, now, isEmail)
      ensures Valid() && Snapshot() == Init(cfg)
    {
      cfg := Config(props, now, isEmail);
      page := StartPage;
      monthSelection := StartPage;
      date := DateHelper(now, Example);
      daySelection := None;
      selectedTime := None;
      contact := ContactFields("", "");
      contactErrors := ContactFields("", "");
      outbox := [];
      new;
      RunEffect();
      InitSatisfiesInv(cfg);
    }

    /** The page effect for the current page. */
    method RunEffect()
      requires ValidDate(cfg.now)
      modifies this
      ensures Snapshot() == Effect(cfg, old(Snapshot()))
    {
      if page == NextMonthPage {
        date := NextMonth(DateHelper(cfg.now, Example));
        daySelection := None;
        monthSelection := NextMonthPage;
      } else if page == StartPage {
        date := DateHelper(cfg.now, Example);
        daySelection := None;
        monthSelection := StartPage;
      }
    }

    /** The back arrow. */
    method ClickBack()
      requires Valid()
      modifies this
      ensures Valid() && Snapshot() == Step(cfg, old(Snapshot()), BackClick)
    {
      ghost var s := Snapshot();
      var before := page;
      if page == NextMonthPage {
        page := StartPage;
      } else if page == TimePage {
        page := monthSelection;
      } else if page == ContactPage {
        page := TimePage;
      }
      if page != before {
        RunEffect();
      }
      StepPreservesInv(cfg, s, BackClick);
    }

    /** The forward arrow. */
    method ClickForward()
      requires Valid()
      modifies this
      ensures Valid() && Snapshot() == Step(cfg, old(Snapshot()), ForwardClick)
    {
      ghost var s := Snapshot();
      var before := page;
      if page == StartPage {
        page := NextMonthPage;
      }
      if page != before {
        RunEffect();
      }
      StepPreservesInv(cfg, s, ForwardClick);
    }

    /** A click on the day cell at `i` of the shown month. */
    method ClickCell(i: int)
      requires Valid() && Enabled(cfg, Snapshot(), CellClick(i))
      modifies this
      ensures Valid() && Snapshot() == Step(cfg, old(Snapshot()), CellClick(i))
    {
      ghost var s := Snapshot();
      var before := page;
      var cell := MonthDays(date)[i];
      if !cell.isUnavailable {
        page := TimePage;
        daySelection := Some(cell);
      }
      if page != before {
        RunEffect();
      }
      StepPreservesInv(cfg, s, CellClick(i));
    }

    /** A click on the `k`th time slot. */
    method ClickTime(k: int)
      requires Valid() && Enabled(cfg, Snapshot(), TimeClick(k))
      modifies this
      ensures Valid() && Snapshot() == Step(cfg, old(Snapshot()), TimeClick(k))
    {
      ghost var s := Snapshot();
      var before := page;
      selectedTime := Some(Times(Availablity(cfg), daySelection)[k]);
      page := ContactPage;
      if page != before {
        RunEffect();
      }
      StepPreservesInv(cfg, s, TimeClick(k));
    }

    /** Typing in the name field. */
    method EditName(v: string)
      requires Valid() && page == ContactPage
      modifies this
      ensures Valid() && Snapshot() == Step(cfg, old(Snapshot()), NameInput(v))
    {
      ghost var s := Snapshot();
      contact := contact.(name := v);
      StepPreservesInv(cfg, s, NameInput(v));
    }

    /** Typing in the email field. */
    method EditEmail(v: string)
      requires Valid() && page == ContactPage
      modifies this
      ensures Valid() && Snapshot() == Step(cfg, old(Snapshot()), EmailInput(v))
    {
      ghost var s := Snapshot();
      contact := contact.(email := v);
      StepPreservesInv(cfg, s, EmailInput(v));
    }

    /** Submitting the form. */
    method Submit()
      requires Valid() && page == ContactPage
      modifies this
      ensures Valid() && Snapshot() == Step(cfg, old(Snapshot()), FormSubmit)
    {
      ghost var s := Snapshot();
      var before := page;
      var issues := ParseContact(cfg.isEmail, contact);
      if |issues| == 0 {
        page := DonePage;
        outbox := outbox + [Post(PostKey, daySelection, contact, selectedTime)];
      } else {
        ApplyIssues(issues);
      }
      if page != before {
        RunEffect();
      }
      StepPreservesInv(cfg, s, FormSubmit);
    }

    /** The `forEach` over the issues, routing each to its error field. */
    method ApplyIssues(issues: seq<Issue>)
      modifies this
      ensures Snapshot() == old(Snapshot()).(contactErrors := RouteIssues(old(contactErrors), issues))
    {
      var i := 0;
      while i < |issues|
        invariant 0 <= i <= |issues|
        invariant Snapshot() == old(Snapshot()).(contactErrors := RouteIssues(old(contactErrors), issues[..i]))
      {
        var issue := issues[i];
        if "email" in issue.path {
          contactErrors := contactErrors.(email := issue.message);
        } else if "name" in issue.path {
          contactErrors := contactErrors.(name := issue.message);
        }
        assert issues[..i + 1][..i] == issues[..i];
        i := i + 1;
      }
      assert issues[..|issues|] == issues;
    }
  }
}
