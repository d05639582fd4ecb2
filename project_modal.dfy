// The project editor of components/ProjectModal.tsx: the blank form, the
// role permissions, the guarded field handlers, month navigation and the
// decorated month grid.
module ProjectModal {
  import opened Wrappers
  import opened Types
  import opened Calendar
  import opened Lookup

  /** A new project ends this many days after it starts. */
  const DefaultSpanDays: int := 30
  const Unassigned: string := "Не назначен"

  /** `emptyProject`, a module-level constant: its dates are read from the
      clock once, when the page loads, and `loadDay` is that day. */
  function EmptyProject(loadDay: Day): (p: Project)
    ensures p.id == "" && p.name == "" && p.stage == Queue
    ensures p.startDate == loadDay && p.endDate == loadDay + DefaultSpanDays
    ensures p.architectId == "" && p.designerId == ""
    ensures forall m :: MilestoneDate(p.dates, m) == NoDate
    ensures forall k :: Link(p.links, k) == ""
    ensures p.financials.area == 0.0 && p.financials.costPerMeterStudio == 0.0
            && p.financials.costPerMeterArch == 0.0
    ensures p.financials.prepaymentDate == "" && p.financials.paymentDate == ""
    ensures p.financials.prepaymentArchitectId.None? && p.financials.paymentArchitectId.None?
    ensures p.technicalTask == Some("") && p.coverPhotoUrl.None? && p.notes.None?
  {
    Project(
      "", "", loadDay, loadDay + DefaultSpanDays, Queue, "", "",
      ProjectDates(NoDate, NoDate, NoDate, NoDate, NoDate),
      ProjectLinks("", "", "", "", "", ""),
      ProjectFinancials(0.0, 0.0, 0.0, "", "", None, None),
      None, Some(""), None)
  }

  /** What the editor holds when it opens: the project being edited, or a
      blank project under a fresh id; and the month the calendar shows.
      The clock is read twice: `loadDay` fixed the blank project's dates
      when the page loaded, `today` is the day the editor opens. */
  function OpenForm(initial: Option<Project>, loadDay: Day, today: Day, freshId: string): (r: (Project, YearMonth))
    ensures initial.Some? ==> r.0 == initial.value && InMonth(r.1, initial.value.startDate)
    ensures initial.None? ==> r.0 == EmptyProject(loadDay).(id := freshId) && InMonth(r.1, today)
  {
    if initial.Some? then (initial.value, MonthOf(initial.value.startDate))
    else (EmptyProject(loadDay).(id := freshId), MonthOf(today))
  }

  /** A blank project need not start in the month the calendar shows: a
      page loaded on the last day of a month and an editor opened the next
      day show the next month, while the project starts the day before. */
  lemma {:induction false} BlankStartsBeforeShownMonth(loadDay: Day, freshId: string)
    requires MonthOf(loadDay + 1) != MonthOf(loadDay)
    ensures var r := OpenForm(None, loadDay, loadDay + 1, freshId);
            InMonth(r.1, loadDay + 1) && !InMonth(r.1, r.0.startDate)
  {
    var r := OpenForm(None, loadDay, loadDay + 1, freshId);
    if InMonth(r.1, r.0.startDate) {
      MonthOfUnique(r.1, loadDay);
    }
  }

  predicate CanEditDatesAndStage(role: UserRole)
  {
    role == Admin || role == Architect
  }

  predicate CanEditLinks(role: UserRole)
  {
    role == Admin || role == Architect || role == Designer
  }

  predicate CanEditUsers(role: UserRole)
  {
    role == Admin
  }

  /** The permissions are nested, and only the client may not edit links. */
  lemma PermissionsNested(role: UserRole)
    ensures CanEditUsers(role) ==> CanEditDatesAndStage(role)
    ensures CanEditDatesAndStage(role) ==> CanEditLinks(role)
    ensures CanEditLinks(role) <==> role != Client
    ensures CanEditUsers(role) <==> role == Admin
  {
  }

  /** The keys of Project. */
  datatype ProjectField =
    | IdField | NameField | StartDateField | EndDateField | StageField
    | ArchitectIdField | DesignerIdField | DatesField | LinksField | FinancialsField
    | CoverPhotoUrlField | TechnicalTaskField | NotesField

  /** `handleChange(field, value)`: a key with a value of its type. */
  datatype ProjectEdit =
    | SetId(id: string)
    | SetName(name: string)
    | SetStartDate(startDate: Day)
    | SetEndDate(endDate: Day)
    | SetStage(stage: ProjectStage)
    | SetArchitectId(architectId: string)
    | SetDesignerId(designerId: string)
    | SetDates(dates: ProjectDates)
    | SetLinks(links: ProjectLinks)
    | SetFinancials(financials: ProjectFinancials)
    | SetCoverPhotoUrl(coverPhotoUrl: Option<string>)
    | SetTechnicalTask(technicalTask: Option<string>)
    | SetNotes(notes: Option<string>)

  function FieldOf(e: ProjectEdit): ProjectField
  {
    match e
    case SetId(_) => IdField
    case SetName(_) => NameField
    case SetStartDate(_) => StartDateField
    case SetEndDate(_) => EndDateField
    case SetStage(_) => StageField
    case SetArchitectId(_) => ArchitectIdField
    case SetDesignerId(_) => DesignerIdField
    case SetDates(_) => DatesField
    case SetLinks(_) => LinksField
    case SetFinancials(_) => FinancialsField
    case SetCoverPhotoUrl(_) => CoverPhotoUrlField
    case SetTechnicalTask(_) => TechnicalTaskField
    case SetNotes(_) => NotesField
  }

  /** `p` holds the value the edit carries. */
  predicate Holds(p: Project, e: ProjectEdit)
  {
    match e
    case SetId(v) => p.id == v
    case SetName(v) => p.name == v
    case SetStartDate(v) => p.startDate == v
    case SetEndDate(v) => p.endDate == v
    case SetStage(v) => p.stage == v
    case SetArchitectId(v) => p.architectId == v
    case SetDesignerId(v) => p.designerId == v
    case SetDates(v) => p.dates == v
    case SetLinks(v) => p.links == v
    case SetFinancials(v) => p.financials == v
    case SetCoverPhotoUrl(v) => p.coverPhotoUrl == v
    case SetTechnicalTask(v) => p.technicalTask == v
    case SetNotes(v) => p.notes == v
  }

  /** `p` and `q` agree on every key except possibly `f`. */
  predicate AgreeExcept(p: Project, q: Project, f: ProjectField)
  {
    && (f == IdField || p.id == q.id)
    && (f == NameField || p.name == q.name)
    && (f == StartDateField || p.startDate == q.startDate)
    && (f == EndDateField || p.endDate == q.endDate)
    && (f == StageField || p.stage == q.stage)
    && (f == ArchitectIdField || p.architectId == q.architectId)
    && (f == DesignerIdField || p.designerId == q.designerId)
    && (f == DatesField || p.dates == q.dates)
    && (f == LinksField || p.links == q.links)
    && (f == FinancialsField || p.financials == q.financials)
    && (f == CoverPhotoUrlField || p.coverPhotoUrl == q.coverPhotoUrl)
    && (f == TechnicalTaskField || p.technicalTask == q.technicalTask)
    && (f == NotesField || p.notes == q.notes)
  }

  /** `{ ...p, [field]: value }`. */
  function Apply(p: Project, e: ProjectEdit): Project
  {
    match e
    case SetId(v) => p.(id := v)
    case SetName(v) => p.(name := v)
    case SetStartDate(v) => p.(startDate := v)
    case SetEndDate(v) => p.(endDate := v)
    case SetStage(v) => p.(stage := v)
    case SetArchitectId(v) => p.(architectId := v)
    case SetDesignerId(v) => p.(designerId := v)
    case SetDates(v) => p.(dates := v)
    case SetLinks(v) => p.(links := v)
    case SetFinancials(v) => p.(financials := v)
    case SetCoverPhotoUrl(v) => p.(coverPhotoUrl := v)
    case SetTechnicalTask(v) => p.(technicalTask := v)
    case SetNotes(v) => p.(notes := v)
  }

  /** The guard of handleChange: admins and architects may set any key,
      everybody else only the links and the technical brief. */
  predicate ChangeAllowed(role: UserRole, f: ProjectField)
  {
    !(role != Admin && f != LinksField && f != TechnicalTaskField && role != Architect)
  }

  /** handleChange: a disallowed change is a no-op; an allowed one sets
      exactly the named key. */
  function HandleChange(role: UserRole, p: Project, e: ProjectEdit): (r: Project)
    ensures !ChangeAllowed(role, FieldOf(e)) ==> r == p
    ensures ChangeAllowed(role, FieldOf(e)) ==> Holds(r, e) && AgreeExcept(p, r, FieldOf(e))
  {
    if !ChangeAllowed(role, FieldOf(e)) then p else Apply(p, e)
  }

  /** Who may change what through handleChange. */
  lemma ChangeAllowedByRole(role: UserRole, f: ProjectField)
    ensures CanEditDatesAndStage(role) ==> ChangeAllowed(role, f)
    ensures !CanEditDatesAndStage(role) ==> (ChangeAllowed(role, f) <==> f == LinksField || f == TechnicalTaskField)
  {
  }

  /** Repeating a change changes nothing more. */
  lemma HandleChangeIdempotent(role: UserRole, p: Project, e: ProjectEdit)
    ensures HandleChange(role, HandleChange(role, p, e), e) == HandleChange(role, p, e)
  {
  }

  /** handleDateChange: sets exactly one milestone, given date permission. */
  function HandleDateChange(role: UserRole, p: Project, m: Milestone, value: DateStr): (r: Project)
    ensures !CanEditDatesAndStage(role) ==> r == p
    ensures CanEditDatesAndStage(role) ==>
              && r == p.(dates := r.dates)
              && MilestoneDate(r.dates, m) == value
              && forall n :: n != m ==> MilestoneDate(r.dates, n) == MilestoneDate(p.dates, n)
  {
    if !CanEditDatesAndStage(role) then p
    else
      var d := p.dates;
      var dates := match m
        case MountingDate => d.(mounting := value)
        case ElectricDate => d.(electric := value)
        case Edit1Date => d.(edit1 := value)
        case Edit2Date => d.(edit2 := value)
        case Edit3Date => d.(edit3 := value);
      p.(dates := dates)
  }

  /** handleLinkChange: sets exactly one link, for everybody but a client. */
  function HandleLinkChange(role: UserRole, p: Project, k: LinkKind, value: string): (r: Project)
    ensures !CanEditLinks(role) ==> r == p
    ensures CanEditLinks(role) ==>
              && r == p.(links := r.links)
              && Link(r.links, k) == value
              && forall j :: j != k ==> Link(r.links, j) == Link(p.links, j)
  {
    if !CanEditLinks(role) then p
    else
      var l := p.links;
      var links := match k
        case Source => l.(source := value)
        case Visuals => l.(visuals := value)
        case Tor => l.(tor := value)
        case Pdf => l.(pdf := value)
        case Dwg => l.(dwg := value)
        case Hvac => l.(hvac := value);
      p.(links := links)
  }

  /** The architect as the editor names them: full name, else user name,
      else "unassigned". */
  function ArchitectLabel(users: seq<User>, architectId: string): (shown: string)
    ensures shown != ""
    ensures shown == Unassigned
            || exists u :: u in users && u.id == architectId
                           && (u.fullName == Some(shown) || u.username == shown)
    ensures (forall u :: u in users ==> u.id != architectId) ==> shown == Unassigned
    ensures var a := FindUser(users, architectId);
            HasShownName(a) ==> shown == a.value.fullName.value
    ensures var a := FindUser(users, architectId);
            a.Some? && !HasShownName(a) && a.value.username != "" ==> shown == a.value.username
    ensures var a := FindUser(users, architectId);
            (a.None? || (!HasShownName(a) && a.value.username == "")) ==> shown == Unassigned
  {
    var a := FindUser(users, architectId);
    if a.Some? && a.value.fullName.Some? && a.value.fullName.value != "" then a.value.fullName.value
    else if a.Some? && a.value.username != "" then a.value.username
    else Unassigned
  }

  // ---- Month navigation ----

  /** The month with the given Index. */
  function FromIndex(i: int): (ym: YearMonth)
    ensures Index(ym) == i
  {
    YearMonth(i / 12, i % 12 + 1)
  }

  /** The month `offset` months away: the month the calendar moves to. */
  function ShiftMonth(cal: YearMonth, offset: int): (r: YearMonth)
    ensures Index(r) == Index(cal) + offset
  {
    FromIndex(Index(cal) + offset)
  }

  lemma IndexInjective(a: YearMonth, b: YearMonth)
    requires Index(a) == Index(b)
    ensures a == b
  {
    assert a.year == Index(a) / 12 && a.month == Index(a) % 12 + 1;
    assert b.year == Index(b) / 12 && b.month == Index(b) % 12 + 1;
  }

  /** The arrows step one month either way, and going back undoes going forward. */
  lemma ShiftMonthSteps(cal: YearMonth, k: int)
    ensures ShiftMonth(cal, 1) == Next(cal)
    ensures ShiftMonth(cal, -1) == Prev(cal)
    ensures ShiftMonth(ShiftMonth(cal, k), -k) == cal
  {
    IndexInjective(ShiftMonth(cal, 1), Next(cal));
    IndexInjective(ShiftMonth(cal, -1), Prev(cal));
    IndexInjective(ShiftMonth(ShiftMonth(cal, k), -k), cal);
  }

  /** changeMonth as written: the calendar keeps a full date and moves it
      with setMonth, which keeps the day of the month and lets it overflow
      into the month after. The calendar then shows MonthOf of the result. */
  function ShiftMonthAsWritten(calDay: Day, offset: int): Day
  {
    var ym := MonthOf(calDay);
    DayOf(ShiftMonth(ym, offset), calDay - MonthStart(ym) + 1)
  }

  /** When the day of the month exists in the target month, the source's
      navigation lands in the intended month. */
  lemma AsWrittenAgreesWhenDayFits(calDay: Day, offset: int)
    requires calDay - MonthStart(MonthOf(calDay)) + 1 <= DaysInMonth(ShiftMonth(MonthOf(calDay), offset))
    ensures MonthOf(ShiftMonthAsWritten(calDay, offset)) == ShiftMonth(MonthOf(calDay), offset)
  {
    var t := ShiftMonth(MonthOf(calDay), offset);
    MonthStartNext(t);
    MonthOfUnique(t, ShiftMonthAsWritten(calDay, offset));
  }

  /** When the day of the month is past the end of the next month, the
      "next month" arrow skips that month altogether. */
  lemma AsWrittenSkipsShortMonth(cal: YearMonth, dom: int)
    requires DaysInMonth(Next(cal)) < dom <= DaysInMonth(cal)
    ensures MonthOf(DayOf(cal, dom)) == cal
    ensures MonthOf(ShiftMonthAsWritten(DayOf(cal, dom), 1)) == Next(Next(cal))
    ensures ShiftMonth(cal, 1) == Next(cal) != Next(Next(cal))
  {
    MonthStartNext(cal);
    MonthStartNext(Next(cal));
    MonthStartNext(Next(Next(cal)));
    MonthOfUnique(cal, DayOf(cal, dom));
    ShiftMonthSteps(cal, 1);
    MonthOfUnique(Next(Next(cal)), ShiftMonthAsWritten(DayOf(cal, dom), 1));
  }

  /** In every year, from 31 January the "next month" arrow shows March. */
  lemma AsWrittenJanuary31(year: int)
    ensures var jan31 := DayOf(YearMonth(year, 1), 31);
            MonthOf(ShiftMonthAsWritten(jan31, 1)) == YearMonth(year, 3)
  {
    AsWrittenSkipsShortMonth(YearMonth(year, 1), 31);
  }

  // ---- The month grid ----

  /** `startDay`: the column of the first day when weeks start on Monday. */
  function StartDay(firstWeekday: int): (col: int)
    requires 0 <= firstWeekday < 7
    ensures 0 <= col < 7
    ensures (col + 1) % 7 == firstWeekday
  {
    if firstWeekday == 0 then 6 else firstWeekday - 1
  }

  datatype Colour = Yellow | Orange | Purple | Blue

  datatype Ring = NoRing | ColourRing(colour: Colour) | TodayRing

  /** A grid cell: a blank lead-in cell, or a day with its range shading,
      its ring and its dot. */
  datatype Cell = Blank | DayCell(date: int, shaded: bool, ring: Ring, dot: Option<Colour>)

  const MilestoneOrder: seq<Milestone> := [MountingDate, ElectricDate, Edit1Date, Edit2Date, Edit3Date]

  function MilestoneColour(m: Milestone): Colour
  {
    match m
    case MountingDate => Yellow
    case ElectricDate => Orange
    case _ => Purple
  }

  /** The first milestone of `order` that falls on `day`. */
  function FirstMilestoneOn(order: seq<Milestone>, dates: ProjectDates, day: Day): (r: Option<Milestone>)
    ensures r.Some? ==> r.value in order && MilestoneDate(dates, r.value) == OnDay(day)
    ensures r.Some? ==> exists i :: 0 <= i < |order| && order[i] == r.value
                          && forall j :: 0 <= j < i ==> MilestoneDate(dates, order[j]) != OnDay(day)
    ensures r.None? <==> forall m :: m in order ==> MilestoneDate(dates, m) != OnDay(day)
  {
    if |order| == 0 then None
    else if MilestoneDate(dates, order[0]) == OnDay(day) then Some(order[0])
    else FirstMilestoneOn(order[1..], dates, day)
  }

  /** The first-match scan over MilestoneOrder is the source's if/else chain. */
  lemma FirstMilestoneChain(dates: ProjectDates, day: Day)
    ensures FirstMilestoneOn(MilestoneOrder, dates, day)
         == if dates.mounting == OnDay(day) then Some(MountingDate)
            else if dates.electric == OnDay(day) then Some(ElectricDate)
            else if dates.edit1 == OnDay(day) then Some(Edit1Date)
            else if dates.edit2 == OnDay(day) then Some(Edit2Date)
            else if dates.edit3 == OnDay(day) then Some(Edit3Date)
            else None
  {
    var o4: seq<Milestone> := [Edit3Date];
    var o3 := [Edit2Date] + o4;
    var o2 := [Edit1Date] + o3;
    var o1 := [ElectricDate] + o2;
    var o0 := [MountingDate] + o1;
    assert o0 == MilestoneOrder;
    assert o4[1..] == [] && o3[1..] == o4 && o2[1..] == o3 && o1[1..] == o2 && o0[1..] == o1;
    assert FirstMilestoneOn(o4, dates, day) == if dates.edit3 == OnDay(day) then Some(Edit3Date) else None;
    assert FirstMilestoneOn(o3, dates, day)
        == if dates.edit2 == OnDay(day) then Some(Edit2Date) else FirstMilestoneOn(o4, dates, day);
    assert FirstMilestoneOn(o2, dates, day)
        == if dates.edit1 == OnDay(day) then Some(Edit1Date) else FirstMilestoneOn(o3, dates, day);
    assert FirstMilestoneOn(o1, dates, day)
        == if dates.electric == OnDay(day) then Some(ElectricDate) else FirstMilestoneOn(o2, dates, day);
  }

  /** The decoration of one day, by priority: the start and end dates win
      over the milestones, and today takes the ring but leaves the dot. */
  function CellFor(form: Project, cal: YearMonth, today: Day, d: int): (c: Cell)
    ensures c.DayCell? && c.date == d
    ensures c.ring == TodayRing <==> today == DayOf(cal, d)
    ensures c.ring != TodayRing ==> (c.ring == NoRing <==> c.dot.None?)
  {
    var day := DayOf(cal, d);
    var dot :=
      if day == form.startDate || day == form.endDate then Some(Blue)
      else
        var m := FirstMilestoneOn(MilestoneOrder, form.dates, day);
        if m.Some? then Some(MilestoneColour(m.value)) else None;
    var ring :=
      if today == day then TodayRing
      else if dot.Some? then ColourRing(dot.value)
      else NoRing;
    var shaded := form.startDate != 0 && form.endDate != 0 && form.startDate <= day <= form.endDate;
    DayCell(d, shaded, ring, dot)
  }

  /** The source's today test: the calendar shows today's month, and the
      day of the month matches. */
  predicate IsTodayCell(cal: YearMonth, today: Day, d: int)
  {
    MonthOf(today) == cal && today - MonthStart(cal) + 1 == d
  }

  lemma IsTodayCellIff(cal: YearMonth, today: Day, d: int)
    requires 1 <= d <= DaysInMonth(cal)
    ensures IsTodayCell(cal, today, d) <==> today == DayOf(cal, d)
  {
    if today == DayOf(cal, d) {
      MonthStartNext(cal);
      MonthOfUnique(cal, today);
    }
  }

  /** The body of renderCalendarDays' day loop: the decorations are
      assigned in the source's order, each later rule overriding. */
  method DecorateDay(form: Project, cal: YearMonth, today: Day, d: int) returns (c: Cell)
    requires 1 <= d <= DaysInMonth(cal)
    ensures c == CellFor(form, cal, today, d)
  {
    var day := DayOf(cal, d);
    var isToday := MonthOf(today) == cal && today - MonthStart(cal) + 1 == d;
    IsTodayCellIff(cal, today, d);
    FirstMilestoneChain(form.dates, day);

    var shaded := false;
    if form.startDate != 0 && form.endDate != 0 && day >= form.startDate && day <= form.endDate {
      shaded := true;
    }

    var ring := NoRing;
    var dot: Option<Colour> := None;
    if form.dates.mounting == OnDay(day) { ring := ColourRing(Yellow); dot := Some(Yellow); }
    else if form.dates.electric == OnDay(day) { ring := ColourRing(Orange); dot := Some(Orange); }
    else if form.dates.edit1 == OnDay(day) { ring := ColourRing(Purple); dot := Some(Purple); }
    else if form.dates.edit2 == OnDay(day) { ring := ColourRing(Purple); dot := Some(Purple); }
    else if form.dates.edit3 == OnDay(day) { ring := ColourRing(Purple); dot := Some(Purple); }

    if day == form.startDate { ring := ColourRing(Blue); dot := Some(Blue); }
    if day == form.endDate { ring := ColourRing(Blue); dot := Some(Blue); }

    if isToday {
      ring := TodayRing;
    }
    c := DayCell(d, shaded, ring, dot);
  }

  /** renderCalendarDays: `startDay` blank cells, then one decorated cell
      per day of the month, each as CellFor describes it. */
  method RenderCalendarDays(form: Project, cal: YearMonth, today: Day) returns (days: seq<Cell>)
    ensures |days| == StartDay(Weekday(MonthStart(cal))) + DaysInMonth(cal)
    ensures forall i :: 0 <= i < StartDay(Weekday(MonthStart(cal))) ==> days[i] == Blank
    ensures forall d :: 1 <= d <= DaysInMonth(cal) ==>
              days[StartDay(Weekday(MonthStart(cal))) + d - 1] == CellFor(form, cal, today, d)
  {
    var startDay := StartDay(Weekday(MonthStart(cal)));
    var daysInMonth := DaysInMonth(cal);
    days := [];
    var i := 0;
    while i < startDay
      invariant 0 <= i <= startDay
      invariant |days| == i
      invariant forall j :: 0 <= j < i ==> days[j] == Blank
    {
      days := days + [Blank];
      i := i + 1;
    }

    var d := 1;
    while d <= daysInMonth
      invariant 1 <= d <= daysInMonth + 1
      invariant |days| == startDay + d - 1
      invariant forall j :: 0 <= j < startDay ==> days[j] == Blank
      invariant forall e :: 1 <= e < d ==> days[startDay + e - 1] == CellFor(form, cal, today, e)
    {
      var cell := DecorateDay(form, cal, today, d);
      days := days + [cell];
      d := d + 1;
    }
  }

  /** Every milestone takes part in the first-match order. */
  lemma MilestoneOrderComplete(m: Milestone)
    ensures m in MilestoneOrder
  {
    match m
    case MountingDate => assert MilestoneOrder[0] == m;
    case ElectricDate => assert MilestoneOrder[1] == m;
    case Edit1Date => assert MilestoneOrder[2] == m;
    case Edit2Date => assert MilestoneOrder[3] == m;
    case Edit3Date => assert MilestoneOrder[4] == m;
  }

  /** The priority rules, stated on their own. */
  lemma CellPriority(form: Project, cal: YearMonth, today: Day, d: int)
    ensures var c := CellFor(form, cal, today, d);
            var day := DayOf(cal, d);
            && (c.ring == TodayRing <==> today == day)
            && (day == form.startDate || day == form.endDate ==> c.dot == Some(Blue))
            && (today != day && c.dot.Some? ==> c.ring == ColourRing(c.dot.value))
            && (form.dates.mounting == OnDay(day) && day != form.startDate && day != form.endDate
                ==> c.dot == Some(Yellow))
            && (day != form.startDate && day != form.endDate ==>
                  var m := FirstMilestoneOn(MilestoneOrder, form.dates, day);
                  c.dot == if m.Some? then Some(MilestoneColour(m.value)) else None)
            && (c.dot.None? ==> forall m :: MilestoneDate(form.dates, m) != OnDay(day))
            && (c.shaded <==> form.startDate != 0 && form.endDate != 0 && form.startDate <= day <= form.endDate)
  {
    var day := DayOf(cal, d);
    if CellFor(form, cal, today, d).dot.None? {
      forall m ensures MilestoneDate(form.dates, m) != OnDay(day) {
        MilestoneOrderComplete(m);
      }
    }
  }
}
