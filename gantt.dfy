// The timeline of components/GanttChart.tsx: the date window around all
// projects, the mapping from days to percentages of the chart width, the
// month header, the "today" line and the per-project bars.
module GanttChart {
  import opened Wrappers
  import opened Types
  import opened Calendar
  import opened Lookup

  /** Days of padding on each side of the projects' range. */
  const Padding: int := 5
  /** Length of the window shown when there are no projects. */
  const EmptyWindowDays: int := 30
  /** Safety cap on the month enumeration. */
  const MonthCap: int := 100
  /** Colour used when a stage has no entry in STAGE_COLORS. */
  const NeutralColor: string := "bg-gray-200 text-gray-700"

  /** minDate, maxDate and totalDays of the chart. */
  datatype Window = Window(start: Day, end: Day, totalDays: int)

  function Abs(x: int): nat
  {
    if x < 0 then -x else x
  }

  /** What the memoised window computation yields for `projects`. */
  ghost predicate IsWindowOf(projects: seq<Project>, now: Day, w: Window)
  {
    if |projects| == 0 then
      w == Window(now, now + EmptyWindowDays, EmptyWindowDays)
    else
      && (forall p :: p in projects ==> w.start + Padding <= p.startDate)
      && (exists p :: p in projects && w.start + Padding == p.startDate)
      && (forall p :: p in projects ==> p.endDate <= w.end - Padding)
      && (exists p :: p in projects && p.endDate == w.end - Padding)
      && w.totalDays == Abs(w.end - w.start)
  }

  /** Every project starts no later than it ends. */
  ghost predicate Ordered(projects: seq<Project>)
  {
    forall p :: p in projects ==> p.startDate <= p.endDate
  }

  /** A window whose width in days is its positive length. */
  predicate Proper(w: Window)
  {
    w.totalDays == w.end - w.start && w.totalDays > 0
  }

  /** The `useMemo` that scans the projects for the earliest start and the
      latest end, then pads both by five days. */
  method ComputeWindow(projects: seq<Project>, now: Day) returns (w: Window)
    ensures IsWindowOf(projects, now, w)
  {
    if |projects| == 0 {
      return Window(now, now + EmptyWindowDays, EmptyWindowDays);
    }
    var min := projects[0].startDate;
    var max := projects[0].endDate;
    var i := 0;
    while i < |projects|
      invariant 0 <= i <= |projects|
      invariant forall k :: 0 <= k < i ==> min <= projects[k].startDate
      invariant forall k :: 0 <= k < i ==> projects[k].endDate <= max
      invariant exists k :: 0 <= k < |projects| && min == projects[k].startDate
      invariant exists k :: 0 <= k < |projects| && max == projects[k].endDate
    {
      var start := projects[i].startDate;
      var end := projects[i].endDate;
      if start < min { min := start; }
      if end > max { max := end; }
      i := i + 1;
    }
    var minD := min - Padding;
    var maxD := max + Padding;
    w := Window(minD, maxD, Abs(maxD - minD));
  }

  /** The window is determined by the projects (and "now" when there are none). */
  lemma WindowUnique(projects: seq<Project>, now: Day, w1: Window, w2: Window)
    requires IsWindowOf(projects, now, w1) && IsWindowOf(projects, now, w2)
    ensures w1 == w2
  {
    if |projects| > 0 {
      var a :| a in projects && w1.start + Padding == a.startDate;
      var b :| b in projects && w2.start + Padding == b.startDate;
      var c :| c in projects && c.endDate == w1.end - Padding;
      var d :| d in projects && d.endDate == w2.end - Padding;
      assert w1.start <= w2.start && w2.start <= w1.start;
      assert w1.end <= w2.end && w2.end <= w1.end;
    }
  }

  /** The padded window strictly contains every project's range. */
  lemma WindowContainsProjects(projects: seq<Project>, now: Day, w: Window, p: Project)
    requires IsWindowOf(projects, now, w) && p in projects
    ensures w.start < p.startDate && p.endDate < w.end
  {
  }

  /** When every project starts no later than it ends, the window is at
      least the ten days of padding long, so positions are well defined. */
  lemma {:induction false} WindowProper(projects: seq<Project>, now: Day, w: Window)
    requires IsWindowOf(projects, now, w) && Ordered(projects)
    ensures Proper(w)
    ensures |projects| > 0 ==> w.totalDays >= 2 * Padding
  {
    if |projects| > 0 {
      var a :| a in projects && w.start + Padding == a.startDate;
      assert a.startDate <= a.endDate <= w.end - Padding;
    }
  }

  /** A project that ends exactly ten days before it starts collapses the
      window to zero days: the division in getPosition then has no value. */
  lemma CollapsedWindow(p: Project, now: Day, w: Window)
    requires p.endDate == p.startDate - 2 * Padding
    requires IsWindowOf([p], now, w)
    ensures w.totalDays == 0
  {
    assert p in [p];
  }

  /** getPosition: the day's offset into the window as a percentage.
      It is not clamped. */
  function Position(w: Window, d: Day): (x: real)
    requires w.totalDays != 0
    ensures x * w.totalDays as real == (d - w.start) as real * 100.0
  {
    ((d - w.start) as real / w.totalDays as real) * 100.0
  }

  lemma PositionEnds(w: Window)
    requires Proper(w)
    ensures Position(w, w.start) == 0.0 && Position(w, w.end) == 100.0
  {
  }

  /** Positions grow with the day, by 100/totalDays per day. */
  lemma PositionMonotone(w: Window, a: Day, b: Day)
    requires w.totalDays > 0 && a <= b
    ensures Position(w, a) <= Position(w, b)
    ensures Position(w, b) - Position(w, a) == ((b - a) as real / w.totalDays as real) * 100.0
  {
    var t := w.totalDays as real;
    assert (b - w.start) as real / t - (a - w.start) as real / t == (b - a) as real / t;
  }

  /** The visibility test of month labels, gridlines and the today line. */
  predicate Visible(x: real)
  {
    !(x < 0.0 || x > 100.0)
  }

  /** A day is drawn exactly when it lies inside the window. */
  lemma VisibleIffInWindow(w: Window, d: Day)
    requires Proper(w)
    ensures Visible(Position(w, d)) <==> w.start <= d <= w.end
  {
    var t := w.totalDays as real;
    var x := (d - w.start) as real / t;
    assert Position(w, d) == x * 100.0;
    assert x * t == (d - w.start) as real;
    if d < w.start {
      assert x < 0.0;
    } else if d > w.end {
      assert x > 1.0;
    } else {
      assert 0.0 <= x <= 1.0;
    }
  }

  function RealAbs(x: real): real
  {
    if x < 0.0 then -x else x
  }

  /** getWidth: the length of a bar, at least one percent. On a proper
      window it is the distance between the two dates' positions, raised to
      one percent when shorter. */
  function Width(w: Window, a: Day, b: Day): (r: real)
    requires w.totalDays != 0
    ensures r >= 1.0
    ensures w.totalDays > 0 && a <= b ==> Position(w, a) + r >= Position(w, b)
    ensures w.totalDays > 0 ==>
      var gap := RealAbs(Position(w, b) - Position(w, a));
      r == if gap > 1.0 then gap else 1.0
  {
    PositionSpan(w, a, b);
    PositionSpan(w, b, a);
    var span := (Abs(b - a) as real / w.totalDays as real) * 100.0;
    if span > 1.0 then span else 1.0
  }

  lemma PositionSpan(w: Window, a: Day, b: Day)
    requires w.totalDays != 0
    ensures w.totalDays > 0 && a <= b ==>
      Position(w, b) - Position(w, a) == (Abs(b - a) as real / w.totalDays as real) * 100.0
  {
    if w.totalDays > 0 && a <= b { PositionMonotone(w, a, b); }
  }

  /** The width ignores which end comes first. */
  lemma WidthSymmetric(w: Window, a: Day, b: Day)
    requires w.totalDays != 0
    ensures Width(w, a, b) == Width(w, b, a)
  {
    assert Abs(b - a) == Abs(a - b);
  }

  /** The month after the enumerated ones: where the loop stopped. */
  function MonthAfter(ms: seq<YearMonth>, first: YearMonth): YearMonth
  {
    if |ms| == 0 then first else Next(ms[|ms| - 1])
  }

  /** The `months` memo: first days of the months from windowStart's month
      on, while they do not pass windowEnd, at most MonthCap of them. */
  method Months(w: Window) returns (ms: seq<YearMonth>)
    ensures |ms| <= MonthCap
    ensures |ms| > 0 ==> ms[0] == MonthOf(w.start)
    ensures forall i :: 0 <= i < |ms| - 1 ==> ms[i + 1] == Next(ms[i])
    ensures forall i :: 0 <= i < |ms| ==> MonthStart(ms[i]) <= w.end
    ensures |ms| < MonthCap ==> MonthStart(MonthAfter(ms, MonthOf(w.start))) > w.end
  {
    var current := MonthOf(w.start);
    ms := [];
    var safety := 0;
    while MonthStart(current) <= w.end && safety < MonthCap
      invariant safety == |ms| <= MonthCap
      invariant current == MonthAfter(ms, MonthOf(w.start))
      invariant |ms| > 0 ==> ms[0] == MonthOf(w.start)
      invariant forall i :: 0 <= i < |ms| - 1 ==> ms[i + 1] == Next(ms[i])
      invariant forall i :: 0 <= i < |ms| ==> MonthStart(ms[i]) <= w.end
      decreases MonthCap - safety
    {
      ms := ms + [current];
      current := Next(current);
      safety := safety + 1;
    }
  }

  /** Months are enumerated in strictly increasing order of their first day. */
  lemma MonthsIncrease(ms: seq<YearMonth>, i: int)
    requires forall k :: 0 <= k < |ms| - 1 ==> ms[k + 1] == Next(ms[k])
    requires 0 <= i < |ms| - 1
    ensures MonthStart(ms[i]) < MonthStart(ms[i + 1])
  {
    MonthStartNext(ms[i]);
  }

  /** Positions of the month labels and gridlines that are drawn. */
  function MonthMarks(w: Window, ms: seq<YearMonth>): (r: seq<real>)
    requires w.totalDays != 0
    ensures forall x :: x in r ==> Visible(x)
    ensures forall x :: x in r ==> exists m :: m in ms && x == Position(w, MonthStart(m))
    ensures forall m :: m in ms && Visible(Position(w, MonthStart(m))) ==> Position(w, MonthStart(m)) in r
  {
    var all := seq(|ms|, i requires 0 <= i < |ms| => Position(w, MonthStart(ms[i])));
    var r := Filter(all, Visible);
    forall m | m in ms && Visible(Position(w, MonthStart(m)))
      ensures Position(w, MonthStart(m)) in r
    {
      var i :| 0 <= i < |ms| && ms[i] == m;
      assert all[i] == Position(w, MonthStart(m));
      assert multiset(r)[all[i]] == multiset(all)[all[i]] > 0;
    }
    forall x | x in r ensures exists m :: m in ms && x == Position(w, MonthStart(m)) {
      var i :| 0 <= i < |all| && all[i] == x;
      assert ms[i] in ms;
    }
    r
  }

  /** Strictly increasing. */
  predicate Increasing(s: seq<real>)
  {
    forall i, j :: 0 <= i < j < |s| ==> s[i] < s[j]
  }

  /** The marks of consecutive months appear left to right. */
  lemma MarksInOrder(w: Window, ms: seq<YearMonth>)
    requires w.totalDays > 0
    requires forall k :: 0 <= k < |ms| - 1 ==> ms[k + 1] == Next(ms[k])
    ensures Increasing(MonthMarks(w, ms))
  {
    var all := seq(|ms|, i requires 0 <= i < |ms| => Position(w, MonthStart(ms[i])));
    forall i, j | 0 <= i < j < |all| ensures all[i] < all[j] {
      MonthsAscend(ms, i, j);
      PositionStrict(w, MonthStart(ms[i]), MonthStart(ms[j]));
    }
    FilterIncreasing(all, Visible);
  }

  /** Later days are strictly further right. */
  lemma PositionStrict(w: Window, a: Day, b: Day)
    requires w.totalDays > 0 && a < b
    ensures Position(w, a) < Position(w, b)
  {
    PositionMonotone(w, a, b);
    assert (b - a) as real / w.totalDays as real > 0.0;
  }

  /** Consecutive months start at increasing days, also far apart. */
  lemma {:induction false} MonthsAscend(ms: seq<YearMonth>, i: int, j: int)
    requires forall k :: 0 <= k < |ms| - 1 ==> ms[k + 1] == Next(ms[k])
    requires 0 <= i < j < |ms|
    ensures MonthStart(ms[i]) < MonthStart(ms[j])
    decreases j - i
  {
    MonthsIncrease(ms, i);
    if i + 1 < j {
      MonthsAscend(ms, i + 1, j);
    }
  }

  /** Filtering a strictly increasing sequence leaves it strictly increasing. */
  lemma {:induction false} FilterIncreasing(s: seq<real>, keep: real -> bool)
    requires Increasing(s)
    ensures Increasing(Filter(s, keep))
    decreases |s|
  {
    if |s| > 0 {
      var tail := s[1..];
      assert Increasing(tail) by {
        forall i, j | 0 <= i < j < |tail| ensures tail[i] < tail[j] {
          assert tail[i] == s[i + 1] && tail[j] == s[j + 1];
        }
      }
      FilterIncreasing(tail, keep);
      var rest := Filter(tail, keep);
      assert s == [s[0]] + tail;
      if keep(s[0]) {
        assert Filter(s, keep) == [s[0]] + rest;
        forall x | x in rest ensures s[0] < x {
          var k :| 0 <= k < |tail| && tail[k] == x;
          assert s[k + 1] == x;
        }
        ConsIncreasing(s[0], rest);
      } else {
        assert Filter(s, keep) == rest;
      }
    }
  }

  lemma ConsIncreasing(x: real, s: seq<real>)
    requires Increasing(s) && forall y :: y in s ==> x < y
    ensures Increasing([x] + s)
  {
    var r := [x] + s;
    forall i, j | 0 <= i < j < |r| ensures r[i] < r[j] {
      assert r[j] == s[j - 1] && s[j - 1] in s;
      if i > 0 { assert r[i] == s[i - 1]; }
    }
  }

  /** Position of the today line, when it is drawn. */
  function TodayMarker(w: Window, today: Day): (r: Option<real>)
    requires w.totalDays != 0
    ensures r.Some? ==> 0.0 <= r.value <= 100.0
    ensures r.Some? ==> r.value == Position(w, today)
  {
    var x := Position(w, today);
    if Visible(x) then Some(x) else None
  }

  /** For a proper window the today line shows exactly when today is in it. */
  lemma TodayShownIff(w: Window, today: Day)
    requires Proper(w)
    ensures TodayMarker(w, today).Some? <==> w.start <= today <= w.end
  {
    VisibleIffInWindow(w, today);
  }

  /** `STAGE_COLORS[stage] || neutral`: the table is total, so the
      fallback is never taken. */
  function BarColor(s: ProjectStage): (c: string)
    ensures c == StageColor(s) && c != NeutralColor
  {
    if StageColor(s) != "" then StageColor(s) else NeutralColor
  }

  /** Whose name a bar carries: a designer looking at the chart sees the
      architect, everybody else the designer. */
  function CounterpartId(p: Project, viewer: Option<User>): string
  {
    if viewer.Some? && viewer.value.role == Designer then p.architectId else p.designerId
  }

  function NameOnBar(users: seq<User>, viewer: Option<User>, p: Project): (r: Option<string>)
    ensures r.Some? ==> r.value != ""
    ensures r.Some? ==> exists u :: u in users && u.id == CounterpartId(p, viewer) && u.fullName == r
    ensures (forall u :: u in users ==> u.id != CounterpartId(p, viewer)) ==> r.None?
    ensures var u := FindUser(users, CounterpartId(p, viewer));
            HasShownName(u) ==> r == u.value.fullName
    ensures !HasShownName(FindUser(users, CounterpartId(p, viewer))) ==> r.None?
  {
    ShownName(FindUser(users, CounterpartId(p, viewer)))
  }

  datatype Bar = Bar(left: real, width: real, colorClass: string, name: Option<string>)

  function BarOf(w: Window, users: seq<User>, viewer: Option<User>, p: Project): (b: Bar)
    requires w.totalDays != 0
    ensures b.width >= 1.0
  {
    Bar(Position(w, p.startDate), Width(w, p.startDate, p.endDate),
        BarColor(p.stage), NameOnBar(users, viewer, p))
  }

  /** Every project's bar starts strictly inside the chart. */
  lemma BarStartsInside(projects: seq<Project>, now: Day, w: Window, p: Project,
                        users: seq<User>, viewer: Option<User>)
    requires IsWindowOf(projects, now, w) && Ordered(projects) && p in projects
    ensures w.totalDays != 0
    ensures 0.0 < BarOf(w, users, viewer, p).left < 100.0
  {
    WindowProper(projects, now, w);
    WindowContainsProjects(projects, now, w, p);
    PositionMonotone(w, w.start, p.startDate);
    PositionMonotone(w, p.startDate, w.end);
    PositionEnds(w);
    assert p.startDate - w.start > 0;
    assert ((p.startDate - w.start) as real / w.totalDays as real) > 0.0;
    assert ((w.end - p.startDate) as real / w.totalDays as real) > 0.0;
  }
}
