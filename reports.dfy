/** The read-only summaries of backend/routes/reports.js: the per-day report
    and its summary, and one student's history over an optional date range.
    Query results come in as sequences of rows; numbers are reals, without
    the two-decimal formatting the routes apply before replying. */
module Reports {
  import opened Common
  import Db

  // ---------------------------------------------------------------------
  // GET /daily and GET /summary

  /** One row of the daily report query: the aggregates are null for a
      student with no attendance or no engagement that day. */
  datatype DailyRow = DailyRow(
    studentId: int,
    name: string,
    attendanceCount: Option<int>,
    avgEngagement: Option<real>,
    maxEngagement: Option<real>,
    minEngagement: Option<real>)

  /** One entry of the `students` list `/daily` replies with. */
  datatype StudentLine = StudentLine(
    studentId: int,
    name: string,
    attendanceCount: int,
    present: bool,
    avgEngagement: Option<real>,
    maxEngagement: Option<real>,
    minEngagement: Option<real>)

  /** `x ? parseFloat(x) : null`: a null and a zero aggregate both become null. */
  function NonZero(x: Option<real>): (r: Option<real>)
    ensures r.Some? <==> x.Some? && x.value != 0.0
    ensures r.Some? ==> r == x
  {
    if x.Some? && x.value != 0.0 then x else None
  }

  /** The per-student formatting of `/daily`. */
  function FormatRow(r: DailyRow): (l: StudentLine)
    ensures l.studentId == r.studentId && l.name == r.name
    ensures l.present <==> r.attendanceCount.Some? && r.attendanceCount.value > 0
    ensures l.present <==> l.attendanceCount > 0
    ensures r.attendanceCount.None? ==> l.attendanceCount == 0
    ensures l.avgEngagement.Some? <==> r.avgEngagement.Some? && r.avgEngagement.value != 0.0
    ensures l.avgEngagement.Some? ==> l.avgEngagement == r.avgEngagement
    ensures l.maxEngagement.Some? <==> r.maxEngagement.Some? && r.maxEngagement.value != 0.0
    ensures l.maxEngagement.Some? ==> l.maxEngagement == r.maxEngagement
    ensures l.minEngagement.Some? <==> r.minEngagement.Some? && r.minEngagement.value != 0.0
    ensures l.minEngagement.Some? ==> l.minEngagement == r.minEngagement
  {
    var count := if Truthy(r.attendanceCount) then r.attendanceCount.value else 0;
    StudentLine(r.studentId, r.name, count, count > 0,
                NonZero(r.avgEngagement), NonZero(r.maxEngagement), NonZero(r.minEngagement))
  }

  function Formatted(rows: seq<DailyRow>): (lines: seq<StudentLine>)
    ensures |lines| == |rows|
    ensures forall i :: 0 <= i < |rows| ==> lines[i] == FormatRow(rows[i])
  {
    seq(|rows|, i requires 0 <= i < |rows| => FormatRow(rows[i]))
  }

  /** `s.present` on a formatted line. */
  predicate IsPresent(l: StudentLine) {
    l.present
  }

  /** `avg_engagement !== null` on a formatted line. */
  predicate Engaged(l: StudentLine) {
    l.avgEngagement.Some?
  }

  /** `filter(s => s.present).length` over formatted lines. */
  function PresentCount(lines: seq<StudentLine>): (n: nat)
    ensures n <= |lines|
  {
    if lines == [] then 0
    else PresentCount(lines[..|lines| - 1]) + (if lines[|lines| - 1].present then 1 else 0)
  }

  /** The averages of the lines whose `avg_engagement` is not null. */
  function EngagedAverages(lines: seq<StudentLine>): (xs: seq<real>)
    ensures |xs| <= |lines|
  {
    if lines == [] then []
    else
      var last := lines[|lines| - 1];
      EngagedAverages(lines[..|lines| - 1]) + (if last.avgEngagement.Some? then [last.avgEngagement.value] else [])
  }

  /** `(attendance_count || 0) > 0` on a raw row. */
  predicate CountedPresent(r: DailyRow) {
    (if Truthy(r.attendanceCount) then r.attendanceCount.value else 0) > 0
  }

  /** `avg_engagement !== null` on a raw row. */
  predicate Tracked(r: DailyRow) {
    r.avgEngagement.Some?
  }

  /** `/summary`'s present count, over raw rows. */
  function PresentRows(rows: seq<DailyRow>): (n: nat)
    ensures n <= |rows|
  {
    if rows == [] then 0
    else PresentRows(rows[..|rows| - 1]) + (if CountedPresent(rows[|rows| - 1]) then 1 else 0)
  }

  /** The averages of the rows whose `avg_engagement` is not null, zeros
      included (`/summary`'s `withEng`). */
  function TrackedAverages(rows: seq<DailyRow>): (xs: seq<real>)
    ensures |xs| <= |rows|
  {
    if rows == [] then []
    else
      var last := rows[|rows| - 1];
      TrackedAverages(rows[..|rows| - 1]) + (if last.avgEngagement.Some? then [last.avgEngagement.value] else [])
  }

  /** `present` counts the lines `filter(s => s.present)` keeps. */
  lemma {:induction false} PresentCountFiltered(lines: seq<StudentLine>)
    ensures PresentCount(lines) == |Filter(lines, IsPresent)|
  {
    if lines != [] {
      PresentCountFiltered(lines[..|lines| - 1]);
    }
  }

  /** `/daily` averages the values of the lines `filter(s => s.avg_engagement
      !== null)` keeps, in order. */
  lemma {:induction false} EngagedAveragesFiltered(lines: seq<StudentLine>)
    ensures |EngagedAverages(lines)| == |Filter(lines, Engaged)|
    ensures forall k :: 0 <= k < |EngagedAverages(lines)| ==>
              Filter(lines, Engaged)[k].avgEngagement == Some(EngagedAverages(lines)[k])
  {
    if lines != [] {
      var init, last := lines[..|lines| - 1], lines[|lines| - 1];
      EngagedAveragesFiltered(init);
      var xs0, kept0 := EngagedAverages(init), Filter(init, Engaged);
      var xs, kept := EngagedAverages(lines), Filter(lines, Engaged);
      assert kept == kept0 + (if Engaged(last) then [last] else []);
      assert xs == xs0 + (if Engaged(last) then [last.avgEngagement.value] else []);
      forall k | 0 <= k < |xs|
        ensures kept[k].avgEngagement == Some(xs[k])
      {
        if k < |xs0| {
          assert xs[k] == xs0[k] && kept[k] == kept0[k];
        }
      }
    }
  }

  /** `/summary`'s `present` counts the rows its filter keeps. */
  lemma {:induction false} PresentRowsFiltered(rows: seq<DailyRow>)
    ensures PresentRows(rows) == |Filter(rows, CountedPresent)|
  {
    if rows != [] {
      PresentRowsFiltered(rows[..|rows| - 1]);
    }
  }

  /** `/summary` averages the values of the rows its `withEng` filter keeps,
      in order. */
  lemma {:induction false} TrackedAveragesFiltered(rows: seq<DailyRow>)
    ensures |TrackedAverages(rows)| == |Filter(rows, Tracked)|
    ensures forall k :: 0 <= k < |TrackedAverages(rows)| ==>
              Filter(rows, Tracked)[k].avgEngagement == Some(TrackedAverages(rows)[k])
  {
    if rows != [] {
      var init, last := rows[..|rows| - 1], rows[|rows| - 1];
      TrackedAveragesFiltered(init);
      var xs0, kept0 := TrackedAverages(init), Filter(init, Tracked);
      var xs, kept := TrackedAverages(rows), Filter(rows, Tracked);
      assert kept == kept0 + (if Tracked(last) then [last] else []);
      assert xs == xs0 + (if Tracked(last) then [last.avgEngagement.value] else []);
      forall k | 0 <= k < |xs|
        ensures kept[k].avgEngagement == Some(xs[k])
      {
        if k < |xs0| {
          assert xs[k] == xs0[k] && kept[k] == kept0[k];
        }
      }
    }
  }

  /** How many rows carry an average of exactly zero. */
  function ZeroAverages(rows: seq<DailyRow>): (n: nat)
    ensures n <= |rows|
  {
    if rows == [] then 0
    else ZeroAverages(rows[..|rows| - 1]) + (if rows[|rows| - 1].avgEngagement == Some(0.0) then 1 else 0)
  }

  /** `total > 0 ? present / total * 100 : 0`. */
  function Rate(present: nat, total: nat): (rate: real)
    ensures total == 0 ==> rate == 0.0
    ensures 0 < total && present <= total ==> 0.0 <= rate <= 100.0
    ensures 0 < total && present == total ==> rate == 100.0
    ensures 0 < total && present == 0 ==> rate == 0.0
  {
    if total > 0 then
      var share := present as real / total as real;
      assert share * (total as real) == present as real;
      assert present <= total ==> share <= 1.0;
      share * 100.0
    else 0.0
  }

  datatype DailySummary = DailySummary(
    totalStudents: nat,
    presentStudents: nat,
    absentStudents: int,
    attendanceRate: real,
    avgEngagement: real)

  datatype DailyReport = DailyReport(date: Date, summary: DailySummary, students: seq<StudentLine>)

  /** `GET /daily` over the rows of the daily report query. */
  function Daily(date: Option<Date>, today: Date, rows: seq<DailyRow>): (r: DailyReport)
    ensures r.date == OrDefault(date, today)
    ensures r.students == Formatted(rows)
    ensures r.summary.totalStudents == |rows|
    ensures r.summary.presentStudents + r.summary.absentStudents == r.summary.totalStudents
    ensures 0 <= r.summary.absentStudents
    ensures r.summary.totalStudents == 0 ==> r.summary.attendanceRate == 0.0
    ensures r.summary.totalStudents > 0 ==> 0.0 <= r.summary.attendanceRate <= 100.0
    ensures r.summary.presentStudents == PresentCount(r.students)
    ensures r.summary.avgEngagement == Mean(EngagedAverages(r.students))
    ensures EngagedAverages(r.students) == [] ==> r.summary.avgEngagement == 0.0
  {
    var lines := Formatted(rows);
    var total := |lines|;
    var present := PresentCount(lines);
    DailyReport(OrDefault(date, today),
                DailySummary(total, present, total - present, Rate(present, total), Mean(EngagedAverages(lines))),
                lines)
  }

  datatype Summary = Summary(
    totalStudents: nat,
    presentStudents: nat,
    absentStudents: int,
    attendanceRate: real,
    avgEngagement: real,
    studentsTrackedEngagement: nat)

  /** `GET /summary` over the same rows. */
  function SummaryOf(rows: seq<DailyRow>): (r: Summary)
    ensures r.totalStudents == |rows|
    ensures r.presentStudents + r.absentStudents == r.totalStudents
    ensures 0 <= r.absentStudents
    ensures r.totalStudents == 0 ==> r.attendanceRate == 0.0
    ensures r.totalStudents > 0 ==> 0.0 <= r.attendanceRate <= 100.0
    ensures r.presentStudents == PresentRows(rows)
    ensures r.studentsTrackedEngagement == |TrackedAverages(rows)|
    ensures r.avgEngagement == Mean(TrackedAverages(rows))
    ensures r.studentsTrackedEngagement <= r.totalStudents
    ensures r.studentsTrackedEngagement == 0 ==> r.avgEngagement == 0.0
  {
    var total := |rows|;
    var present := PresentRows(rows);
    var tracked := TrackedAverages(rows);
    Summary(total, present, total - present, Rate(present, total), Mean(tracked), |tracked|)
  }

  /** `/daily` and `/summary` agree on who is present: formatting first and
      testing `present`, or testing the raw count, gives the same number. */
  lemma {:induction false} PresentCountsAgree(rows: seq<DailyRow>)
    ensures PresentCount(Formatted(rows)) == PresentRows(rows)
  {
    if rows != [] {
      var p := rows[..|rows| - 1];
      PresentCountsAgree(p);
      assert Formatted(rows)[..|rows| - 1] == Formatted(p);
    }
  }

  /** Appending the formatted last row to the formatted prefix. */
  lemma FormattedPrefix(rows: seq<DailyRow>)
    requires rows != []
    ensures Formatted(rows)[..|rows| - 1] == Formatted(rows[..|rows| - 1])
  {
  }

  /** The two endpoints disagree on who has engagement only through the
      rows whose average is exactly 0: `/summary` counts them as tracked,
      `/daily` drops them. */
  lemma {:induction false} TrackedSplitsByZero(rows: seq<DailyRow>)
    ensures |TrackedAverages(rows)| == |EngagedAverages(Formatted(rows))| + ZeroAverages(rows)
  {
    if rows != [] {
      TrackedSplitsByZero(rows[..|rows| - 1]);
      FormattedPrefix(rows);
    }
  }

  /** ... and the averages both sum up are the same, since the dropped
      ones are 0. */
  lemma {:induction false} TrackedSumAgrees(rows: seq<DailyRow>)
    ensures Sum(TrackedAverages(rows)) == Sum(EngagedAverages(Formatted(rows)))
  {
    if rows != [] {
      var p := rows[..|rows| - 1];
      var last := rows[|rows| - 1];
      TrackedSumAgrees(p);
      FormattedPrefix(rows);
      var t, e := TrackedAverages(p), EngagedAverages(Formatted(p));
      SumSnoc(t, last.avgEngagement);
      SumSnoc(e, FormatRow(last).avgEngagement);
    }
  }

  /** Sum over a prefix extended by an optional value. */
  lemma SumSnoc(xs: seq<real>, x: Option<real>)
    ensures Sum(xs + (if x.Some? then [x.value] else [])) == Sum(xs) + (if x.Some? then x.value else 0.0)
  {
    if x.Some? {
      assert (xs + [x.value])[..|xs|] == xs;
    } else {
      assert xs + [] == xs;
    }
  }

  /** Every value `/summary` averages is a row's own average, so bounds
      on the rows' averages carry over. */
  lemma TrackedWithin(rows: seq<DailyRow>, lo: real, hi: real)
    requires forall i :: 0 <= i < |rows| && rows[i].avgEngagement.Some? ==> lo <= rows[i].avgEngagement.value <= hi
    ensures forall k :: 0 <= k < |TrackedAverages(rows)| ==>
              exists i :: 0 <= i < |rows| && rows[i].avgEngagement == Some(TrackedAverages(rows)[k])
    ensures forall k :: 0 <= k < |TrackedAverages(rows)| ==> lo <= TrackedAverages(rows)[k] <= hi
  {
    var xs, kept := TrackedAverages(rows), Filter(rows, Tracked);
    TrackedAveragesFiltered(rows);
    forall k | 0 <= k < |xs|
      ensures exists i :: 0 <= i < |rows| && rows[i].avgEngagement == Some(xs[k])
    {
      assert kept[k] in kept;
      var i :| 0 <= i < |rows| && rows[i] == kept[k];
    }
  }

  /** `/summary`'s engagement average lies within the bounds of the
      students' own averages, or is 0 when no student is tracked. */
  lemma SummaryAverageWithin(rows: seq<DailyRow>, lo: real, hi: real)
    requires forall i :: 0 <= i < |rows| && rows[i].avgEngagement.Some? ==> lo <= rows[i].avgEngagement.value <= hi
    ensures var s := SummaryOf(rows);
            s.studentsTrackedEngagement == 0 || lo <= s.avgEngagement <= hi
  {
    TrackedWithin(rows, lo, hi);
    if |TrackedAverages(rows)| > 0 {
      MeanBounds(TrackedAverages(rows), lo, hi);
    }
  }

  // ---------------------------------------------------------------------
  // GET /student/:id: the date filter

  /** The clause appended to both history queries. */
  datatype DateFilter =
    | AllDates                          // no clause
    | Between(from: Date, to: Date)     // `session_date BETWEEN ? AND ?`
    | Since(from: Date)                 // `session_date >= ?`
    | Until(to: Date)                   // `session_date <= ?`

  /** The bound parameters that go with the clause. */
  function FilterParams(f: DateFilter): seq<Date> {
    match f
    case AllDates => []
    case Between(from, to) => [from, to]
    case Since(from) => [from]
    case Until(to) => [to]
  }

  /** What the clause lets through. */
  predicate Admits(f: DateFilter, d: Date) {
    match f
    case AllDates => true
    case Between(from, to) => from <= d <= to
    case Since(from) => from <= d
    case Until(to) => d <= to
  }

  /** The if/else chain over `start_date` and `end_date`; None is a date
      absent from the query string or empty. */
  function SelectDateFilter(start: Option<Date>, end: Option<Date>): (f: DateFilter)
    ensures f.Between? <==> start.Some? && end.Some?
    ensures f.Since? <==> start.Some? && end.None?
    ensures f.Until? <==> start.None? && end.Some?
    ensures f.AllDates? <==> start.None? && end.None?
    ensures FilterParams(f) == (if start.Some? then [start.value] else []) + (if end.Some? then [end.value] else [])
    ensures forall d :: Admits(f, d) <==> (start.Some? ==> start.value <= d) && (end.Some? ==> d <= end.value)
  {
    if start.Some? && end.Some? then Between(start.value, end.value)
    else if start.Some? then Since(start.value)
    else if end.Some? then Until(end.value)
    else AllDates
  }

  // ---------------------------------------------------------------------
  // GET /student/:id: the history

  /** The attendance rows of `id` that the clause admits. */
  function AttendanceOf(rows: seq<Db.AttendanceRow>, id: int, f: DateFilter): (r: seq<Db.AttendanceRow>)
    ensures |r| <= |rows|
    ensures forall x :: multiset(r)[x] == if x.studentId == id && Admits(f, x.sessionDate) then multiset(rows)[x] else 0
    ensures forall x :: x in r <==> x in rows && x.studentId == id && Admits(f, x.sessionDate)
  {
    Filter(rows, (x: Db.AttendanceRow) => x.studentId == id && Admits(f, x.sessionDate))
  }

  /** The engagement rows of `id` that the clause admits. */
  function EngagementOf(rows: seq<Db.EngagementRow>, id: int, f: DateFilter): (r: seq<Db.EngagementRow>)
    ensures |r| <= |rows|
    ensures forall x :: multiset(r)[x] == if x.studentId == id && Admits(f, x.sessionDate) then multiset(rows)[x] else 0
    ensures forall x :: x in r <==> x in rows && x.studentId == id && Admits(f, x.sessionDate)
  {
    Filter(rows, (x: Db.EngagementRow) => x.studentId == id && Admits(f, x.sessionDate))
  }

  /** `session_date = d` on an engagement row. */
  function OnDay(d: Date): Db.EngagementRow -> bool {
    (r: Db.EngagementRow) => r.sessionDate == d
  }

  /** The scores recorded on day `d`. */
  function ScoresOn(rows: seq<Db.EngagementRow>, d: Date): (xs: seq<real>)
    ensures |xs| <= |rows|
  {
    if rows == [] then []
    else
      var last := rows[|rows| - 1];
      ScoresOn(rows[..|rows| - 1], d) + (if last.sessionDate == d then [last.attentionScore] else [])
  }

  /** The scores of day `d` are those of the rows `WHERE session_date = d`,
      in order. */
  lemma {:induction false} ScoresOnFiltered(rows: seq<Db.EngagementRow>, d: Date)
    ensures |ScoresOn(rows, d)| == |Filter(rows, OnDay(d))|
    ensures forall k :: 0 <= k < |ScoresOn(rows, d)| ==> ScoresOn(rows, d)[k] == Filter(rows, OnDay(d))[k].attentionScore
  {
    if rows != [] {
      var init, last := rows[..|rows| - 1], rows[|rows| - 1];
      ScoresOnFiltered(init, d);
      var xs0, kept0 := ScoresOn(init, d), Filter(init, OnDay(d));
      var xs, kept := ScoresOn(rows, d), Filter(rows, OnDay(d));
      assert kept == kept0 + (if OnDay(d)(last) then [last] else []);
      assert xs == xs0 + (if OnDay(d)(last) then [last.attentionScore] else []);
      forall k | 0 <= k < |xs|
        ensures xs[k] == kept[k].attentionScore
      {
        if k < |xs0| {
          assert xs[k] == xs0[k] && kept[k] == kept0[k];
        }
      }
    }
  }

  /** The days the rows fall on, each once, in order of first appearance. */
  function DatesOf(rows: seq<Db.EngagementRow>): (ds: seq<Date>)
    ensures forall i, j :: 0 <= i < j < |ds| ==> ds[i] != ds[j]
    ensures forall i :: 0 <= i < |rows| ==> rows[i].sessionDate in ds
    ensures forall d :: d in ds ==> exists i :: 0 <= i < |rows| && rows[i].sessionDate == d
  {
    if rows == [] then []
    else
      var p := DatesOf(rows[..|rows| - 1]);
      var d := rows[|rows| - 1].sessionDate;
      if d in p then p else p + [d]
  }

  /** One entry of `engagement_by_date`. */
  datatype DayEngagement = DayEngagement(sessionDate: Date, avgEngagement: real, sampleCount: nat)

  /** `GROUP BY session_date` over the days `ds`: each day's mean score and
      number of samples. */
  function Groups(rows: seq<Db.EngagementRow>, ds: seq<Date>): (g: seq<DayEngagement>)
    ensures |g| == |ds|
    ensures forall i :: 0 <= i < |ds| ==> g[i].sessionDate == ds[i]
  {
    if ds == [] then []
    else
      var d := ds[|ds| - 1];
      Groups(rows, ds[..|ds| - 1]) + [DayEngagement(d, Mean(ScoresOn(rows, d)), |ScoresOn(rows, d)|)]
  }

  /** `GROUP BY session_date`: one group per day some row falls on, and
      no other. */
  function GroupByDate(rows: seq<Db.EngagementRow>): (g: seq<DayEngagement>)
    ensures forall i, j :: 0 <= i < j < |g| ==> g[i].sessionDate != g[j].sessionDate
  {
    Groups(rows, DatesOf(rows))
  }

  /** Every group's day is the day of some row. */
  lemma GroupsComeFromRows(rows: seq<Db.EngagementRow>)
    ensures forall k :: 0 <= k < |GroupByDate(rows)| ==>
              exists i :: 0 <= i < |rows| && rows[i].sessionDate == GroupByDate(rows)[k].sessionDate
  {
    var ds, g := DatesOf(rows), GroupByDate(rows);
    forall k | 0 <= k < |g|
      ensures exists i :: 0 <= i < |rows| && rows[i].sessionDate == g[k].sessionDate
    {
      assert ds[k] in ds;
      var i :| 0 <= i < |rows| && rows[i].sessionDate == ds[k];
      assert g[k].sessionDate == ds[k];
    }
  }

  /** Every row's day has a group. */
  lemma RowsHaveGroups(rows: seq<Db.EngagementRow>)
    ensures forall i :: 0 <= i < |rows| ==>
              exists k :: 0 <= k < |GroupByDate(rows)| && GroupByDate(rows)[k].sessionDate == rows[i].sessionDate
  {
    var ds, g := DatesOf(rows), GroupByDate(rows);
    forall i | 0 <= i < |rows|
      ensures exists k :: 0 <= k < |g| && g[k].sessionDate == rows[i].sessionDate
    {
      assert rows[i].sessionDate in ds;
      var k :| 0 <= k < |ds| && ds[k] == rows[i].sessionDate;
      assert g[k].sessionDate == ds[k];
    }
  }

  /** Each group holds the mean and the number of the scores of its day,
      and no group is empty. */
  lemma GroupOfDay(rows: seq<Db.EngagementRow>, k: nat)
    requires k < |GroupByDate(rows)|
    ensures var day := GroupByDate(rows)[k];
            && day.avgEngagement == Mean(ScoresOn(rows, day.sessionDate))
            && day.sampleCount == |ScoresOn(rows, day.sessionDate)| > 0
  {
    var ds := DatesOf(rows);
    GroupsPrefix(rows, ds, k + 1);
    assert ds[k] in ds;
    var i :| 0 <= i < |rows| && rows[i].sessionDate == ds[k];
    ScoresOnNonEmpty(rows, i);
  }

  /** `reduce((sum, r) => sum + r.sample_count, 0)`: every day's count is
      part of the total. */
  function SampleTotal(g: seq<DayEngagement>): (n: nat)
    ensures forall k :: 0 <= k < |g| ==> g[k].sampleCount <= n
    ensures g == [] ==> n == 0
  {
    if g == [] then 0 else SampleTotal(g[..|g| - 1]) + g[|g| - 1].sampleCount
  }

  /** The per-day averages the overall average is taken over. */
  function DayAverages(g: seq<DayEngagement>): (xs: seq<real>)
    ensures |xs| == |g|
    ensures forall i :: 0 <= i < |g| ==> xs[i] == g[i].avgEngagement
  {
    seq(|g|, i requires 0 <= i < |g| => g[i].avgEngagement)
  }

  /** How often `d` occurs in `ds`. */
  function Occurrences(ds: seq<Date>, d: Date): nat {
    if ds == [] then 0 else Occurrences(ds[..|ds| - 1], d) + (if ds[|ds| - 1] == d then 1 else 0)
  }

  lemma {:induction false} OccursOnce(ds: seq<Date>, d: Date)
    requires forall i, j :: 0 <= i < j < |ds| ==> ds[i] != ds[j]
    requires d in ds
    ensures Occurrences(ds, d) == 1
  {
    var p := ds[..|ds| - 1];
    if ds[|ds| - 1] == d {
      OccursNot(p, d);
    } else {
      assert d in p by {
        var k :| 0 <= k < |ds| && ds[k] == d;
        assert k < |ds| - 1 && p[k] == d;
      }
      OccursOnce(p, d);
    }
  }

  lemma {:induction false} OccursNot(ds: seq<Date>, d: Date)
    requires d !in ds
    ensures Occurrences(ds, d) == 0
  {
    if ds != [] {
      assert d !in ds[..|ds| - 1];
      OccursNot(ds[..|ds| - 1], d);
    }
  }

  lemma {:induction false} NoSamples(ds: seq<Date>)
    ensures SampleTotal(Groups([], ds)) == 0
  {
    if ds != [] {
      NoSamples(ds[..|ds| - 1]);
      assert Groups([], ds)[..|ds| - 1] == Groups([], ds[..|ds| - 1]);
    }
  }

  /** One more row adds one sample to every occurrence of its day. */
  lemma {:induction false} SamplesStep(rows: seq<Db.EngagementRow>, r: Db.EngagementRow, ds: seq<Date>)
    ensures SampleTotal(Groups(rows + [r], ds)) == SampleTotal(Groups(rows, ds)) + Occurrences(ds, r.sessionDate)
  {
    if ds != [] {
      var p := ds[..|ds| - 1];
      var d := ds[|ds| - 1];
      SamplesStep(rows, r, p);
      assert (rows + [r])[..|rows|] == rows;
      assert Groups(rows + [r], ds)[..|p|] == Groups(rows + [r], p);
      assert Groups(rows, ds)[..|p|] == Groups(rows, p);
    }
  }

  /** Grouping over days that are distinct and cover every row keeps every
      row in exactly one group. */
  lemma {:induction false} SamplesCover(rows: seq<Db.EngagementRow>, ds: seq<Date>)
    requires forall i, j :: 0 <= i < j < |ds| ==> ds[i] != ds[j]
    requires forall i :: 0 <= i < |rows| ==> rows[i].sessionDate in ds
    ensures SampleTotal(Groups(rows, ds)) == |rows|
  {
    if rows == [] {
      NoSamples(ds);
    } else {
      var p := rows[..|rows| - 1];
      var r := rows[|rows| - 1];
      SamplesCover(p, ds);
      assert rows == p + [r];
      SamplesStep(p, r, ds);
      OccursOnce(ds, r.sessionDate);
    }
  }

  /** `engagement_samples` is the number of engagement rows grouped. */
  lemma SamplesCountRows(rows: seq<Db.EngagementRow>)
    ensures SampleTotal(GroupByDate(rows)) == |rows|
  {
    SamplesCover(rows, DatesOf(rows));
  }

  /** Every score counted for a day lies within bounds every score keeps. */
  lemma {:induction false} ScoresOnWithin(rows: seq<Db.EngagementRow>, d: Date, lo: real, hi: real)
    requires forall i :: 0 <= i < |rows| ==> lo <= rows[i].attentionScore <= hi
    ensures forall k :: 0 <= k < |ScoresOn(rows, d)| ==> lo <= ScoresOn(rows, d)[k] <= hi
  {
    if rows != [] {
      ScoresOnWithin(rows[..|rows| - 1], d, lo, hi);
    }
  }

  /** A day some row falls on has at least one score. */
  lemma {:induction false} ScoresOnNonEmpty(rows: seq<Db.EngagementRow>, i: nat)
    requires i < |rows|
    ensures |ScoresOn(rows, rows[i].sessionDate)| > 0
  {
    var p := rows[..|rows| - 1];
    if i < |rows| - 1 {
      ScoresOnNonEmpty(p, i);
      assert p[i] == rows[i];
    }
  }

  /** The average of one day some row falls on lies within any bounds every
      score keeps. */
  lemma DayAverageWithin(rows: seq<Db.EngagementRow>, k: nat, lo: real, hi: real)
    requires forall i :: 0 <= i < |rows| ==> lo <= rows[i].attentionScore <= hi
    requires k < |GroupByDate(rows)|
    ensures lo <= GroupByDate(rows)[k].avgEngagement <= hi
  {
    var ds := DatesOf(rows);
    var d := ds[k];
    assert d in ds;
    var i :| 0 <= i < |rows| && rows[i].sessionDate == d;
    ScoresOnNonEmpty(rows, i);
    ScoresOnWithin(rows, d, lo, hi);
    GroupsPrefix(rows, ds, k + 1);
    MeanBounds(ScoresOn(rows, d), lo, hi);
  }

  /** The average of the days lies within any bounds every score keeps; it
      is 0 when there is no row. */
  lemma DayAveragesWithin(rows: seq<Db.EngagementRow>, lo: real, hi: real)
    requires forall i :: 0 <= i < |rows| ==> lo <= rows[i].attentionScore <= hi
    ensures rows == [] ==> Mean(DayAverages(GroupByDate(rows))) == 0.0
    ensures rows != [] ==> lo <= Mean(DayAverages(GroupByDate(rows))) <= hi
  {
    var xs := DayAverages(GroupByDate(rows));
    forall k | 0 <= k < |xs| ensures lo <= xs[k] <= hi {
      DayAverageWithin(rows, k, lo, hi);
    }
    if rows != [] {
      assert rows[0].sessionDate in DatesOf(rows);
      MeanBounds(xs, lo, hi);
    }
  }

  /** A prefix of the days gives the prefix of the groups, and the last
      group of it is that day's mean and count. */
  lemma {:induction false} GroupsPrefix(rows: seq<Db.EngagementRow>, ds: seq<Date>, n: nat)
    requires 0 < n <= |ds|
    ensures Groups(rows, ds)[..n] == Groups(rows, ds[..n])
    ensures Groups(rows, ds)[n - 1] == DayEngagement(ds[n - 1], Mean(ScoresOn(rows, ds[n - 1])), |ScoresOn(rows, ds[n - 1])|)
    decreases |ds|
  {
    if n < |ds| {
      GroupsPrefix(rows, ds[..|ds| - 1], n);
      assert ds[..|ds| - 1][..n] == ds[..n];
    } else {
      assert ds[..n] == ds;
    }
  }

  /** The row of the students table `getStudentById` found. */
  datatype Student = Student(id: int, name: string, photoPath: Option<string>)

  datatype StudentStatistics = StudentStatistics(totalAttendanceDays: nat, avgEngagement: real, engagementSamples: nat)

  datatype StudentReply =
    | InvalidId   // 400
    | NotFound    // 404
    | StudentReport(student: Student, startDate: Option<Date>, endDate: Option<Date>,
                    statistics: StudentStatistics, attendance: seq<Db.AttendanceRow>,
                    engagementByDate: seq<DayEngagement>)

  /** `GET /student/:id`. `id` is `parseInt` of the path segment, None for
      NaN; `student` what the lookup found; `attendance` and `engagement`
      the two tables the history queries read. */
  function StudentHistory(id: Option<int>, student: Option<Student>, start: Option<Date>, end: Option<Date>,
                          attendance: seq<Db.AttendanceRow>, engagement: seq<Db.EngagementRow>): (r: StudentReply)
    ensures r.InvalidId? <==> id.None?
    ensures r.NotFound? <==> id.Some? && student.None?
    ensures r.StudentReport? ==>
              && var f := SelectDateFilter(start, end);
              && var rows := EngagementOf(engagement, id.value, f);
              && r.student == student.value && r.startDate == start && r.endDate == end
              && r.attendance == AttendanceOf(attendance, id.value, f)
              && r.statistics.totalAttendanceDays == |r.attendance|
              && r.engagementByDate == GroupByDate(rows)
              && r.statistics.engagementSamples == |rows|
              && r.statistics.avgEngagement == Mean(DayAverages(r.engagementByDate))
              && (rows == [] ==> r.statistics.avgEngagement == 0.0)
  {
    if id.None? then InvalidId
    else if student.None? then NotFound
    else
      var f := SelectDateFilter(start, end);
      var att := AttendanceOf(attendance, id.value, f);
      var rows := EngagementOf(engagement, id.value, f);
      var days := GroupByDate(rows);
      SamplesCountRows(rows);
      StudentReport(student.value, start, end,
                    StudentStatistics(|att|, Mean(DayAverages(days)), SampleTotal(days)),
                    att, days)
  }
}
