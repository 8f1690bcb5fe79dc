/** The data side of the salary page: the month selector, the "All Months"
    re-aggregation per role, the top-10 selection and the four metrics. */
module SalaryPage {
  import opened Common
  import opened Seqs
  import opened Grouping
  import opened Numbers
  import opened Schema
  import Salary

  // ---------------------------------------------------------------------
  // Month selector

  const MonthNum: map<int, string> := map[
    1 := "January", 2 := "February", 3 := "March", 4 := "April", 5 := "May",
    6 := "June", 7 := "July", 8 := "August", 9 := "September",
    10 := "October", 11 := "November", 12 := "December"]

  /** `{v: k for k, v in month_num.items()}`. */
  const MonthNameToNum: map<string, int> := map[
    "January" := 1, "February" := 2, "March" := 3, "April" := 4, "May" := 5,
    "June" := 6, "July" := 7, "August" := 8, "September" := 9,
    "October" := 10, "November" := 11, "December" := 12]

  const ALL_MONTHS := "All Months"

  /** `["All Months"] + list(month_num.values())`, in month order. */
  function MonthOptions(): seq<string> {
    [ALL_MONTHS] + seq(12, i requires 0 <= i < 12 => MonthNum[i + 1])
  }

  /** The name map and the number map are inverse on the twelve months. */
  lemma MonthMapsInverse()
    ensures forall m :: m in MonthNum <==> 1 <= m <= 12
    ensures forall m :: 1 <= m <= 12 ==> MonthNum[m] in MonthNameToNum && MonthNameToNum[MonthNum[m]] == m
    ensures forall n :: n in MonthNameToNum ==> MonthNameToNum[n] in MonthNum && MonthNum[MonthNameToNum[n]] == n
  {
    forall m | 1 <= m <= 12 ensures MonthNum[m] in MonthNameToNum && MonthNameToNum[MonthNum[m]] == m {
      NameOfMonth(m);
    }
    forall n | n in MonthNameToNum ensures MonthNameToNum[n] in MonthNum && MonthNum[MonthNameToNum[n]] == n {
      MonthOfName(n);
    }
  }

  lemma MonthOfName(n: string)
    requires n in MonthNameToNum
    ensures MonthNameToNum[n] in MonthNum && MonthNum[MonthNameToNum[n]] == n
  {
    var m := MonthNameToNum[n];
    assert 1 <= m <= 12;
    NameOfMonth(m);
  }

  lemma NameOfMonth(m: int)
    requires 1 <= m <= 12
    ensures MonthNum[m] in MonthNameToNum && MonthNameToNum[MonthNum[m]] == m
  {
    if m <= 6 {
      if m == 1 {} else if m == 2 {} else if m == 3 {} else if m == 4 {} else if m == 5 {} else {}
    } else {
      if m == 7 {} else if m == 8 {} else if m == 9 {} else if m == 10 {} else if m == 11 {} else {}
    }
  }

  /** The selected option as a month filter: `None` for "All Months". */
  function MonthChosen(option: string): (m: Option<int>)
    requires option in MonthOptions()
  {
    if option == ALL_MONTHS then None
    else
      assert option in MonthNameToNum by {
        var i :| 0 <= i < |MonthOptions()| && MonthOptions()[i] == option;
        assert i != 0 && MonthOptions()[i] == MonthNum[i];
        NameOfMonth(i);
      }
      Some(MonthNameToNum[option])
  }

  /** Option `i` selects no month for `i = 0` and month `i` otherwise. */
  lemma MonthChosenOfOption(i: int)
    requires 0 <= i < |MonthOptions()|
    ensures MonthChosen(MonthOptions()[i]) == if i == 0 then None else Some(i)
  {
    if i > 0 {
      assert MonthOptions()[i] == MonthNum[i];
      MonthMapsInverse();
    }
  }

  // ---------------------------------------------------------------------
  // Summary rows

  /** A row of `summary_df`: a role with its salary figures and posting count. */
  datatype RoleSummary = RoleSummary(
    titleShort: Option<string>, avgSalary: real, maxSalary: int, minSalary: int, count: nat)

  /** `salary_df[salary_df['count'] > 0]`. */
  function Positive(rows: seq<SalaryRow>): seq<SalaryRow> {
    Filter(rows, (x: SalaryRow) => x.count > 0)
  }

  /** The (role, count) pairs of the rows with a role; pandas groupby drops NULL keys. */
  function CountPairs(rows: seq<SalaryRow>): seq<Grouped<string>> {
    if |rows| == 0 then []
    else
      var x := rows[|rows| - 1];
      CountPairs(rows[..|rows| - 1]) + (if x.titleShort.Some? then [Grouped(x.titleShort.value, x.count)] else [])
  }

  lemma {:induction false} CountPairsKeys(rows: seq<SalaryRow>, role: string)
    ensures role in Keys(CountPairs(rows)) <==> exists x :: x in rows && x.titleShort == Some(role)
  {
    var pairs := CountPairs(rows);
    if |rows| > 0 {
      var init := rows[..|rows| - 1];
      var x := rows[|rows| - 1];
      SplitLast(rows);
      CountPairsKeys(init, role);
      var tail := if x.titleShort.Some? then [Grouped(x.titleShort.value, x.count)] else [];
      assert pairs == CountPairs(init) + tail;
      assert Keys(pairs) == Keys(CountPairs(init)) + Keys(tail);
      if exists y :: y in rows && y.titleShort == Some(role) {
        var y :| y in rows && y.titleShort == Some(role);
        if y != x {
          assert y in init;
        } else {
          assert Keys(tail) == [role];
        }
      }
    }
  }

  /** The roles, one each, in order of first occurrence. */
  function Roles(rows: seq<SalaryRow>): seq<string> {
    Distinct(Keys(CountPairs(rows)))
  }

  function RoleRows(role: string, rows: seq<SalaryRow>): seq<SalaryRow> {
    Filter(rows, (x: SalaryRow) => x.titleShort == Some(role))
  }

  function Mean(s: seq<real>): real {
    if |s| == 0 then 0.0 else SumReal(s) / |s| as real
  }

  /** One role's row of the "All Months" aggregation: mean of the monthly
      averages, max of the maxima, min of the minima, sum of the counts. */
  function RoleSummaryOf(role: string, rows: seq<SalaryRow>): RoleSummary {
    var rs := RoleRows(role, rows);
    RoleSummary(Some(role), Mean(Map(rs, AvgSalaryOf)), MaxInt(Map(rs, MaxSalaryOf)),
      MinInt(Map(rs, MinSalaryOf)), SumFor(role, CountPairs(rows)))
  }

  function AvgSalaryOf(x: SalaryRow): real {
    x.avgSalary
  }

  function MaxSalaryOf(x: SalaryRow): int {
    x.maxSalary
  }

  function MinSalaryOf(x: SalaryRow): int {
    x.minSalary
  }

  function AllMonths(rows: seq<SalaryRow>): seq<RoleSummary> {
    Map(Roles(rows), (role: string) => RoleSummaryOf(role, rows))
  }

  /** `salary_df.copy()` for a chosen month, as summary rows. */
  function ChosenMonth(rows: seq<SalaryRow>): seq<RoleSummary> {
    Map(rows, (x: SalaryRow) => RoleSummary(x.titleShort, x.avgSalary, x.maxSalary, x.minSalary, x.count))
  }

  /** `summary_df` for the loaded rows and the chosen month. */
  function Summary(rows: seq<SalaryRow>, month: Option<int>): seq<RoleSummary> {
    if month.None? then AllMonths(Positive(rows)) else ChosenMonth(Positive(rows))
  }

  function TitleOf(s: RoleSummary): Option<string> {
    s.titleShort
  }

  function AvgOf(s: RoleSummary): real {
    s.avgSalary
  }

  /** The rows of a `salary_summary` built from postings all have a positive count,
      so the page's `count > 0` filter keeps every one of them. */
  lemma PositiveKeepsBuiltRows(jobs: seq<Job>)
    ensures Positive(Salary.SalaryRows(jobs)) == Salary.SalaryRows(jobs)
  {
    var rows := Salary.SalaryRows(jobs);
    forall x | x in rows ensures x.count > 0 {
      Salary.SalaryRowsAggregates(jobs, x);
    }
    FilterAll(rows, (x: SalaryRow) => x.count > 0);
  }

  /** A chosen month's rows reach the page unchanged. */
  lemma ChosenMonthUnchanged(rows: seq<SalaryRow>, i: int)
    requires 0 <= i < |rows|
    ensures |ChosenMonth(rows)| == |rows|
    ensures var s := ChosenMonth(rows)[i];
      s.titleShort == rows[i].titleShort && s.avgSalary == rows[i].avgSalary
      && s.maxSalary == rows[i].maxSalary && s.minSalary == rows[i].minSalary && s.count == rows[i].count
  {
  }

  /** `summary_df`: for a chosen month, the rows with a positive count reach the
      page one for one; for "All Months", one row per role that has a row with a
      positive count, and no other row. */
  lemma SummaryRows(rows: seq<SalaryRow>, month: Option<int>, role: string)
    ensures month.Some? ==>
      |Summary(rows, month)| == |Positive(rows)|
      && forall i :: 0 <= i < |Positive(rows)| ==>
        Summary(rows, month)[i].titleShort == Positive(rows)[i].titleShort
        && Summary(rows, month)[i].count == Positive(rows)[i].count > 0
    ensures month.None? ==>
      NoDups(Map(Summary(rows, month), TitleOf))
      && (Some(role) in Map(Summary(rows, month), TitleOf)
        <==> exists x :: x in rows && x.count > 0 && x.titleShort == Some(role))
  {
    var pos := Positive(rows);
    if month.None? {
      AllMonthsRoles(pos, role);
      if exists x :: x in rows && x.count > 0 && x.titleShort == Some(role) {
        var x :| x in rows && x.count > 0 && x.titleShort == Some(role);
        var j :| 0 <= j < |rows| && rows[j] == x;
        assert x in pos;
      }
    }
  }

  lemma RoleHasRows(role: string, rows: seq<SalaryRow>)
    requires role in Roles(rows)
    ensures |RoleRows(role, rows)| >= 1
  {
    CountPairsKeys(rows, role);
    var x :| x in rows && x.titleShort == Some(role);
    var j :| 0 <= j < |rows| && rows[j] == x;
    assert rows[j] in RoleRows(role, rows);
  }

  lemma AllMonthsTitles(rows: seq<SalaryRow>)
    ensures Map(AllMonths(rows), TitleOf) == Map(Roles(rows), (r: string) => Some(r))
  {
  }

  /** "All Months" gives one row per role with a non-NULL name, and none other. */
  lemma AllMonthsRoles(rows: seq<SalaryRow>, role: string)
    ensures NoDups(Map(AllMonths(rows), TitleOf))
    ensures forall s :: s in AllMonths(rows) ==> s.titleShort.Some?
    ensures Some(role) in Map(AllMonths(rows), TitleOf) <==> exists x :: x in rows && x.titleShort == Some(role)
  {
    AllMonthsTitles(rows);
    SomeOfEach(Roles(rows), role);
    CountPairsKeys(rows, role);
    forall s | s in AllMonths(rows) ensures s.titleShort.Some? {
      AllMonthsRow(rows, s);
    }
  }

  /** Wrapping distinct names in `Some` keeps them distinct and adds no other name. */
  lemma SomeOfEach(names: seq<string>, name: string)
    requires NoDups(names)
    ensures NoDups(Map(names, (r: string) => Some(r)))
    ensures Some(name) in Map(names, (r: string) => Some(r)) <==> name in names
  {
    var wrapped := Map(names, (r: string) => Some(r));
    forall i, j | 0 <= i < j < |names| ensures wrapped[i] != wrapped[j] {
      assert names[i] != names[j];
    }
    if name in names {
      var k :| 0 <= k < |names| && names[k] == name;
      assert wrapped[k] == Some(name);
    }
    if Some(name) in wrapped {
      var k :| 0 <= k < |wrapped| && wrapped[k] == Some(name);
      assert names[k] == name;
    }
  }

  lemma MeanWithin(s: seq<real>, lo: real, hi: real)
    requires |s| > 0 && forall x :: x in s ==> lo <= x <= hi
    ensures lo <= Mean(s) <= hi
  {
    SumRealBetween(s, lo, hi);
    DivBetween(lo, SumReal(s), hi, |s| as real);
  }

  lemma MeanBetween(s: seq<real>)
    requires |s| > 0
    ensures MinReal(s) <= Mean(s) <= MaxReal(s)
  {
    MeanWithin(s, MinReal(s), MaxReal(s));
  }

  /** Each "All Months" row sums the counts of its role's rows, has the largest
      maximum and the smallest minimum among them (both attained), and as its
      average the unweighted mean of the monthly averages, which lies between
      the smallest and the largest of them. */
  lemma AllMonthsAggregates(rows: seq<SalaryRow>, s: RoleSummary)
    requires s in AllMonths(rows)
    ensures s.titleShort.Some?
    ensures var rs := RoleRows(s.titleShort.value, rows);
      |rs| >= 1
      && s.count == SumFor(s.titleShort.value, CountPairs(rows))
      && (forall x :: x in rs ==> x.maxSalary <= s.maxSalary && s.minSalary <= x.minSalary)
      && (exists x :: x in rs && x.maxSalary == s.maxSalary)
      && (exists x :: x in rs && x.minSalary == s.minSalary)
      && s.avgSalary == SumReal(Map(rs, AvgSalaryOf)) / |rs| as real
      && (exists x :: x in rs && x.avgSalary <= s.avgSalary)
      && (exists y :: y in rs && s.avgSalary <= y.avgSalary)
  {
    AllMonthsRow(rows, s);
    var role :| role in Roles(rows) && s == RoleSummaryOf(role, rows);
    RoleSummaryFacts(role, rows);
  }

  lemma RoleSummaryFacts(role: string, rows: seq<SalaryRow>)
    requires role in Roles(rows)
    ensures var s := RoleSummaryOf(role, rows); var rs := RoleRows(role, rows);
      s.titleShort == Some(role)
      && |rs| >= 1
      && s.count == SumFor(role, CountPairs(rows))
      && (forall x :: x in rs ==> x.maxSalary <= s.maxSalary && s.minSalary <= x.minSalary)
      && (exists x :: x in rs && x.maxSalary == s.maxSalary)
      && (exists x :: x in rs && x.minSalary == s.minSalary)
      && s.avgSalary == SumReal(Map(rs, AvgSalaryOf)) / |rs| as real
      && (exists x :: x in rs && x.avgSalary <= s.avgSalary)
      && (exists y :: y in rs && s.avgSalary <= y.avgSalary)
  {
    RoleHasRows(role, rows);
    RoleFigures(RoleRows(role, rows));
  }

  lemma AllMonthsRow(rows: seq<SalaryRow>, s: RoleSummary)
    requires s in AllMonths(rows)
    ensures exists role :: role in Roles(rows) && s == RoleSummaryOf(role, rows)
  {
    var roles := Roles(rows);
    var k :| 0 <= k < |roles| && AllMonths(rows)[k] == s;
    assert roles[k] in roles;
  }

  lemma RoleFigures(rs: seq<SalaryRow>)
    requires |rs| >= 1
    ensures var hi, lo, avg := MaxInt(Map(rs, MaxSalaryOf)), MinInt(Map(rs, MinSalaryOf)), Mean(Map(rs, AvgSalaryOf));
      (forall x :: x in rs ==> x.maxSalary <= hi && lo <= x.minSalary)
      && (exists x :: x in rs && x.maxSalary == hi)
      && (exists x :: x in rs && x.minSalary == lo)
      && (exists x :: x in rs && x.avgSalary <= avg)
      && (exists y :: y in rs && avg <= y.avgSalary)
  {
    RoleMax(rs);
    RoleMin(rs);
    RoleMean(rs);
  }

  lemma RoleMax(rs: seq<SalaryRow>)
    requires |rs| >= 1
    ensures forall x :: x in rs ==> x.maxSalary <= MaxInt(Map(rs, MaxSalaryOf))
    ensures exists x :: x in rs && x.maxSalary == MaxInt(Map(rs, MaxSalaryOf))
  {
    var maxes := Map(rs, MaxSalaryOf);
    forall x | x in rs ensures x.maxSalary <= MaxInt(maxes) {
      var i :| 0 <= i < |rs| && rs[i] == x;
      assert maxes[i] in maxes;
    }
    var i :| 0 <= i < |maxes| && maxes[i] == MaxInt(maxes);
    assert rs[i] in rs;
  }

  lemma RoleMin(rs: seq<SalaryRow>)
    requires |rs| >= 1
    ensures forall x :: x in rs ==> MinInt(Map(rs, MinSalaryOf)) <= x.minSalary
    ensures exists x :: x in rs && x.minSalary == MinInt(Map(rs, MinSalaryOf))
  {
    var mins := Map(rs, MinSalaryOf);
    forall x | x in rs ensures MinInt(mins) <= x.minSalary {
      var i :| 0 <= i < |rs| && rs[i] == x;
      assert mins[i] in mins;
    }
    var j :| 0 <= j < |mins| && mins[j] == MinInt(mins);
    assert rs[j] in rs;
  }

  lemma RoleMean(rs: seq<SalaryRow>)
    requires |rs| >= 1
    ensures exists x :: x in rs && x.avgSalary <= Mean(Map(rs, AvgSalaryOf))
    ensures exists y :: y in rs && Mean(Map(rs, AvgSalaryOf)) <= y.avgSalary
  {
    var avgs := Map(rs, AvgSalaryOf);
    MeanBetween(avgs);
    var a :| 0 <= a < |avgs| && avgs[a] == MinReal(avgs);
    var b :| 0 <= b < |avgs| && avgs[b] == MaxReal(avgs);
    assert rs[a] in rs && rs[b] in rs;
  }

  // ---------------------------------------------------------------------
  // Metrics and the chart rows

  function CountSum(summary: seq<RoleSummary>): nat {
    if |summary| == 0 then 0 else CountSum(summary[..|summary| - 1]) + summary[|summary| - 1].count
  }

  lemma {:induction false} CountSumOfRoles(d: seq<string>, rows: seq<SalaryRow>)
    ensures CountSum(Map(d, (role: string) => RoleSummaryOf(role, rows))) == SumSums(d, CountPairs(rows))
  {
    if |d| > 0 {
      var f := (role: string) => RoleSummaryOf(role, rows);
      assert Map(d, f)[..|d| - 1] == Map(d[..|d| - 1], f);
      CountSumOfRoles(d[..|d| - 1], rows);
    }
  }

  /** "Total Jobs" for all months is the sum of the counts of the rows with a role:
      rows whose role is NULL are lost by the re-aggregation. */
  lemma AllMonthsTotal(rows: seq<SalaryRow>)
    ensures CountSum(AllMonths(rows)) == Total(CountPairs(rows))
  {
    CountSumOfRoles(Roles(rows), rows);
    SumSumsDistinct(CountPairs(rows));
  }

  /** The four metric cards. The average and the maximum are NaN (`None`) for no rows. */
  datatype Metrics = Metrics(totalJobs: nat, avgSalary: Option<real>, highestSalary: Option<int>, jobTypes: nat)

  function TitleSet(summary: seq<RoleSummary>): set<string> {
    set i | 0 <= i < |summary| && summary[i].titleShort.Some? :: summary[i].titleShort.value
  }

  function MetricsOf(summary: seq<RoleSummary>): Metrics {
    Metrics(
      CountSum(summary),
      if |summary| == 0 then None else Some(Mean(Map(summary, AvgOf))),
      if |summary| == 0 then None else Some(MaxInt(Map(summary, (s: RoleSummary) => s.maxSalary))),
      |TitleSet(summary)|)
  }

  /** The metrics read the summary: "Highest Salary" is a row's maximum and no row's
      is larger, "Avg Salary" is the unweighted mean of the row averages and lies
      between them. */
  lemma MetricsBounds(summary: seq<RoleSummary>)
    ensures var m := MetricsOf(summary);
      (m.highestSalary.Some? <==> |summary| > 0) && (m.avgSalary.Some? <==> |summary| > 0)
      && (|summary| > 0 ==>
        (exists s :: s in summary && s.maxSalary == m.highestSalary.value)
        && (forall s :: s in summary ==> s.maxSalary <= m.highestSalary.value)
        && m.avgSalary.value == SumReal(Map(summary, AvgOf)) / |summary| as real
        && (exists s, t :: s in summary && t in summary && s.avgSalary <= m.avgSalary.value <= t.avgSalary))
  {
    if |summary| > 0 {
      var maxes := Map(summary, (s: RoleSummary) => s.maxSalary);
      var avgs := Map(summary, AvgOf);
      forall s | s in summary ensures s.maxSalary <= MaxInt(maxes) {
        var i :| 0 <= i < |summary| && summary[i] == s;
        assert maxes[i] == s.maxSalary;
        assert maxes[i] in maxes;
      }
      var i :| 0 <= i < |maxes| && maxes[i] == MaxInt(maxes);
      assert summary[i].maxSalary == MaxInt(maxes);
      MeanBetween(avgs);
      var a :| 0 <= a < |avgs| && avgs[a] == MinReal(avgs);
      var b :| 0 <= b < |avgs| && avgs[b] == MaxReal(avgs);
      assert summary[a] in summary && summary[b] in summary;
    }
  }

  lemma {:induction false} NoDupsTitlesCard(summary: seq<RoleSummary>)
    requires NoDups(Map(summary, TitleOf))
    requires forall i :: 0 <= i < |summary| ==> summary[i].titleShort.Some?
    ensures |TitleSet(summary)| == |summary|
  {
    if |summary| > 0 {
      var init := summary[..|summary| - 1];
      var last := summary[|summary| - 1];
      assert Map(init, TitleOf) == Map(summary, TitleOf)[..|summary| - 1];
      NoDupsTitlesCard(init);
      assert TitleSet(summary) == TitleSet(init) + {last.titleShort.value};
      assert last.titleShort.value !in TitleSet(init);
    }
  }

  /** "Job Types" for all months is the number of summary rows, one per role. */
  lemma AllMonthsJobTypes(rows: seq<SalaryRow>)
    ensures MetricsOf(AllMonths(rows)).jobTypes == |AllMonths(rows)|
    ensures MetricsOf(AllMonths(rows)).totalJobs == Total(CountPairs(rows))
  {
    var summary := AllMonths(rows);
    AllMonthsRoles(rows, "");
    assert forall i :: 0 <= i < |summary| ==> summary[i].titleShort.Some? by {
      forall i | 0 <= i < |summary| ensures summary[i].titleShort.Some? {
        assert summary[i] in summary;
      }
    }
    NoDupsTitlesCard(summary);
    AllMonthsTotal(rows);
  }

  /** `summary_df.sort_values(by="avg_salary", ascending=False).head(10)`. */
  function Display(summary: seq<RoleSummary>): (d: seq<RoleSummary>)
    ensures |d| <= 10 && |d| <= |summary|
    ensures |d| == if |summary| < 10 then |summary| else 10
    ensures forall x :: x in d ==> x in summary
    ensures SortedDesc(d, AvgOf)
    ensures forall x, y :: (x in summary && x !in d && y in d) ==> y.avgSalary >= x.avgSalary
  {
    TopNDominates(summary, AvgOf, 10);
    TopNMembers(summary, AvgOf, 10);
    Take(SortDesc(summary, AvgOf), 10)
  }
}
