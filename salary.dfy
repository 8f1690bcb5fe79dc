/** `salary_summary`: salary aggregates per role and posting month, rebuilt on
    every call, and its month-filtered reader. */
module Salary {
  import opened Common
  import opened Seqs
  import opened Grouping
  import opened Numbers
  import opened Schema
  import opened TableStore

  // ---------------------------------------------------------------------
  // The month of `job_posted_date`

  predicate IsDigit(c: char) {
    '0' <= c <= '9'
  }

  function DigitValue(c: char): int {
    c as int - '0' as int
  }

  function TwoDigits(a: char, b: char): int {
    10 * DigitValue(a) + DigitValue(b)
  }

  /** The text starts with a `YYYY-MM-DD` date whose month is 01..12 and day
      01..31, followed by nothing or by a time part after a space or a `T`. */
  predicate WellFormedDate(s: string) {
    |s| >= 10
    && IsDigit(s[0]) && IsDigit(s[1]) && IsDigit(s[2]) && IsDigit(s[3]) && s[4] == '-'
    && IsDigit(s[5]) && IsDigit(s[6]) && s[7] == '-' && IsDigit(s[8]) && IsDigit(s[9])
    && 1 <= TwoDigits(s[5], s[6]) <= 12 && 1 <= TwoDigits(s[8], s[9]) <= 31
    && (|s| == 10 || s[10] == ' ' || s[10] == 'T')
  }

  /** `CAST(strftime('%m', job_posted_date) AS INTEGER)`: NULL for a NULL or unreadable date. */
  function MonthOf(date: Option<string>): (m: Option<int>)
    ensures m.Some? <==> date.Some? && WellFormedDate(date.value)
    ensures m.Some? ==> 1 <= m.value <= 12
  {
    if date.Some? && WellFormedDate(date.value) then Some(TwoDigits(date.value[5], date.value[6]))
    else None
  }

  function Digit(n: int): char
    requires 0 <= n <= 9
  {
    ('0' as int + n) as char
  }

  /** `YYYY-MM-DD` for a year, month and day in range. */
  function DateText(year: int, month: int, day: int): string
    requires 0 <= year <= 9999 && 1 <= month <= 12 && 1 <= day <= 31
  {
    [Digit(year / 1000), Digit(year / 100 % 10), Digit(year / 10 % 10), Digit(year % 10), '-',
     Digit(month / 10), Digit(month % 10), '-', Digit(day / 10), Digit(day % 10)]
  }

  /** The month read back from a written date, with or without a time part, is the month written. */
  lemma MonthOfDateText(year: int, month: int, day: int, time: string)
    requires 0 <= year <= 9999 && 1 <= month <= 12 && 1 <= day <= 31
    ensures MonthOf(Some(DateText(year, month, day))) == Some(month)
    ensures MonthOf(Some(DateText(year, month, day) + " " + time)) == Some(month)
  {
    var s := DateText(year, month, day);
    assert TwoDigits(s[5], s[6]) == month;
    assert TwoDigits(s[8], s[9]) == day;
    var s' := s + " " + time;
    assert s'[..10] == s && s'[10] == ' ';
  }

  // ---------------------------------------------------------------------
  // Builder

  /** The group key `(job_title_short, month)`; either part may be NULL. */
  datatype SalaryKey = SalaryKey(titleShort: Option<string>, month: Option<int>)

  function KeyOf(j: Job): SalaryKey {
    SalaryKey(j.jobTitleShort, MonthOf(j.postedDate))
  }

  /** The group keys of the postings that pass `WHERE salary_year_avg IS NOT NULL`. */
  function SalaryKeys(jobs: seq<Job>): seq<SalaryKey> {
    if |jobs| == 0 then []
    else
      var j := jobs[|jobs| - 1];
      SalaryKeys(jobs[..|jobs| - 1]) + (if j.salary.Some? then [KeyOf(j)] else [])
  }

  /** The salaries of the postings in group `k`. */
  function SalariesFor(k: SalaryKey, jobs: seq<Job>): seq<int> {
    if |jobs| == 0 then []
    else
      var j := jobs[|jobs| - 1];
      SalariesFor(k, jobs[..|jobs| - 1]) + (if j.salary.Some? && KeyOf(j) == k then [j.salary.value] else [])
  }

  /** COUNT(*), AVG, MAX and MIN of one group's salaries. */
  function Aggregate(k: SalaryKey, s: seq<int>): SalaryRow {
    SalaryRow(k.titleShort, k.month, |s|,
      if |s| == 0 then 0.0 else SumInt(s) as real / |s| as real, MaxInt(s), MinInt(s))
  }

  /** The rows of `salary_summary`, one per group key in order of first occurrence. */
  function SalaryRows(jobs: seq<Job>): seq<SalaryRow> {
    Map(Distinct(SalaryKeys(jobs)), (k: SalaryKey) => Aggregate(k, SalariesFor(k, jobs)))
  }

  function RowKey(r: SalaryRow): SalaryKey {
    SalaryKey(r.titleShort, r.month)
  }

  /** A salary belongs to group `k` exactly when some salaried posting of that key has it. */
  lemma {:induction false} SalariesForMembers(k: SalaryKey, jobs: seq<Job>, x: int)
    ensures x in SalariesFor(k, jobs) <==> exists j :: j in jobs && j.salary == Some(x) && KeyOf(j) == k
  {
    if |jobs| > 0 {
      SplitLast(jobs);
      SalariesForMembers(k, jobs[..|jobs| - 1], x);
    }
  }

  /** A group has as many salaries as its key has salaried postings. */
  lemma {:induction false} SalariesForCount(k: SalaryKey, jobs: seq<Job>)
    ensures |SalariesFor(k, jobs)| == Count(k, SalaryKeys(jobs))
  {
    if |jobs| > 0 {
      var init := jobs[..|jobs| - 1];
      var j := jobs[|jobs| - 1];
      SalariesForCount(k, init);
      var tail := if j.salary.Some? then [KeyOf(j)] else [];
      CountAppend(k, SalaryKeys(init), tail);
      if j.salary.Some? {
        assert tail[..0] == [];
      }
    }
  }

  /** A key is grouped exactly when some posting with a salary carries it. */
  lemma {:induction false} SalaryKeysMembers(jobs: seq<Job>, k: SalaryKey)
    ensures k in SalaryKeys(jobs) <==> exists j :: j in jobs && j.salary.Some? && KeyOf(j) == k
  {
    if |jobs| > 0 {
      SplitLast(jobs);
      SalaryKeysMembers(jobs[..|jobs| - 1], k);
    }
  }

  /** Only postings with a salary count, and their number is that of the filter. */
  lemma {:induction false} SalaryKeysSize(jobs: seq<Job>)
    ensures |SalaryKeys(jobs)| == |Filter(jobs, (j: Job) => j.salary.Some?)|
  {
    if |jobs| > 0 {
      SalaryKeysSize(jobs[..|jobs| - 1]);
    }
  }

  lemma CastMul(a: int, b: int)
    ensures (a * b) as real == a as real * b as real
  {
  }

  lemma AvgBetween(lo: int, sum: int, hi: int, n: int)
    requires n > 0 && n * lo <= sum <= n * hi
    ensures lo as real <= sum as real / n as real <= hi as real
  {
    CastMul(n, lo);
    CastMul(n, hi);
    DivBetween(lo as real, sum as real, hi as real, n as real);
  }

  lemma MinAvgMax(s: seq<int>)
    requires |s| > 0
    ensures MinInt(s) as real <= SumInt(s) as real / |s| as real <= MaxInt(s) as real
  {
    SumIntBounds(s);
    AvgBetween(MinInt(s), SumInt(s), MaxInt(s), |s|);
  }

  /** One row per (role, month) that has a salaried posting, and none for any
      other pair. */
  lemma SalaryRowsKeys(jobs: seq<Job>, k: SalaryKey)
    ensures NoDups(Map(SalaryRows(jobs), RowKey))
    ensures k in Map(SalaryRows(jobs), RowKey) <==> exists j :: j in jobs && j.salary.Some? && KeyOf(j) == k
  {
    var d := Distinct(SalaryKeys(jobs));
    assert Map(SalaryRows(jobs), RowKey) == d;
    SalaryKeysMembers(jobs, k);
    if k in SalaryKeys(jobs) {
      var i :| 0 <= i < |SalaryKeys(jobs)| && SalaryKeys(jobs)[i] == k;
    }
    if k in d {
      var i :| 0 <= i < |d| && d[i] == k;
    }
  }

  /** Every row aggregates the salaried postings of its own role and month:
      its count is their number and at least 1, its average is their salaries'
      sum divided by that count, so it lies between its minimum and its maximum, and
      the extremes are the smallest and the largest of those salaries. */
  lemma SalaryRowsAggregates(jobs: seq<Job>, r: SalaryRow)
    requires r in SalaryRows(jobs)
    ensures r.count == Count(RowKey(r), SalaryKeys(jobs)) && r.count >= 1
    ensures r.avgSalary == SumInt(SalariesFor(RowKey(r), jobs)) as real / r.count as real
    ensures r.minSalary as real <= r.avgSalary <= r.maxSalary as real
    ensures exists j :: j in jobs && j.salary == Some(r.maxSalary) && KeyOf(j) == RowKey(r)
    ensures exists j :: j in jobs && j.salary == Some(r.minSalary) && KeyOf(j) == RowKey(r)
    ensures forall j :: j in jobs && j.salary.Some? && KeyOf(j) == RowKey(r) ==>
      r.minSalary <= j.salary.value <= r.maxSalary
  {
    var d := Distinct(SalaryKeys(jobs));
    var i :| 0 <= i < |d| && SalaryRows(jobs)[i] == r;
    var k := d[i];
    var s := SalariesFor(k, jobs);
    assert RowKey(r) == k;
    SalariesForCount(k, jobs);
    MinAvgMax(s);
    SalariesForMembers(k, jobs, MaxInt(s));
    SalariesForMembers(k, jobs, MinInt(s));
    forall j | j in jobs && j.salary.Some? && KeyOf(j) == k ensures MinInt(s) <= j.salary.value <= MaxInt(s) {
      SalariesForMembers(k, jobs, j.salary.value);
    }
  }

  function CountTotal(rows: seq<SalaryRow>): nat {
    if |rows| == 0 then 0 else CountTotal(rows[..|rows| - 1]) + rows[|rows| - 1].count
  }

  lemma {:induction false} CountTotalOfKeys(d: seq<SalaryKey>, jobs: seq<Job>)
    ensures CountTotal(Map(d, (k: SalaryKey) => Aggregate(k, SalariesFor(k, jobs))))
      == SumCounts(d, SalaryKeys(jobs))
  {
    if |d| > 0 {
      var f := (k: SalaryKey) => Aggregate(k, SalariesFor(k, jobs));
      assert Map(d, f)[..|d| - 1] == Map(d[..|d| - 1], f);
      CountTotalOfKeys(d[..|d| - 1], jobs);
      SalariesForCount(d[|d| - 1], jobs);
    }
  }

  /** The counts add up to the number of postings with a salary. */
  lemma SalaryRowsTotal(jobs: seq<Job>)
    ensures CountTotal(SalaryRows(jobs)) == |Filter(jobs, (j: Job) => j.salary.Some?)|
  {
    CountTotalOfKeys(Distinct(SalaryKeys(jobs)), jobs);
    SumCountsDistinct(SalaryKeys(jobs));
    SalaryKeysSize(jobs);
  }

  /** The builder's effect: drop `salary_summary`, then create it from the
      postings. It touches no other table and fails exactly when the postings
      cannot be read; the drop has still happened then, so no `salary_summary`
      is left behind. */
  function SalaryBuild(t: Tables): (s: Step)
    ensures s.tables - {SALARY_SUMMARY} == t - {SALARY_SUMMARY}
    ensures s.outcome.Pass? <==> JobsOf(t).Ok?
    ensures s.outcome.Pass? ==> SALARY_SUMMARY in s.tables
    ensures s.outcome.Fail? ==> SALARY_SUMMARY !in s.tables && s.outcome == Fail(JobsOf(t).error)
  {
    var dropped := t - {SALARY_SUMMARY};
    assert JobsOf(dropped) == JobsOf(t);
    assert dropped - {SALARY_SUMMARY} == dropped;
    match JobsOf(dropped)
    case Err(e) => Step(dropped, Fail(e))
    case Ok(jobs) => Step(dropped[SALARY_SUMMARY := SalaryTable(SalaryRows(jobs))], Pass)
  }

  method CreateSalarySummary(db: Store) returns (o: Outcome<DbError>)
    modifies db
    ensures Step(db.tables, o) == SalaryBuild(old(db.tables))
  {
    db.DropIfExists(SALARY_SUMMARY);
    var jobs := JobsOf(db.tables);
    if jobs.Err? {
      return Fail(jobs.error);
    }
    o := db.CreateAs(SALARY_SUMMARY, SalaryTable(SalaryRows(jobs.value)));
  }

  /** Rerunning the builder gives the same database, and an existing summary
      (however stale) is replaced by one computed from the current postings. */
  lemma SalaryBuildIdempotent(t: Tables)
    ensures SalaryBuild(SalaryBuild(t).tables) == SalaryBuild(t)
    ensures SalaryBuild(t) == SalaryBuild(t - {SALARY_SUMMARY})
    ensures JobsOf(t).Ok? ==> (SalaryBuild(t).outcome == Pass
      && SalaryBuild(t).tables[SALARY_SUMMARY] == SalaryTable(SalaryRows(JobsOf(t).value)))
  {
    var dropped := t - {SALARY_SUMMARY};
    assert JobsOf(t) == JobsOf(dropped);
    var t1 := SalaryBuild(t).tables;
    assert t1 - {SALARY_SUMMARY} == dropped;
    assert (t - {SALARY_SUMMARY}) - {SALARY_SUMMARY} == dropped;
  }

  // ---------------------------------------------------------------------
  // Reader

  /** `WHERE month = ?`: the rows of one month, in table order, each as often as
      the table holds it; a NULL month matches no `m`. */
  function RowsOfMonth(rows: seq<SalaryRow>, month: Option<int>): (r: seq<SalaryRow>)
    ensures forall x :: Count(x, r) == if x.month == month then Count(x, rows) else 0
  {
    var p := (x: SalaryRow) => x.month == month;
    assert forall x :: Count(x, Filter(rows, p)) == if p(x) then Count(x, rows) else 0 by {
      forall x ensures Count(x, Filter(rows, p)) == if p(x) then Count(x, rows) else 0 {
        FilterCount(rows, p, x);
      }
    }
    Filter(rows, p)
  }

  /** `load_salary_summary(month)`: every row for `None`, the rows with
      `month = m` otherwise. */
  function LoadSalarySummary(t: Tables, month: Option<int>): (r: Result<seq<SalaryRow>, DbError>)
    ensures SALARY_SUMMARY !in t ==> r == Err(NoSuchTable(SALARY_SUMMARY))
    ensures r.Ok? <==> SALARY_SUMMARY in t && t[SALARY_SUMMARY].SalaryTable?
    ensures r.Ok? && month.None? ==> r.value == t[SALARY_SUMMARY].salaryRows
    ensures r.Ok? && month.Some? ==> r.value == RowsOfMonth(t[SALARY_SUMMARY].salaryRows, month)
    ensures r.Ok? && month.Some? ==> forall x :: x in r.value <==>
      x in t[SALARY_SUMMARY].salaryRows && x.month == month
  {
    if SALARY_SUMMARY !in t then Err(NoSuchTable(SALARY_SUMMARY))
    else match t[SALARY_SUMMARY]
      case SalaryTable(rows) =>
        if month.None? then Ok(rows)
        else
          var kept := RowsOfMonth(rows, month);
          assert forall x :: x in kept <==> x in rows && x.month == month by {
            forall x ensures x in kept <==> x in rows && x.month == month {
              assert Count(x, kept) == if x.month == month then Count(x, rows) else 0;
            }
          }
          Ok(kept)
      case _ => Err(NoSuchColumn("month"))
  }

  /** After a build, the rows read for month `m` are exactly the aggregates of
      the (role, m) groups with a salaried posting in month `m`. */
  lemma LoadMonthAfterBuild(t: Tables, m: int, role: Option<string>)
    requires JobsOf(t).Ok?
    ensures var r := LoadSalarySummary(SalaryBuild(t).tables, Some(m));
      r.Ok? && ((exists x :: x in r.value && x.titleShort == role) <==>
        exists j :: j in JobsOf(t).value && j.salary.Some? && j.jobTitleShort == role && MonthOf(j.postedDate) == Some(m))
  {
    var jobs := JobsOf(t).value;
    var rows := SalaryRows(jobs);
    var r := LoadSalarySummary(SalaryBuild(t).tables, Some(m));
    LoadMonthRows(t, m);
    var k := SalaryKey(role, Some(m));
    SalaryRowsKeys(jobs, k);
    KeyInRows(rows, k);
    assert (exists x :: x in r.value && x.titleShort == role) <==> exists x :: x in rows && RowKey(x) == k by {
      if exists x :: x in r.value && x.titleShort == role {
        var x :| x in r.value && x.titleShort == role;
        assert x in rows && RowKey(x) == k;
      }
      if exists x :: x in rows && RowKey(x) == k {
        var x :| x in rows && RowKey(x) == k;
        assert x in r.value;
      }
    }
    assert (exists j :: j in jobs && j.salary.Some? && j.jobTitleShort == role && MonthOf(j.postedDate) == Some(m))
      <==> exists j :: j in jobs && j.salary.Some? && KeyOf(j) == k;
  }

  lemma LoadMonthRows(t: Tables, m: int)
    requires JobsOf(t).Ok?
    ensures var r := LoadSalarySummary(SalaryBuild(t).tables, Some(m));
      r.Ok? && forall x :: x in r.value <==> x in SalaryRows(JobsOf(t).value) && x.month == Some(m)
  {
    SalaryBuildIdempotent(t);
  }

  /** Some row carries key `k` exactly when `k` is among the rows' keys. */
  lemma KeyInRows(rows: seq<SalaryRow>, k: SalaryKey)
    ensures (exists x :: x in rows && RowKey(x) == k) <==> k in Map(rows, RowKey)
  {
    if exists x :: x in rows && RowKey(x) == k {
      var x :| x in rows && RowKey(x) == k;
      var i :| 0 <= i < |rows| && rows[i] == x;
      assert Map(rows, RowKey)[i] == k;
    }
    if k in Map(rows, RowKey) {
      var i :| 0 <= i < |Map(rows, RowKey)| && Map(rows, RowKey)[i] == k;
      assert rows[i] in rows;
    }
  }
}
