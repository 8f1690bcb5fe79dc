/** The four summary tables of the introduction page, rebuilt in sequence by
    `create_all_intro_summaries`, and their readers. */
module Introduction {
  import opened Common
  import opened Seqs
  import opened Grouping
  import opened Numbers
  import opened Schema
  import opened TableStore
  import opened Joins

  // ---------------------------------------------------------------------
  // top_job_title_summary

  function TitleIdPairs(jobs: seq<Job>): seq<(Option<string>, Option<Id>)> {
    Map(jobs, (j: Job) => (j.jobTitleShort, j.jobId))
  }

  /** `SELECT job_title_short, COUNT(DISTINCT job_id) ... GROUP BY job_title_short
      ORDER BY count DESC LIMIT 5`. */
  function TopTitles(jobs: seq<Job>): seq<Grouped<Option<string>>> {
    Take(SortDesc(GroupDistinct(TitleIdPairs(jobs)), CountOf), 5)
  }

  /** Five roles, or every role when there are fewer, largest first, each a
      group of the table with its number of distinct posting ids, and no role
      left out has more than a role kept. */
  lemma TopTitlesSpec(jobs: seq<Job>)
    ensures |TopTitles(jobs)| <= 5
    ensures |TopTitles(jobs)| ==
      if |GroupDistinct(TitleIdPairs(jobs))| < 5 then |GroupDistinct(TitleIdPairs(jobs))| else 5
    ensures forall g :: g in TopTitles(jobs) ==> g in GroupDistinct(TitleIdPairs(jobs))
    ensures SortedDesc(TopTitles(jobs), CountOf)
    ensures forall g :: g in TopTitles(jobs) ==> g.count == |GroupValues(g.key, TitleIdPairs(jobs))|
    ensures forall x, y :: (x in GroupDistinct(TitleIdPairs(jobs)) && x !in TopTitles(jobs)
      && y in TopTitles(jobs)) ==> y.count >= x.count
  {
    TopDistinctGroups(TitleIdPairs(jobs), 5);
    TopNMembers(GroupDistinct(TitleIdPairs(jobs)), CountOf, 5);
  }

  // ---------------------------------------------------------------------
  // skill_type_distribution_summary

  /** The `(type, job_title)` columns of the join tuples whose skill type is not NULL. */
  function TypeTitlePairs(tuples: seq<Joined>): seq<(string, Option<string>)> {
    if |tuples| == 0 then []
    else
      var x := tuples[|tuples| - 1];
      TypeTitlePairs(tuples[..|tuples| - 1])
        + (if x.skill.skillType.Some? then [(x.skill.skillType.value, x.job.jobTitle)] else [])
  }

  /** `SELECT s.type, COUNT(DISTINCT j.job_title) ... WHERE s.type IS NOT NULL GROUP BY s.type`. */
  function SkillTypes(links: seq<Link>, skills: seq<Skill>, jobs: seq<Job>): seq<Grouped<string>> {
    GroupDistinct(TypeTitlePairs(InnerJoin(links, skills, jobs)))
  }

  lemma {:induction false} TypeTitlePairsMembers(tuples: seq<Joined>, p: (string, Option<string>))
    ensures p in TypeTitlePairs(tuples) <==>
      exists x :: x in tuples && x.skill.skillType == Some(p.0) && x.job.jobTitle == p.1
  {
    if |tuples| > 0 {
      SplitLast(tuples);
      TypeTitlePairsMembers(tuples[..|tuples| - 1], p);
    }
  }

  /** A type has a row exactly when some joined (link, skill, posting) has a skill
      of that type; its count is the number of distinct titles among those postings. */
  lemma SkillTypesSpec(links: seq<Link>, skills: seq<Skill>, jobs: seq<Job>, ty: string)
    ensures NoDups(Keys(SkillTypes(links, skills, jobs)))
    ensures ty in Keys(SkillTypes(links, skills, jobs)) <==>
      exists l, s, j :: l in links && s in skills && j in jobs && JoinCond(l, s, j) && s.skillType == Some(ty)
    ensures forall g :: g in SkillTypes(links, skills, jobs) ==>
      g.count == |GroupValues(g.key, TypeTitlePairs(InnerJoin(links, skills, jobs)))|
  {
    var join := InnerJoin(links, skills, jobs);
    var pairs := TypeTitlePairs(join);
    DistinctGroupKeys(pairs, ty);
    if exists v :: (ty, v) in pairs {
      var v :| (ty, v) in pairs;
      TypeTitlePairsMembers(join, (ty, v));
      var x :| x in join && x.skill.skillType == Some(ty) && x.job.jobTitle == v;
      JoinMembership(links, skills, jobs, x);
    }
    if exists l, s, j :: l in links && s in skills && j in jobs && JoinCond(l, s, j) && s.skillType == Some(ty) {
      var l, s, j :| l in links && s in skills && j in jobs && JoinCond(l, s, j) && s.skillType == Some(ty);
      JoinMembership(links, skills, jobs, Joined(l, s, j));
      TypeTitlePairsMembers(join, (ty, j.jobTitle));
    }
  }

  // ---------------------------------------------------------------------
  // job_country_summary, introduction schema

  function Countries(jobs: seq<Job>): seq<Option<string>> {
    Map(jobs, (j: Job) => j.country)
  }

  /** `SELECT job_country, COUNT(*) ... GROUP BY job_country ORDER BY count DESC`:
      every country, the NULL one included, and no exclusion. */
  function IntroCountries(jobs: seq<Job>): seq<Grouped<Option<string>>> {
    SortDesc(GroupCount(Countries(jobs)), CountOf)
  }

  /** One row per country value of the postings (NULL included), largest first,
      each counting that country's postings, and the counts add up to all postings. */
  lemma IntroCountriesSpec(jobs: seq<Job>, c: Option<string>)
    ensures SortedDesc(IntroCountries(jobs), CountOf)
    ensures c in Keys(IntroCountries(jobs)) <==> exists j :: j in jobs && j.country == c
    ensures forall g :: g in IntroCountries(jobs) ==> g.count == Count(g.key, Countries(jobs))
    ensures Total(IntroCountries(jobs)) == |jobs|
  {
    SortedGroupCount(Countries(jobs), c);
    if c in Countries(jobs) {
      var m :| 0 <= m < |Countries(jobs)| && Countries(jobs)[m] == c;
      assert jobs[m] in jobs;
    }
    if exists j :: j in jobs && j.country == c {
      var j :| j in jobs && j.country == c;
      var m :| 0 <= m < |jobs| && jobs[m] == j;
      assert Countries(jobs)[m] == c;
    }
  }

  // ---------------------------------------------------------------------
  // job_summary_stats

  /** The salaries of the postings that have one, in posting order. */
  function Salaries(jobs: seq<Job>): seq<int> {
    if |jobs| == 0 then []
    else
      var j := jobs[|jobs| - 1];
      Salaries(jobs[..|jobs| - 1]) + (if j.salary.Some? then [j.salary.value] else [])
  }

  /** `SELECT COUNT(*), ROUND(AVG(salary_year_avg), 2) ... WHERE salary_year_avg IS NOT NULL`:
      one row; the WHERE clause also restricts the COUNT(*). */
  function SummaryStats(jobs: seq<Job>): seq<Stats> {
    var s := Salaries(jobs);
    [Stats(|s|, if |s| == 0 then None else Some(Round2(SumInt(s) as real / |s| as real)))]
  }

  lemma {:induction false} SalariesMembers(jobs: seq<Job>, x: int)
    ensures x in Salaries(jobs) <==> exists j :: j in jobs && j.salary == Some(x)
  {
    if |jobs| > 0 {
      SplitLast(jobs);
      SalariesMembers(jobs[..|jobs| - 1], x);
    }
  }

  lemma {:induction false} SalariesSize(jobs: seq<Job>)
    ensures |Salaries(jobs)| == |Filter(jobs, (j: Job) => j.salary.Some?)|
  {
    if |jobs| > 0 {
      SalariesSize(jobs[..|jobs| - 1]);
    }
  }

  /** Exactly one row. `total_jobs` counts the postings with a salary, not all
      postings; the average is NULL when there are none, and otherwise it is
      their salaries' sum divided by that count, rounded to two places, so it lies
      between the rounded smallest and the rounded largest salary. */
  lemma SummaryStatsSpec(jobs: seq<Job>)
    ensures |SummaryStats(jobs)| == 1
    ensures SummaryStats(jobs)[0].totalJobs == |Filter(jobs, (j: Job) => j.salary.Some?)|
    ensures SummaryStats(jobs)[0].avgSalary.None? <==> forall j :: j in jobs ==> j.salary.None?
    ensures SummaryStats(jobs)[0].avgSalary.Some? ==>
      SummaryStats(jobs)[0].totalJobs > 0
      && SummaryStats(jobs)[0].avgSalary.value
        == Round2(SumInt(Salaries(jobs)) as real / SummaryStats(jobs)[0].totalJobs as real)
    ensures SummaryStats(jobs)[0].avgSalary.Some? ==>
      exists lo, hi :: (exists j :: j in jobs && j.salary == Some(lo))
        && (exists j :: j in jobs && j.salary == Some(hi))
        && Round2(lo as real) <= SummaryStats(jobs)[0].avgSalary.value <= Round2(hi as real)
  {
    var s := Salaries(jobs);
    SalariesSize(jobs);
    if |s| == 0 {
      forall j | j in jobs ensures j.salary.None? {
        if j.salary.Some? {
          SalariesMembers(jobs, j.salary.value);
        }
      }
    } else {
      var lo, hi := MinInt(s), MaxInt(s);
      SalariesMembers(jobs, lo);
      SalariesMembers(jobs, hi);
      SumIntBounds(s);
      var mean := SumInt(s) as real / |s| as real;
      MeanBounds(lo, SumInt(s), hi, |s|);
      Round2Mono(lo as real, mean);
      Round2Mono(mean, hi as real);
    }
  }

  lemma MeanBounds(lo: int, sum: int, hi: int, n: int)
    requires n > 0 && n * lo <= sum <= n * hi
    ensures lo as real <= sum as real / n as real <= hi as real
  {
    assert (n * lo) as real == lo as real * n as real;
    assert (n * hi) as real == hi as real * n as real;
    DivBetween(lo as real, sum as real, hi as real, n as real);
  }

  // ---------------------------------------------------------------------
  // The builder: four drop/create steps; the first error stops it.

  /** Drop `name`, then create it from `rows` once the tables it reads exist. */
  function DropCreate(t: Tables, name: string, rows: Tables -> Result<Table, DbError>): Step {
    var dropped := t - {name};
    match rows(dropped)
    case Err(e) => Step(dropped, Fail(e))
    case Ok(table) => Step(dropped[name := table], Pass)
  }

  function TopTitleTableOf(t: Tables): Result<Table, DbError> {
    match JobsOf(t)
    case Err(e) => Err(e)
    case Ok(jobs) => Ok(TopTitleTable(TopTitles(jobs)))
  }

  function SkillTypeTableOf(t: Tables): Result<Table, DbError> {
    match RawOf(t)
    case Err(e) => Err(e)
    case Ok(raw) => Ok(SkillTypeTable(SkillTypes(raw.links, raw.skills, raw.jobs)))
  }

  function IntroCountryTableOf(t: Tables): Result<Table, DbError> {
    match JobsOf(t)
    case Err(e) => Err(e)
    case Ok(jobs) => Ok(IntroCountryTable(IntroCountries(jobs)))
  }

  function StatsTableOf(t: Tables): Result<Table, DbError> {
    match JobsOf(t)
    case Err(e) => Err(e)
    case Ok(jobs) => Ok(StatsTable(SummaryStats(jobs)))
  }

  /** Run a step only when the previous one passed. */
  function Then(s: Step, name: string, rows: Tables -> Result<Table, DbError>): Step {
    if s.outcome.Fail? then s else DropCreate(s.tables, name, rows)
  }

  /** The four tables the introduction builder writes. */
  function IntroTables(): set<string> {
    {TOP_JOB_TITLE_SUMMARY, SKILL_TYPE_DISTRIBUTION, JOB_COUNTRY_SUMMARY, JOB_SUMMARY_STATS}
  }

  /** A drop/create step changes only its own table. */
  lemma DropCreateFrame(t: Tables, name: string, rows: Tables -> Result<Table, DbError>, names: set<string>)
    requires name in names
    ensures DropCreate(t, name, rows).tables - names == t - names
  {
  }

  lemma ThenFrame(s: Step, name: string, rows: Tables -> Result<Table, DbError>, names: set<string>, t: Tables)
    requires name in names && s.tables - names == t - names
    ensures Then(s, name, rows).tables - names == t - names
  {
    if s.outcome.Pass? {
      DropCreateFrame(s.tables, name, rows, names);
    }
  }

  /** `create_all_intro_summaries`: four drop/create steps, the first error
      stopping the rest; no table outside the four is touched. */
  function IntroBuild(t: Tables): (s: Step)
    ensures s.tables - IntroTables() == t - IntroTables()
  {
    var s1 := DropCreate(t, TOP_JOB_TITLE_SUMMARY, TopTitleTableOf);
    var s2 := Then(s1, SKILL_TYPE_DISTRIBUTION, SkillTypeTableOf);
    var s3 := Then(s2, JOB_COUNTRY_SUMMARY, IntroCountryTableOf);
    DropCreateFrame(t, TOP_JOB_TITLE_SUMMARY, TopTitleTableOf, IntroTables());
    ThenFrame(s1, SKILL_TYPE_DISTRIBUTION, SkillTypeTableOf, IntroTables(), t);
    ThenFrame(s2, JOB_COUNTRY_SUMMARY, IntroCountryTableOf, IntroTables(), t);
    ThenFrame(s3, JOB_SUMMARY_STATS, StatsTableOf, IntroTables(), t);
    Then(s3, JOB_SUMMARY_STATS, StatsTableOf)
  }

  method DropCreateStep(db: Store, name: string, rows: Tables -> Result<Table, DbError>) returns (o: Outcome<DbError>)
    modifies db
    ensures Step(db.tables, o) == DropCreate(old(db.tables), name, rows)
  {
    db.DropIfExists(name);
    var table := rows(db.tables);
    if table.Err? {
      return Fail(table.error);
    }
    o := db.CreateAs(name, table.value);
  }

  method CreateAllIntroSummaries(db: Store) returns (o: Outcome<DbError>)
    modifies db
    ensures Step(db.tables, o) == IntroBuild(old(db.tables))
  {
    o := DropCreateStep(db, TOP_JOB_TITLE_SUMMARY, TopTitleTableOf);
    if o.Fail? {
      return;
    }
    o := DropCreateStep(db, SKILL_TYPE_DISTRIBUTION, SkillTypeTableOf);
    if o.Fail? {
      return;
    }
    o := DropCreateStep(db, JOB_COUNTRY_SUMMARY, IntroCountryTableOf);
    if o.Fail? {
      return;
    }
    o := DropCreateStep(db, JOB_SUMMARY_STATS, StatsTableOf);
  }

  /** Each table's contents depend on the raw tables alone. */
  lemma TableOfRaw(a: Tables, b: Tables)
    requires SameRaw(a, b)
    ensures TopTitleTableOf(a) == TopTitleTableOf(b) && SkillTypeTableOf(a) == SkillTypeTableOf(b)
    ensures IntroCountryTableOf(a) == IntroCountryTableOf(b) && StatsTableOf(a) == StatsTableOf(b)
  {
    SameRawOf(a, b);
  }

  lemma IntroNamesNotRaw()
    ensures !IsRawName(TOP_JOB_TITLE_SUMMARY) && !IsRawName(SKILL_TYPE_DISTRIBUTION)
    ensures !IsRawName(JOB_COUNTRY_SUMMARY) && !IsRawName(JOB_SUMMARY_STATS)
  {
  }

  /** One step on tables with the given raw tables: what it writes and that the raw tables stay. */
  lemma DropCreateRaw(t: Tables, name: string, rows: Tables -> Result<Table, DbError>)
    requires !IsRawName(name)
    ensures SameRaw(DropCreate(t, name, rows).tables, t)
    ensures DropCreate(t, name, rows).outcome.Pass? <==> rows(t - {name}).Ok?
    ensures rows(t - {name}).Ok? ==> DropCreate(t, name, rows).tables == (t - {name})[name := rows(t - {name}).value]
    ensures rows(t - {name}).Err? ==> DropCreate(t, name, rows).tables == t - {name}
  {
    SummaryWriteKeepsRaw(t, name, StatsTable([]));
    if rows(t - {name}).Ok? {
      SummaryWriteKeepsRaw(t - {name}, name, rows(t - {name}).value);
    }
  }

  /** With the raw tables present the builder passes and leaves the four tables
      computed from them, and no other table changes. */
  lemma IntroBuildResult(t: Tables)
    requires RawOf(t).Ok?
    ensures var raw := RawOf(t).value; var r := IntroBuild(t);
      r.outcome == Pass
      && r.tables == t[TOP_JOB_TITLE_SUMMARY := TopTitleTable(TopTitles(raw.jobs))]
        [SKILL_TYPE_DISTRIBUTION := SkillTypeTable(SkillTypes(raw.links, raw.skills, raw.jobs))]
        [JOB_COUNTRY_SUMMARY := IntroCountryTable(IntroCountries(raw.jobs))]
        [JOB_SUMMARY_STATS := StatsTable(SummaryStats(raw.jobs))]
  {
    IntroNamesNotRaw();
    var s1 := DropCreate(t, TOP_JOB_TITLE_SUMMARY, TopTitleTableOf);
    DropCreateRaw(t, TOP_JOB_TITLE_SUMMARY, TopTitleTableOf);
    SummaryWriteKeepsRaw(t, TOP_JOB_TITLE_SUMMARY, StatsTable([]));
    TableOfRaw(t - {TOP_JOB_TITLE_SUMMARY}, t);
    var s2 := Then(s1, SKILL_TYPE_DISTRIBUTION, SkillTypeTableOf);
    DropCreateRaw(s1.tables, SKILL_TYPE_DISTRIBUTION, SkillTypeTableOf);
    SummaryWriteKeepsRaw(s1.tables, SKILL_TYPE_DISTRIBUTION, StatsTable([]));
    TableOfRaw(s1.tables - {SKILL_TYPE_DISTRIBUTION}, t);
    var s3 := Then(s2, JOB_COUNTRY_SUMMARY, IntroCountryTableOf);
    DropCreateRaw(s2.tables, JOB_COUNTRY_SUMMARY, IntroCountryTableOf);
    SummaryWriteKeepsRaw(s2.tables, JOB_COUNTRY_SUMMARY, StatsTable([]));
    TableOfRaw(s2.tables - {JOB_COUNTRY_SUMMARY}, t);
    DropCreateRaw(s3.tables, JOB_SUMMARY_STATS, StatsTableOf);
    SummaryWriteKeepsRaw(s3.tables, JOB_SUMMARY_STATS, StatsTable([]));
    TableOfRaw(s3.tables - {JOB_SUMMARY_STATS}, t);
    MapDropUpdate(t, TOP_JOB_TITLE_SUMMARY, TopTitleTable(TopTitles(RawOf(t).value.jobs)));
    MapDropUpdate(s1.tables, SKILL_TYPE_DISTRIBUTION, SkillTypeTable(SkillTypes(RawOf(t).value.links, RawOf(t).value.skills, RawOf(t).value.jobs)));
    MapDropUpdate(s2.tables, JOB_COUNTRY_SUMMARY, IntroCountryTable(IntroCountries(RawOf(t).value.jobs)));
    MapDropUpdate(s3.tables, JOB_SUMMARY_STATS, StatsTable(SummaryStats(RawOf(t).value.jobs)));
  }

  lemma MapDropUpdate(t: Tables, name: string, table: Table)
    ensures (t - {name})[name := table] == t[name := table]
  {
  }

  lemma IntroNamesDistinct()
    ensures TOP_JOB_TITLE_SUMMARY != SKILL_TYPE_DISTRIBUTION && TOP_JOB_TITLE_SUMMARY != JOB_COUNTRY_SUMMARY
    ensures TOP_JOB_TITLE_SUMMARY != JOB_SUMMARY_STATS && SKILL_TYPE_DISTRIBUTION != JOB_COUNTRY_SUMMARY
    ensures SKILL_TYPE_DISTRIBUTION != JOB_SUMMARY_STATS && JOB_COUNTRY_SUMMARY != JOB_SUMMARY_STATS
  {
    assert |TOP_JOB_TITLE_SUMMARY| == 21 && |SKILL_TYPE_DISTRIBUTION| == 31;
    assert |JOB_COUNTRY_SUMMARY| == 19 && |JOB_SUMMARY_STATS| == 17;
  }

  /** Rerunning the builder changes nothing further, whether it passed or stopped at an error. */
  lemma IntroBuildIdempotent(t: Tables)
    ensures IntroBuild(IntroBuild(t).tables) == IntroBuild(t)
  {
    if RawOf(t).Ok? {
      IntroIdempotentPassed(t);
    } else if JobsOf(t).Err? {
      IntroIdempotentFirstFailed(t);
    } else {
      IntroIdempotentSecondFailed(t);
    }
  }

  lemma IntroIdempotentPassed(t: Tables)
    requires RawOf(t).Ok?
    ensures IntroBuild(IntroBuild(t).tables) == IntroBuild(t)
  {
    var raw := RawOf(t).value;
    var a := TopTitleTable(TopTitles(raw.jobs));
    var b := SkillTypeTable(SkillTypes(raw.links, raw.skills, raw.jobs));
    var c := IntroCountryTable(IntroCountries(raw.jobs));
    var d := StatsTable(SummaryStats(raw.jobs));
    var t1 := t[TOP_JOB_TITLE_SUMMARY := a];
    var t2 := t1[SKILL_TYPE_DISTRIBUTION := b];
    var t3 := t2[JOB_COUNTRY_SUMMARY := c];
    var u := t3[JOB_SUMMARY_STATS := d];
    IntroBuildResult(t);
    assert IntroBuild(t) == Step(u, Pass);
    IntroNamesNotRaw();
    SummaryWriteKeepsRaw(t, TOP_JOB_TITLE_SUMMARY, a);
    SummaryWriteKeepsRaw(t1, SKILL_TYPE_DISTRIBUTION, b);
    SummaryWriteKeepsRaw(t2, JOB_COUNTRY_SUMMARY, c);
    SummaryWriteKeepsRaw(t3, JOB_SUMMARY_STATS, d);
    SameRawOf(u, t);
    LookupsAfterWrites(t, a, b, c, d);
    IntroBuildOnBuilt(u, raw);
  }

  /** After the four writes each summary name holds the table last written to it. */
  lemma LookupsAfterWrites(t: Tables, a: Table, b: Table, c: Table, d: Table)
    ensures var u := t[TOP_JOB_TITLE_SUMMARY := a][SKILL_TYPE_DISTRIBUTION := b][JOB_COUNTRY_SUMMARY := c][JOB_SUMMARY_STATS := d];
      TOP_JOB_TITLE_SUMMARY in u && u[TOP_JOB_TITLE_SUMMARY] == a
      && SKILL_TYPE_DISTRIBUTION in u && u[SKILL_TYPE_DISTRIBUTION] == b
      && JOB_COUNTRY_SUMMARY in u && u[JOB_COUNTRY_SUMMARY] == c
      && JOB_SUMMARY_STATS in u && u[JOB_SUMMARY_STATS] == d
  {
    IntroNamesDistinct();
  }

  /** On tables that already hold what the build computes, the build changes nothing. */
  lemma IntroBuildOnBuilt(u: Tables, raw: Raw)
    requires RawOf(u) == Ok(raw)
    requires TOP_JOB_TITLE_SUMMARY in u && u[TOP_JOB_TITLE_SUMMARY] == TopTitleTable(TopTitles(raw.jobs))
    requires SKILL_TYPE_DISTRIBUTION in u
      && u[SKILL_TYPE_DISTRIBUTION] == SkillTypeTable(SkillTypes(raw.links, raw.skills, raw.jobs))
    requires JOB_COUNTRY_SUMMARY in u && u[JOB_COUNTRY_SUMMARY] == IntroCountryTable(IntroCountries(raw.jobs))
    requires JOB_SUMMARY_STATS in u && u[JOB_SUMMARY_STATS] == StatsTable(SummaryStats(raw.jobs))
    ensures IntroBuild(u) == Step(u, Pass)
  {
    IntroBuildResult(u);
    var a := TopTitleTable(TopTitles(raw.jobs));
    var b := SkillTypeTable(SkillTypes(raw.links, raw.skills, raw.jobs));
    var c := IntroCountryTable(IntroCountries(raw.jobs));
    var d := StatsTable(SummaryStats(raw.jobs));
    UpdateSame(u, TOP_JOB_TITLE_SUMMARY, a);
    UpdateSame(u, SKILL_TYPE_DISTRIBUTION, b);
    UpdateSame(u, JOB_COUNTRY_SUMMARY, c);
    UpdateSame(u, JOB_SUMMARY_STATS, d);
  }

  lemma UpdateSame(m: Tables, k: string, v: Table)
    requires k in m && m[k] == v
    ensures m[k := v] == m
  {
  }

  lemma IntroIdempotentFirstFailed(t: Tables)
    requires JobsOf(t).Err?
    ensures IntroBuild(IntroBuild(t).tables) == IntroBuild(t)
  {
    IntroNamesNotRaw();
    SummaryWriteKeepsRaw(t, TOP_JOB_TITLE_SUMMARY, StatsTable([]));
    var u := t - {TOP_JOB_TITLE_SUMMARY};
    assert IntroBuild(t) == Step(u, Fail(JobsOf(t).error));
    SummaryWriteKeepsRaw(u, TOP_JOB_TITLE_SUMMARY, StatsTable([]));
    assert u - {TOP_JOB_TITLE_SUMMARY} == u;
  }

  lemma IntroIdempotentSecondFailed(t: Tables)
    requires JobsOf(t).Ok? && RawOf(t).Err?
    ensures IntroBuild(IntroBuild(t).tables) == IntroBuild(t)
  {
    IntroNamesNotRaw();
    IntroNamesDistinct();
    var a := TopTitleTable(TopTitles(JobsOf(t).value));
    var u0 := t - {TOP_JOB_TITLE_SUMMARY};
    SummaryWriteKeepsRaw(t, TOP_JOB_TITLE_SUMMARY, a);
    assert DropCreate(t, TOP_JOB_TITLE_SUMMARY, TopTitleTableOf) == Step(u0[TOP_JOB_TITLE_SUMMARY := a], Pass);
    var u1 := u0[TOP_JOB_TITLE_SUMMARY := a];
    SummaryWriteKeepsRaw(u0, TOP_JOB_TITLE_SUMMARY, a);
    SummaryWriteKeepsRaw(u1, SKILL_TYPE_DISTRIBUTION, a);
    var u2 := u1 - {SKILL_TYPE_DISTRIBUTION};
    SameRawOf(u2, t);
    assert IntroBuild(t) == Step(u2, Fail(RawOf(t).error));
    SummaryWriteKeepsRaw(u2, TOP_JOB_TITLE_SUMMARY, a);
    SameRawOf(u2 - {TOP_JOB_TITLE_SUMMARY}, t);
    var v1 := (u2 - {TOP_JOB_TITLE_SUMMARY})[TOP_JOB_TITLE_SUMMARY := a];
    assert DropCreate(u2, TOP_JOB_TITLE_SUMMARY, TopTitleTableOf) == Step(v1, Pass);
    SummaryWriteKeepsRaw(u2 - {TOP_JOB_TITLE_SUMMARY}, TOP_JOB_TITLE_SUMMARY, a);
    SummaryWriteKeepsRaw(v1, SKILL_TYPE_DISTRIBUTION, a);
    SameRawOf(v1 - {SKILL_TYPE_DISTRIBUTION}, t);
    assert v1 - {SKILL_TYPE_DISTRIBUTION} == u2;
  }

  // ---------------------------------------------------------------------
  // Readers

  /** `load_top_job_title_summary`, `load_skill_type_distribution`,
      `load_job_country` and `load_job_summary_stats` each return their table
      unchanged; after a build that passed these are the tables just computed. */
  lemma LoadAfterIntroBuild(t: Tables)
    requires RawOf(t).Ok?
    ensures var raw := RawOf(t).value; var u := IntroBuild(t).tables;
      LoadTable(u, TOP_JOB_TITLE_SUMMARY) == Ok(TopTitleTable(TopTitles(raw.jobs)))
      && LoadTable(u, SKILL_TYPE_DISTRIBUTION) == Ok(SkillTypeTable(SkillTypes(raw.links, raw.skills, raw.jobs)))
      && LoadTable(u, JOB_COUNTRY_SUMMARY) == Ok(IntroCountryTable(IntroCountries(raw.jobs)))
      && LoadTable(u, JOB_SUMMARY_STATS) == Ok(StatsTable(SummaryStats(raw.jobs)))
  {
    IntroBuildResult(t);
    IntroNamesDistinct();
    var raw := RawOf(t).value;
    LoadFourWrites(t, TOP_JOB_TITLE_SUMMARY, SKILL_TYPE_DISTRIBUTION, JOB_COUNTRY_SUMMARY, JOB_SUMMARY_STATS,
      TopTitleTable(TopTitles(raw.jobs)), SkillTypeTable(SkillTypes(raw.links, raw.skills, raw.jobs)),
      IntroCountryTable(IntroCountries(raw.jobs)), StatsTable(SummaryStats(raw.jobs)));
  }

  lemma LoadFourWrites(t: Tables, a: string, b: string, c: string, d: string, va: Table, vb: Table, vc: Table, vd: Table)
    requires a != b && a != c && a != d && b != c && b != d && c != d
    ensures var u := t[a := va][b := vb][c := vc][d := vd];
      LoadTable(u, a) == Ok(va) && LoadTable(u, b) == Ok(vb) && LoadTable(u, c) == Ok(vc) && LoadTable(u, d) == Ok(vd)
  {
  }
}
