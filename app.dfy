/** The bootstrap of the dashboard: when the database lacks the summary tables
    it asks for, the three raw tables are replaced from the downloaded frames and
    the builders run in a fixed order (salary, top skills, demand, introduction,
    country); the first builder that raises stops the rest. */
module App {
  import opened Common
  import opened Schema
  import opened TableStore
  import Salary
  import TopSkills
  import DemandSkills
  import Introduction
  import Location

  // ---------------------------------------------------------------------
  // The required-table check.

  /** What opening `jobs_skills.db` and listing `sqlite_master` can give: no
      file, an error (caught and reported as false), or the table names. */
  datatype DbFile = Missing | Unreadable | Readable

  const TOP_10_SKILLS_SUMMARY := "top_10_skills_summary"
  const TOP_JOB_TITLES_SUMMARY := "top_job_titles_summary"

  /** The four names the check asks for, as written. */
  function RequiredAsWritten(): set<string> {
    {TOP_10_SKILLS_SUMMARY, SKILL_TYPE_DISTRIBUTION, JOB_COUNTRY_SUMMARY, TOP_JOB_TITLES_SUMMARY}
  }

  /** The names of the tables the builders in fact create for those four. */
  function RequiredIntended(): set<string> {
    {TITLE_SKILL_COUNT, SKILL_TYPE_DISTRIBUTION, JOB_COUNTRY_SUMMARY, TOP_JOB_TITLE_SUMMARY}
  }

  /** `db_has_required_tables` over a set of required names. */
  function HasTables(file: DbFile, t: Tables, required: set<string>): (b: bool)
    ensures file != Readable ==> !b
    ensures file == Readable ==> (b <==> forall n :: n in required ==> n in t)
  {
    file == Readable && required <= t.Keys
  }

  /** `db_has_required_tables` as written. */
  function DbHasRequiredTablesAsWritten(file: DbFile, t: Tables): bool {
    HasTables(file, t, RequiredAsWritten())
  }

  /** `db_has_required_tables` asking for the tables the builders create. */
  function DbHasRequiredTables(file: DbFile, t: Tables): bool {
    HasTables(file, t, RequiredIntended())
  }

  // ---------------------------------------------------------------------
  // Replacing the raw tables and running the builders.

  /** The three downloaded frames. */
  datatype Frames = Frames(jobs: seq<Job>, skills: seq<Skill>, links: seq<Link>)

  /** `setup_sqlite_db_from_csv`: three `to_sql(..., if_exists='replace')`. */
  function SetupOf(t: Tables, f: Frames): Tables {
    t[JOBS := JobsTable(f.jobs)][SKILLS := SkillsTable(f.skills)][LINKS := LinksTable(f.links)]
  }

  method SetupSqliteDbFromCsv(db: Store, f: Frames)
    modifies db
    ensures db.tables == SetupOf(old(db.tables), f)
  {
    db.Replace(JOBS, JobsTable(f.jobs));
    db.Replace(SKILLS, SkillsTable(f.skills));
    db.Replace(LINKS, LinksTable(f.links));
  }

  /** After the setup the raw tables hold exactly the frames' rows. */
  lemma SetupRaw(t: Tables, f: Frames)
    ensures RawOf(SetupOf(t, f)) == Ok(Raw(f.links, f.skills, f.jobs))
  {
    assert |JOBS| == 17 && |SKILLS| == 10 && |LINKS| == 14;
  }

  lemma SetupKeepsOthers(t: Tables, f: Frames, n: string)
    requires !IsRawName(n)
    ensures n in SetupOf(t, f) <==> n in t
  {
  }

  /** The next builder runs only when the previous one passed. */
  function Chain(s: Step, build: Tables -> Step): Step {
    if s.outcome.Fail? then s else build(s.tables)
  }

  /** The five builders in the order `ensure_db_and_summary` calls them, with
      the country builder given as a parameter. */
  function BuildAllWith(t: Tables, country: Tables -> Step): Step {
    var s1 := Salary.SalaryBuild(t);
    var s2 := Chain(s1, TopSkills.TopSkillsBuild);
    var s3 := Chain(s2, DemandSkills.DemandBuild);
    var s4 := Chain(s3, Introduction.IntroBuild);
    Chain(s4, country)
  }

  function BuildAll(t: Tables): Step {
    BuildAllWith(t, Location.LocationBuild)
  }

  /** `ensure_db_and_summary` checking for `required`, with the country builder
      given as a parameter. */
  function EnsureOfWith(file: DbFile, t: Tables, f: Frames, required: set<string>, country: Tables -> Step): Step {
    if HasTables(file, t, required) then Step(t, Pass) else BuildAllWith(SetupOf(t, f), country)
  }

  /** `ensure_db_and_summary` checking for `required`, with the corrected country builder. */
  function EnsureOf(file: DbFile, t: Tables, f: Frames, required: set<string>): Step {
    EnsureOfWith(file, t, f, required, Location.LocationBuild)
  }

  /** The country builder as written or as corrected. */
  function CountryBuilder(asWritten: bool): Tables -> Step {
    if asWritten then Location.LocationBuildAsWritten else Location.LocationBuild
  }

  method EnsureDbAndSummaryWith(db: Store, file: DbFile, f: Frames, required: set<string>, countryAsWritten: bool)
    returns (o: Outcome<DbError>)
    modifies db
    ensures Step(db.tables, o) == EnsureOfWith(file, old(db.tables), f, required, CountryBuilder(countryAsWritten))
  {
    if HasTables(file, db.tables, required) {
      return Pass;
    }
    SetupSqliteDbFromCsv(db, f);
    o := Salary.CreateSalarySummary(db);
    if o.Fail? {
      return;
    }
    o := TopSkills.CreateTopSkillsSummary(db);
    if o.Fail? {
      return;
    }
    o := DemandSkills.CreateDemandSkillSummary(db);
    if o.Fail? {
      return;
    }
    o := Introduction.CreateAllIntroSummaries(db);
    if o.Fail? {
      return;
    }
    if countryAsWritten {
      o := Location.CreateJobCountrySummaryAsWritten(db);
    } else {
      o := Location.CreateJobCountrySummary(db);
    }
  }

  /** `ensure_db_and_summary` as written: the check names the four tables as
      written and the country builder binds six values. Whenever the check
      fails, the run ends in the country builder's binding error and leaves no
      `job_country_summary`. */
  method EnsureDbAndSummaryAsWritten(db: Store, file: DbFile, f: Frames) returns (o: Outcome<DbError>)
    modifies db
    ensures Step(db.tables, o) == EnsureOfWith(file, old(db.tables), f, RequiredAsWritten(), Location.LocationBuildAsWritten)
    ensures !DbHasRequiredTablesAsWritten(file, old(db.tables)) ==>
      o == Fail(BindingCount(5, 6)) && JOB_COUNTRY_SUMMARY !in db.tables
  {
    ghost var t := db.tables;
    o := EnsureDbAndSummaryWith(db, file, f, RequiredAsWritten(), true);
    if !DbHasRequiredTablesAsWritten(file, t) {
      AsWrittenBuildRaises(t, f);
    }
  }

  /** `ensure_db_and_summary` corrected: the check asks for the tables the
      builders create and the country builder binds five values. */
  method EnsureDbAndSummary(db: Store, file: DbFile, f: Frames) returns (o: Outcome<DbError>)
    modifies db
    ensures Step(db.tables, o) == EnsureOf(file, old(db.tables), f, RequiredIntended())
  {
    o := EnsureDbAndSummaryWith(db, file, f, RequiredIntended(), false);
  }

  // ---------------------------------------------------------------------
  // What the builders change.

  /** `a` and `b` hold the same tables under every name outside `names`. */
  ghost predicate Untouched(a: Tables, b: Tables, names: set<string>) {
    forall n :: n !in names ==> (n in a <==> n in b) && (n in a ==> a[n] == b[n])
  }

  /** A builder step that passed, kept the raw tables, created its tables and
      changed nothing else. */
  ghost predicate Advanced(s: Step, t: Tables, raw: Raw, names: set<string>) {
    s.outcome == Pass && RawOf(s.tables) == Ok(raw) && Untouched(s.tables, t, names) && names <= s.tables.Keys
  }

  lemma WriteAdvances(t: Tables, raw: Raw, name: string, v: Table)
    requires RawOf(t) == Ok(raw) && !IsRawName(name)
    ensures Advanced(Step(t[name := v], Pass), t, raw, {name})
  {
    SummaryWriteKeepsRaw(t, name, v);
    SameRawOf(t[name := v], t);
  }

  lemma ChainAdvances(s: Step, t: Tables, raw: Raw, n1: set<string>, build: Tables -> Step, n2: set<string>)
    requires Advanced(s, t, raw, n1) && Advanced(build(s.tables), s.tables, raw, n2)
    ensures Advanced(Chain(s, build), t, raw, n1 + n2)
  {
  }

  lemma SalaryAdvances(t: Tables, raw: Raw)
    requires RawOf(t) == Ok(raw)
    ensures Advanced(Salary.SalaryBuild(t), t, raw, {SALARY_SUMMARY})
  {
    SummaryWriteKeepsRaw(t, SALARY_SUMMARY, SalaryTable([]));
    var v := SalaryTable(Salary.SalaryRows(raw.jobs));
    assert (t - {SALARY_SUMMARY})[SALARY_SUMMARY := v] == t[SALARY_SUMMARY := v];
    WriteAdvances(t, raw, SALARY_SUMMARY, v);
  }

  lemma TopSkillsAdvances(t: Tables, raw: Raw)
    requires RawOf(t) == Ok(raw)
    ensures Advanced(TopSkills.TopSkillsBuild(t), t, raw, {TITLE_SKILL_COUNT})
  {
    if TITLE_SKILL_COUNT !in t {
      WriteAdvances(t, raw, TITLE_SKILL_COUNT,
        TitleSkillCountTable(TopSkills.TitleSkillCount(raw.links, raw.skills, raw.jobs)));
    }
  }

  lemma DemandAdvances(t: Tables, raw: Raw)
    requires RawOf(t) == Ok(raw)
    ensures Advanced(DemandSkills.DemandBuild(t), t, raw, {DEMAND_SKILL_TREND})
  {
    SummaryWriteKeepsRaw(t, DEMAND_SKILL_TREND, DemandTable([]));
    var v := DemandTable(DemandSkills.DemandRows(raw.links, raw.skills, raw.jobs));
    assert (t - {DEMAND_SKILL_TREND})[DEMAND_SKILL_TREND := v] == t[DEMAND_SKILL_TREND := v];
    WriteAdvances(t, raw, DEMAND_SKILL_TREND, v);
  }

  function IntroNames(): set<string> {
    {TOP_JOB_TITLE_SUMMARY, SKILL_TYPE_DISTRIBUTION, JOB_COUNTRY_SUMMARY, JOB_SUMMARY_STATS}
  }

  lemma IntroAdvances(t: Tables, raw: Raw)
    requires RawOf(t) == Ok(raw)
    ensures Advanced(Introduction.IntroBuild(t), t, raw, IntroNames())
  {
    Introduction.IntroBuildResult(t);
    Introduction.IntroNamesNotRaw();
    var a := TopTitleTable(Introduction.TopTitles(raw.jobs));
    var b := SkillTypeTable(Introduction.SkillTypes(raw.links, raw.skills, raw.jobs));
    var c := IntroCountryTable(Introduction.IntroCountries(raw.jobs));
    var d := StatsTable(Introduction.SummaryStats(raw.jobs));
    var t1 := t[TOP_JOB_TITLE_SUMMARY := a];
    var t2 := t1[SKILL_TYPE_DISTRIBUTION := b];
    var t3 := t2[JOB_COUNTRY_SUMMARY := c];
    WriteAdvances(t, raw, TOP_JOB_TITLE_SUMMARY, a);
    WriteAdvances(t1, raw, SKILL_TYPE_DISTRIBUTION, b);
    WriteAdvances(t2, raw, JOB_COUNTRY_SUMMARY, c);
    WriteAdvances(t3, raw, JOB_SUMMARY_STATS, d);
  }

  /** The corrected country builder; it also leaves the filtered counts under
      `job_country_summary`. */
  lemma LocationAdvances(t: Tables, raw: Raw)
    requires RawOf(t) == Ok(raw)
    ensures Advanced(Location.LocationBuild(t), t, raw, {JOB_COUNTRY_SUMMARY})
    ensures Location.LocationBuild(t).tables[JOB_COUNTRY_SUMMARY]
      == CountryTable(Location.CountryCounts(raw.jobs, Location.BoundIntended()))
  {
    Location.LoadAfterLocationBuild(t);
    var v := CountryTable(Location.CountryCounts(raw.jobs, Location.BoundIntended()));
    assert (t - {JOB_COUNTRY_SUMMARY})[JOB_COUNTRY_SUMMARY := v] == t[JOB_COUNTRY_SUMMARY := v];
    WriteAdvances(t, raw, JOB_COUNTRY_SUMMARY, v);
  }

  function Names2(): set<string> {
    {SALARY_SUMMARY} + {TITLE_SKILL_COUNT}
  }

  function Names3(): set<string> {
    Names2() + {DEMAND_SKILL_TREND}
  }

  function Names4(): set<string> {
    Names3() + IntroNames()
  }

  /** Every name a builder writes. */
  function BuildNames(): set<string> {
    Names4() + {JOB_COUNTRY_SUMMARY}
  }

  function Stage2(t: Tables): Step {
    Chain(Salary.SalaryBuild(t), TopSkills.TopSkillsBuild)
  }

  function Stage3(t: Tables): Step {
    Chain(Stage2(t), DemandSkills.DemandBuild)
  }

  function Stage4(t: Tables): Step {
    Chain(Stage3(t), Introduction.IntroBuild)
  }

  lemma Stage2Advances(t: Tables, raw: Raw)
    requires RawOf(t) == Ok(raw)
    ensures Advanced(Stage2(t), t, raw, Names2())
  {
    var s1 := Salary.SalaryBuild(t);
    SalaryAdvances(t, raw);
    TopSkillsAdvances(s1.tables, raw);
    ChainAdvances(s1, t, raw, {SALARY_SUMMARY}, TopSkills.TopSkillsBuild, {TITLE_SKILL_COUNT});
  }

  lemma Stage3Advances(t: Tables, raw: Raw)
    requires RawOf(t) == Ok(raw)
    ensures Advanced(Stage3(t), t, raw, Names3())
  {
    Stage2Advances(t, raw);
    DemandAdvances(Stage2(t).tables, raw);
    ChainAdvances(Stage2(t), t, raw, Names2(), DemandSkills.DemandBuild, {DEMAND_SKILL_TREND});
  }

  lemma Stage4Advances(t: Tables, raw: Raw)
    requires RawOf(t) == Ok(raw)
    ensures Advanced(Stage4(t), t, raw, Names4())
  {
    Stage3Advances(t, raw);
    IntroAdvances(Stage3(t).tables, raw);
    ChainAdvances(Stage3(t), t, raw, Names3(), Introduction.IntroBuild, IntroNames());
  }

  /** From the raw tables every builder passes; the run creates the tables
      they name, keeps the raw tables and touches no other table. The last
      writer of `job_country_summary` is the country builder, so that table
      holds its schema (`country`, `job_count`), not the introduction's. */
  lemma BuildAllFromRaw(t: Tables, raw: Raw)
    requires RawOf(t) == Ok(raw)
    ensures var s := BuildAll(t);
      Advanced(s, t, raw, BuildNames())
      && s.tables[JOB_COUNTRY_SUMMARY] == CountryTable(Location.CountryCounts(raw.jobs, Location.BoundIntended()))
  {
    Stage4Advances(t, raw);
    var s4 := Stage4(t);
    LocationAdvances(s4.tables, raw);
    ChainAdvances(s4, t, raw, Names4(), Location.LocationBuild, {JOB_COUNTRY_SUMMARY});
    assert BuildAll(t) == Chain(s4, Location.LocationBuild);
  }

  /** The two names the check asks for that no step writes. */
  lemma UnbuiltNames()
    ensures TOP_10_SKILLS_SUMMARY !in BuildNames() && TOP_JOB_TITLES_SUMMARY !in BuildNames()
    ensures !IsRawName(TOP_10_SKILLS_SUMMARY) && !IsRawName(TOP_JOB_TITLES_SUMMARY)
  {
    assert |TOP_10_SKILLS_SUMMARY| == 21 && |TOP_JOB_TITLES_SUMMARY| == 22;
    assert |SALARY_SUMMARY| == 14 && |TITLE_SKILL_COUNT| == 21 && |DEMAND_SKILL_TREND| == 18;
    assert |TOP_JOB_TITLE_SUMMARY| == 21 && |SKILL_TYPE_DISTRIBUTION| == 31;
    assert |JOB_COUNTRY_SUMMARY| == 19 && |JOB_SUMMARY_STATS| == 17;
    assert TOP_10_SKILLS_SUMMARY[4] != TITLE_SKILL_COUNT[4] && TOP_10_SKILLS_SUMMARY[4] != TOP_JOB_TITLE_SUMMARY[4];
  }

  /** When the check fails the raw tables end up holding the frames, every
      builder passes and the country table holds the filtered counts. */
  lemma EnsureFromScratch(file: DbFile, t: Tables, f: Frames, required: set<string>)
    requires !HasTables(file, t, required)
    ensures var s := EnsureOf(file, t, f, required);
      s.outcome == Pass
      && RawOf(s.tables) == Ok(Raw(f.links, f.skills, f.jobs))
      && s.tables[JOB_COUNTRY_SUMMARY] == CountryTable(Location.CountryCounts(f.jobs, Location.BoundIntended()))
      && RequiredIntended() <= s.tables.Keys
      && Untouched(s.tables, SetupOf(t, f), BuildNames())
  {
    SetupRaw(t, f);
    BuildAllFromRaw(SetupOf(t, f), Raw(f.links, f.skills, f.jobs));
  }

  /** When the check passes nothing changes. */
  lemma EnsureWhenPresent(file: DbFile, t: Tables, f: Frames, required: set<string>)
    requires HasTables(file, t, required)
    ensures EnsureOf(file, t, f, required) == Step(t, Pass)
  {
  }

  /** As written, the check names two tables no step creates. Unless an
      earlier version of the database left both behind, it fails again after a
      full rebuild, so every start of the app downloads and rebuilds everything. */
  lemma AsWrittenNeverSettles(file: DbFile, t: Tables, f: Frames)
    requires TOP_10_SKILLS_SUMMARY !in t || TOP_JOB_TITLES_SUMMARY !in t
    ensures var s := EnsureOf(file, t, f, RequiredAsWritten());
      !DbHasRequiredTablesAsWritten(Readable, s.tables)
  {
    var req := RequiredAsWritten();
    assert TOP_10_SKILLS_SUMMARY in req && TOP_JOB_TITLES_SUMMARY in req;
    var s := EnsureOf(file, t, f, req);
    EnsureFromScratch(file, t, f, req);
    UnbuiltNames();
    var u := SetupOf(t, f);
    SetupKeepsOthers(t, f, TOP_10_SKILLS_SUMMARY);
    SetupKeepsOthers(t, f, TOP_JOB_TITLES_SUMMARY);
    assert TOP_10_SKILLS_SUMMARY !in s.tables || TOP_JOB_TITLES_SUMMARY !in s.tables;
  }

  /** With the intended names the app settles: after one run from any state the
      check passes, so the next start changes nothing. */
  lemma IntendedSettles(file: DbFile, t: Tables, f: Frames)
    ensures var s := EnsureOf(file, t, f, RequiredIntended());
      s.outcome == Pass && DbHasRequiredTables(Readable, s.tables)
      && EnsureOf(Readable, s.tables, f, RequiredIntended()) == Step(s.tables, Pass)
  {
    if !HasTables(file, t, RequiredIntended()) {
      EnsureFromScratch(file, t, f, RequiredIntended());
    }
  }

  /** With the country builder as written the run always ends in its binding
      error, and the introduction's `job_country_summary` has been dropped. */
  lemma AsWrittenBuildRaises(t: Tables, f: Frames)
    ensures var s := BuildAllWith(SetupOf(t, f), Location.LocationBuildAsWritten);
      s.outcome == Fail(BindingCount(5, 6)) && JOB_COUNTRY_SUMMARY !in s.tables
  {
    var raw := Raw(f.links, f.skills, f.jobs);
    var u := SetupOf(t, f);
    SetupRaw(t, f);
    Stage4Advances(u, raw);
    Location.AsWrittenNeverCreates(Stage4(u).tables);
    assert BuildAllWith(u, Location.LocationBuildAsWritten) == Chain(Stage4(u), Location.LocationBuildAsWritten);
  }
}
