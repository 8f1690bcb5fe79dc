/** The relations of the dashboard's SQLite database: the three raw tables loaded
    from the downloaded data and the summary tables the builders materialise.
    Every column that may hold NULL is an `Option`. */
module Schema {
  import opened Common
  import opened Grouping

  /** A raw identifier as the downloaded frames hold it: a number or a text. */
  datatype Id = IntId(n: int) | TextId(text: string)

  /** A row of `job_postings_fact`. The month of `job_posted_date` is read from its text. */
  datatype Job = Job(
    jobId: Option<Id>,
    jobTitle: Option<string>,
    jobTitleShort: Option<string>,
    postedDate: Option<string>,
    country: Option<string>,
    schedule: Option<string>,
    salary: Option<int>)

  /** A row of `skills_dim`. */
  datatype Skill = Skill(skillId: Option<Id>, skills: Option<string>, skillType: Option<string>)

  /** A row of `skills_job_dim`, the job-skill association. */
  datatype Link = Link(jobId: Option<Id>, skillId: Option<Id>)

  /** The group key of `job_title_skill_count`. */
  datatype TitleSkillKey = TitleSkillKey(
    titleShort: Option<string>, skills: Option<string>, title: Option<string>, skillType: Option<string>)

  /** A row of `salary_summary`: one role and month with its salary aggregates. */
  datatype SalaryRow = SalaryRow(
    titleShort: Option<string>, month: Option<int>, count: nat,
    avgSalary: real, maxSalary: int, minSalary: int)

  /** A row of `demand_skill_trend`: exactly the five projected columns. */
  datatype DemandRow = DemandRow(
    jobId: Option<Id>, jobTitle: Option<string>, jobTitleShort: Option<string>,
    postedDate: Option<string>, skills: string)

  /** The row of `job_summary_stats`; `avgSalary` is NULL when no posting has a salary. */
  datatype Stats = Stats(totalJobs: nat, avgSalary: Option<real>)

  /** A table of the database with its schema. The two schemas that are written
      under the name `job_country_summary` are two variants. */
  datatype Table =
    | JobsTable(jobs: seq<Job>)
    | SkillsTable(skills: seq<Skill>)
    | LinksTable(links: seq<Link>)
    | TitleSkillCountTable(titleSkillRows: seq<Grouped<TitleSkillKey>>)
    | SalaryTable(salaryRows: seq<SalaryRow>)
    | DemandTable(demandRows: seq<DemandRow>)
    | TopTitleTable(topTitleRows: seq<Grouped<Option<string>>>)
    | SkillTypeTable(skillTypeRows: seq<Grouped<string>>)
    | IntroCountryTable(introCountryRows: seq<Grouped<Option<string>>>)
    | StatsTable(statsRows: seq<Stats>)
    | CountryTable(countryRows: seq<Grouped<string>>)

  /** What sqlite3 raises. */
  datatype DbError =
    | NoSuchTable(table: string)
    | NoSuchColumn(column: string)
    | TableExists(table: string)
    | BindingCount(placeholders: nat, supplied: nat)

  const JOBS := "job_postings_fact"
  const SKILLS := "skills_dim"
  const LINKS := "skills_job_dim"
  const TITLE_SKILL_COUNT := "job_title_skill_count"
  const SALARY_SUMMARY := "salary_summary"
  const DEMAND_SKILL_TREND := "demand_skill_trend"
  const TOP_JOB_TITLE_SUMMARY := "top_job_title_summary"
  const SKILL_TYPE_DISTRIBUTION := "skill_type_distribution_summary"
  const JOB_COUNTRY_SUMMARY := "job_country_summary"
  const JOB_SUMMARY_STATS := "job_summary_stats"

  /** Python truthiness of an optional text parameter: `None` and `""` are false. */
  predicate Truthy(p: Option<string>) {
    p.Some? && p.value != ""
  }
}
