/** The SQLite file `jobs_skills.db` as a keyed set of tables. Python's sqlite3
    runs DDL statements (DROP TABLE, CREATE TABLE ... AS SELECT) outside a
    transaction, so every statement takes effect when it runs, even when a later
    statement of the same builder raises. */
module TableStore {
  import opened Common
  import opened Schema

  type Tables = map<string, Table>

  /** The database after a builder has run, and whether the builder raised. */
  datatype Step = Step(tables: Tables, outcome: Outcome<DbError>)

  class Store {
    var tables: Tables

    /** A database file with no tables. */
    constructor ()
      ensures tables == map[]
    {
      tables := map[];
    }

    /** `DROP TABLE IF EXISTS name`. */
    method DropIfExists(name: string)
      modifies this
      ensures tables == old(tables) - {name}
    {
      tables := tables - {name};
    }

    /** `CREATE TABLE name AS SELECT ...`: fails when the name is taken. */
    method CreateAs(name: string, t: Table) returns (o: Outcome<DbError>)
      modifies this
      ensures o.Pass? <==> name !in old(tables)
      ensures tables == if o.Pass? then old(tables)[name := t] else old(tables)
    {
      if name in tables {
        o := Fail(TableExists(name));
      } else {
        tables := tables[name := t];
        o := Pass;
      }
    }

    /** pandas `to_sql(name, if_exists='replace')`. */
    method Replace(name: string, t: Table)
      modifies this
      ensures tables == old(tables)[name := t]
    {
      tables := tables[name := t];
    }
  }

  /** Reading `job_postings_fact` in a query. */
  function JobsOf(t: Tables): Result<seq<Job>, DbError> {
    if JOBS !in t then Err(NoSuchTable(JOBS))
    else match t[JOBS]
      case JobsTable(rows) => Ok(rows)
      case _ => Err(NoSuchColumn("job_id"))
  }

  /** Reading `skills_dim` in a query. */
  function SkillsOf(t: Tables): Result<seq<Skill>, DbError> {
    if SKILLS !in t then Err(NoSuchTable(SKILLS))
    else match t[SKILLS]
      case SkillsTable(rows) => Ok(rows)
      case _ => Err(NoSuchColumn("skill_id"))
  }

  /** Reading `skills_job_dim` in a query. */
  function LinksOf(t: Tables): Result<seq<Link>, DbError> {
    if LINKS !in t then Err(NoSuchTable(LINKS))
    else match t[LINKS]
      case LinksTable(rows) => Ok(rows)
      case _ => Err(NoSuchColumn("job_id"))
  }

  /** The three raw relations of a join over `skills_job_dim`, `skills_dim` and
      `job_postings_fact`, or the error of the first one missing. */
  datatype Raw = Raw(links: seq<Link>, skills: seq<Skill>, jobs: seq<Job>)

  function RawOf(t: Tables): Result<Raw, DbError> {
    match LinksOf(t)
    case Err(e) => Err(e)
    case Ok(links) =>
      match SkillsOf(t)
      case Err(e) => Err(e)
      case Ok(skills) =>
        match JobsOf(t)
        case Err(e) => Err(e)
        case Ok(jobs) => Ok(Raw(links, skills, jobs))
  }

  /** `SELECT * FROM name`: the stored table as it is. */
  function LoadTable(t: Tables, name: string): (r: Result<Table, DbError>)
    ensures r.Ok? <==> name in t
    ensures r.Ok? ==> r.value == t[name]
    ensures r.Err? ==> r.error == NoSuchTable(name)
  {
    if name in t then Ok(t[name]) else Err(NoSuchTable(name))
  }

  /** The three raw tables, the only ones a builder's query reads. */
  predicate SameRaw(a: Tables, b: Tables) {
    JobsOf(a) == JobsOf(b) && SkillsOf(a) == SkillsOf(b) && LinksOf(a) == LinksOf(b)
  }

  predicate IsRawName(name: string) {
    name == JOBS || name == SKILLS || name == LINKS
  }

  /** Dropping or writing a summary table leaves the raw tables as they are. */
  lemma SummaryWriteKeepsRaw(t: Tables, name: string, table: Table)
    requires !IsRawName(name)
    ensures SameRaw(t - {name}, t) && SameRaw(t[name := table], t)
  {
  }

  lemma SameRawOf(a: Tables, b: Tables)
    requires SameRaw(a, b)
    ensures RawOf(a) == RawOf(b)
  {
  }
}
