/** `demand_skill_trend`: one row per (link, posting, skill) tuple with a named
    skill, rebuilt on every call, and its filtered reader `load_demand_skills`. */
module DemandSkills {
  import opened Common
  import opened Seqs
  import opened Schema
  import opened TableStore
  import opened Joins

  /** The five projected columns of a join tuple with skill name `name`. */
  function Project(x: Joined, name: string): DemandRow {
    DemandRow(x.job.jobId, x.job.jobTitle, x.job.jobTitleShort, x.job.postedDate, name)
  }

  /** `WHERE s.skills IS NOT NULL`, then the projection, tuple by tuple with no
      aggregation and no deduplication. */
  function Flatten(tuples: seq<Joined>): seq<DemandRow> {
    if |tuples| == 0 then []
    else
      var x := tuples[|tuples| - 1];
      Flatten(tuples[..|tuples| - 1]) + (if x.skill.skills.Some? then [Project(x, x.skill.skills.value)] else [])
  }

  function DemandRows(links: seq<Link>, skills: seq<Skill>, jobs: seq<Job>): seq<DemandRow> {
    Flatten(InnerJoin(links, skills, jobs))
  }

  predicate Named(x: Joined) {
    x.skill.skills.Some?
  }

  /** One row per tuple whose skill has a name. */
  lemma {:induction false} FlattenSize(tuples: seq<Joined>)
    ensures |Flatten(tuples)| == |Filter(tuples, Named)|
  {
    if |tuples| > 0 {
      FlattenSize(tuples[..|tuples| - 1]);
    }
  }

  /** A row is in the table exactly when it projects a join tuple whose skill has a name. */
  lemma {:induction false} FlattenMembers(tuples: seq<Joined>, r: DemandRow)
    ensures r in Flatten(tuples) <==> exists x :: x in tuples && x.skill.skills == Some(r.skills) && Project(x, r.skills) == r
  {
    if |tuples| > 0 {
      SplitLast(tuples);
      FlattenMembers(tuples[..|tuples| - 1], r);
    }
  }

  lemma DemandRowsMembers(links: seq<Link>, skills: seq<Skill>, jobs: seq<Job>, r: DemandRow)
    ensures r in DemandRows(links, skills, jobs) <==>
      exists l, s, j :: l in links && s in skills && j in jobs && JoinCond(l, s, j)
        && s.skills == Some(r.skills) && Project(Joined(l, s, j), r.skills) == r
  {
    var join := InnerJoin(links, skills, jobs);
    FlattenMembers(join, r);
    if r in DemandRows(links, skills, jobs) {
      var x :| x in join && x.skill.skills == Some(r.skills) && Project(x, r.skills) == r;
      JoinMembership(links, skills, jobs, x);
      assert Joined(x.link, x.skill, x.job) == x;
    }
    if exists l, s, j :: l in links && s in skills && j in jobs && JoinCond(l, s, j)
        && s.skills == Some(r.skills) && Project(Joined(l, s, j), r.skills) == r {
      var l, s, j :| l in links && s in skills && j in jobs && JoinCond(l, s, j)
        && s.skills == Some(r.skills) && Project(Joined(l, s, j), r.skills) == r;
      JoinMembership(links, skills, jobs, Joined(l, s, j));
    }
  }

  /** No deduplication: a link matching one named skill and one posting appends
      exactly one row, even when an identical row is already there. */
  lemma MatchedLinkAddsRow(links: seq<Link>, l: Link, skills: seq<Skill>, jobs: seq<Job>)
    requires |SkillsFor(l, skills)| == 1 && |JobsFor(l, jobs)| == 1
    requires SkillsFor(l, skills)[0].skills.Some?
    ensures var x := Joined(l, SkillsFor(l, skills)[0], JobsFor(l, jobs)[0]);
      DemandRows(links + [l], skills, jobs)
        == DemandRows(links, skills, jobs) + [Project(x, x.skill.skills.value)]
  {
    var x := Joined(l, SkillsFor(l, skills)[0], JobsFor(l, jobs)[0]);
    UniquelyMatchedLinkAddsOne(links, l, skills, jobs);
    var before := InnerJoin(links, skills, jobs);
    assert (before + [x])[..|before|] == before;
  }

  /** The raw tables in the order the statement names them: links, postings, skills. */
  function DemandRaw(t: Tables): Result<Raw, DbError> {
    match LinksOf(t)
    case Err(e) => Err(e)
    case Ok(links) =>
      match JobsOf(t)
      case Err(e) => Err(e)
      case Ok(jobs) =>
        match SkillsOf(t)
        case Err(e) => Err(e)
        case Ok(skills) => Ok(Raw(links, skills, jobs))
  }

  /** The builder's effect: drop `demand_skill_trend`, then create it from the
      join. It touches no other table and fails exactly when a raw table cannot
      be read, leaving no `demand_skill_trend` behind. */
  function DemandBuild(t: Tables): (s: Step)
    ensures s.tables - {DEMAND_SKILL_TREND} == t - {DEMAND_SKILL_TREND}
    ensures s.outcome.Pass? <==> DemandRaw(t).Ok?
    ensures s.outcome.Pass? ==> DEMAND_SKILL_TREND in s.tables
    ensures s.outcome.Fail? ==> DEMAND_SKILL_TREND !in s.tables && s.outcome == Fail(DemandRaw(t).error)
  {
    var dropped := t - {DEMAND_SKILL_TREND};
    SummaryWriteKeepsRaw(t, DEMAND_SKILL_TREND, DemandTable([]));
    assert DemandRaw(dropped) == DemandRaw(t);
    assert dropped - {DEMAND_SKILL_TREND} == dropped;
    match DemandRaw(dropped)
    case Err(e) => Step(dropped, Fail(e))
    case Ok(raw) =>
      Step(dropped[DEMAND_SKILL_TREND := DemandTable(DemandRows(raw.links, raw.skills, raw.jobs))], Pass)
  }

  method CreateDemandSkillSummary(db: Store) returns (o: Outcome<DbError>)
    modifies db
    ensures Step(db.tables, o) == DemandBuild(old(db.tables))
  {
    db.DropIfExists(DEMAND_SKILL_TREND);
    var raw := DemandRaw(db.tables);
    if raw.Err? {
      return Fail(raw.error);
    }
    o := db.CreateAs(DEMAND_SKILL_TREND, DemandTable(DemandRows(raw.value.links, raw.value.skills, raw.value.jobs)));
  }

  /** Rebuilding is idempotent and never depends on the previous contents of the table. */
  lemma DemandBuildIdempotent(t: Tables)
    ensures DemandBuild(DemandBuild(t).tables) == DemandBuild(t)
    ensures DemandBuild(t) == DemandBuild(t - {DEMAND_SKILL_TREND})
  {
    var dropped := t - {DEMAND_SKILL_TREND};
    assert DemandBuild(t).tables - {DEMAND_SKILL_TREND} == dropped;
    assert dropped - {DEMAND_SKILL_TREND} == dropped;
  }

  /** The trend rows of one role, in table order: every row of that role as
      often as the table holds it, and no row of another role. */
  function RowsOfTitle(rows: seq<DemandRow>, title: Option<string>): (r: seq<DemandRow>)
    ensures forall x :: Count(x, r) == if x.jobTitleShort == title then Count(x, rows) else 0
  {
    var p := (x: DemandRow) => x.jobTitleShort == title;
    assert forall x :: Count(x, Filter(rows, p)) == if p(x) then Count(x, rows) else 0 by {
      forall x ensures Count(x, Filter(rows, p)) == if p(x) then Count(x, rows) else 0 {
        FilterCount(rows, p, x);
      }
    }
    Filter(rows, p)
  }

  /** `load_demand_skills(job_title_short, job_type)`. A truthy `job_type` adds a
      condition on `job_schedule_type`, a column the table does not have. */
  function LoadDemandSkills(t: Tables, jobTitleShort: Option<string>, jobType: Option<string>)
    : (r: Result<seq<DemandRow>, DbError>)
    ensures r.Ok? <==> DEMAND_SKILL_TREND in t && t[DEMAND_SKILL_TREND].DemandTable? && !Truthy(jobType)
    ensures DEMAND_SKILL_TREND in t && Truthy(jobType) ==> r == Err(NoSuchColumn("job_schedule_type"))
    ensures r.Ok? && !Truthy(jobTitleShort) ==> r.value == t[DEMAND_SKILL_TREND].demandRows
    ensures r.Ok? && Truthy(jobTitleShort) ==> r.value == RowsOfTitle(t[DEMAND_SKILL_TREND].demandRows, jobTitleShort)
    ensures r.Ok? ==> forall x :: x in r.value <==>
      x in t[DEMAND_SKILL_TREND].demandRows && (!Truthy(jobTitleShort) || x.jobTitleShort == jobTitleShort)
  {
    if DEMAND_SKILL_TREND !in t then Err(NoSuchTable(DEMAND_SKILL_TREND))
    else if Truthy(jobType) then Err(NoSuchColumn("job_schedule_type"))
    else match t[DEMAND_SKILL_TREND]
      case DemandTable(rows) =>
        if !Truthy(jobTitleShort) then Ok(rows)
        else
          var kept := RowsOfTitle(rows, jobTitleShort);
          assert forall x :: x in kept <==> x in rows && x.jobTitleShort == jobTitleShort by {
            forall x ensures x in kept <==> x in rows && x.jobTitleShort == jobTitleShort {
              assert Count(x, kept) == if x.jobTitleShort == jobTitleShort then Count(x, rows) else 0;
            }
          }
          Ok(kept)
      case _ => Err(NoSuchColumn("job_title_short"))
  }
}
