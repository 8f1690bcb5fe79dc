/** `job_title_skill_count`: the create-if-absent builder and the filtered,
    percent-normalised reader `load_top_skills_summary`. */
module TopSkills {
  import opened Common
  import opened Seqs
  import opened Grouping
  import opened Numbers
  import opened Schema
  import opened TableStore
  import opened Joins

  // ---------------------------------------------------------------------
  // Builder

  function KeyOf(x: Joined): TitleSkillKey {
    TitleSkillKey(x.job.jobTitleShort, x.skill.skills, x.job.jobTitle, x.skill.skillType)
  }

  function JoinKeys(links: seq<Link>, skills: seq<Skill>, jobs: seq<Job>): seq<TitleSkillKey> {
    Map(InnerJoin(links, skills, jobs), KeyOf)
  }

  /** The rows of `job_title_skill_count`: COUNT(*) of join tuples per
      (job_title_short, skills, job_title, type). */
  function TitleSkillCount(links: seq<Link>, skills: seq<Skill>, jobs: seq<Job>): seq<Grouped<TitleSkillKey>> {
    GroupCount(JoinKeys(links, skills, jobs))
  }

  /** The builder's effect: nothing when the table exists, otherwise create it
      from the raw tables (raising, with nothing changed, when one is missing).
      No other table is touched. */
  function TopSkillsBuild(t: Tables): (s: Step)
    ensures s.tables - {TITLE_SKILL_COUNT} == t - {TITLE_SKILL_COUNT}
    ensures TITLE_SKILL_COUNT in t ==> s == Step(t, Pass)
    ensures s.outcome.Pass? <==> TITLE_SKILL_COUNT in t || RawOf(t).Ok?
    ensures s.outcome.Pass? ==> TITLE_SKILL_COUNT in s.tables
    ensures s.outcome.Fail? ==> s == Step(t, Fail(RawOf(t).error))
  {
    if TITLE_SKILL_COUNT in t then Step(t, Pass)
    else match RawOf(t)
      case Err(e) => Step(t, Fail(e))
      case Ok(raw) =>
        Step(t[TITLE_SKILL_COUNT := TitleSkillCountTable(TitleSkillCount(raw.links, raw.skills, raw.jobs))], Pass)
  }

  method CreateTopSkillsSummary(db: Store) returns (o: Outcome<DbError>)
    modifies db
    ensures Step(db.tables, o) == TopSkillsBuild(old(db.tables))
  {
    if TITLE_SKILL_COUNT in db.tables {
      return Pass;
    }
    var raw := RawOf(db.tables);
    if raw.Err? {
      return Fail(raw.error);
    }
    var rows := TitleSkillCount(raw.value.links, raw.value.skills, raw.value.jobs);
    o := db.CreateAs(TITLE_SKILL_COUNT, TitleSkillCountTable(rows));
  }

  /** Create-if-absent: an existing table is never rebuilt, whatever the raw tables now hold. */
  lemma TopSkillsBuildKeepsExisting(t: Tables, raw: Tables)
    requires TITLE_SKILL_COUNT in t
    requires TITLE_SKILL_COUNT !in raw
    ensures TopSkillsBuild(t + raw).tables[TITLE_SKILL_COUNT] == t[TITLE_SKILL_COUNT]
    ensures TopSkillsBuild(t + raw) == Step(t + raw, Pass)
  {
  }

  /** One row per distinct group key, and a key has a row exactly when some tuple
      of the inner join (link, skill, posting) carries it. */
  lemma TitleSkillCountKeys(links: seq<Link>, skills: seq<Skill>, jobs: seq<Job>, k: TitleSkillKey)
    ensures NoDups(Keys(TitleSkillCount(links, skills, jobs)))
    ensures k in Keys(TitleSkillCount(links, skills, jobs)) <==>
      exists l, s, j :: l in links && s in skills && j in jobs && JoinCond(l, s, j)
        && KeyOf(Joined(l, s, j)) == k
  {
    GroupCountKeys(JoinKeys(links, skills, jobs), k);
    JoinColumn(links, skills, jobs, KeyOf, k);
  }

  /** Each row's count is the number of join tuples carrying its key, at least one. */
  lemma TitleSkillCountCounts(links: seq<Link>, skills: seq<Skill>, jobs: seq<Job>)
    ensures forall g :: g in TitleSkillCount(links, skills, jobs) ==>
      g.count == Count(g.key, JoinKeys(links, skills, jobs)) && g.count >= 1
  {
    var r := TitleSkillCount(links, skills, jobs);
    forall g | g in r
      ensures g.count == Count(g.key, JoinKeys(links, skills, jobs)) && g.count >= 1
    {
      var i :| 0 <= i < |r| && r[i] == g;
    }
  }

  /** The counts add up to the number of inner-join tuples. */
  lemma TitleSkillCountTotal(links: seq<Link>, skills: seq<Skill>, jobs: seq<Job>)
    ensures Total(TitleSkillCount(links, skills, jobs)) == |InnerJoin(links, skills, jobs)|
  {
    GroupCountTotal(JoinKeys(links, skills, jobs));
  }

  /** A link whose skill or posting is missing leaves the summary as it was. */
  lemma UnmatchedLinkNotCounted(links: seq<Link>, l: Link, skills: seq<Skill>, jobs: seq<Job>)
    requires (forall s :: s in skills ==> !SqlEq(l.skillId, s.skillId))
          || (forall j :: j in jobs ==> !SqlEq(l.jobId, j.jobId))
    ensures TitleSkillCount(links + [l], skills, jobs) == TitleSkillCount(links, skills, jobs)
  {
    UnmatchedLinkAddsNothing(links, l, skills, jobs);
  }

  /** A link that matches exactly one skill and one posting adds one to the count
      of exactly one group, that of its (role, skill, title, type). */
  lemma MatchedLinkCountsOnce(links: seq<Link>, l: Link, skills: seq<Skill>, jobs: seq<Job>, k: TitleSkillKey)
    requires |SkillsFor(l, skills)| == 1 && |JobsFor(l, jobs)| == 1
    ensures var x := Joined(l, SkillsFor(l, skills)[0], JobsFor(l, jobs)[0]);
      Count(k, JoinKeys(links + [l], skills, jobs))
        == Count(k, JoinKeys(links, skills, jobs)) + (if k == KeyOf(x) then 1 else 0)
  {
    var x := Joined(l, SkillsFor(l, skills)[0], JobsFor(l, jobs)[0]);
    UniquelyMatchedLinkAddsOne(links, l, skills, jobs);
    var before := JoinKeys(links, skills, jobs);
    assert JoinKeys(links + [l], skills, jobs) == before + [KeyOf(x)];
    CountAppend(k, before, [KeyOf(x)]);
    assert [KeyOf(x)][..0] == [];
  }

  // ---------------------------------------------------------------------
  // Reader

  /** One result row: a skill and its share of distinct job titles, in percent. */
  datatype SkillPercent = SkillPercent(skills: string, percent: real)

  /** An entry of the WHERE clause together with its bound parameter. */
  datatype Cond = TitleShortIs(titleShort: string) | TypeIs(skillType: string)

  /** The `conditions` list: a role filter, then a type filter, each only when its argument is truthy. */
  function Conditions(jobTitleShort: Option<string>, skillType: Option<string>): seq<Cond> {
    (if Truthy(jobTitleShort) then [TitleShortIs(jobTitleShort.value)] else [])
      + (if Truthy(skillType) then [TypeIs(skillType.value)] else [])
  }

  /** SQL `col = ?`: a NULL column matches nothing. */
  predicate Holds(c: Cond, g: Grouped<TitleSkillKey>) {
    match c
    case TitleShortIs(t) => g.key.titleShort == Some(t)
    case TypeIs(ty) => g.key.skillType == Some(ty)
  }

  predicate Where(conds: seq<Cond>, g: Grouped<TitleSkillKey>) {
    forall i :: 0 <= i < |conds| ==> Holds(conds[i], g)
  }

  /** The filtered rows both queries read. */
  function Filtered(rows: seq<Grouped<TitleSkillKey>>, conds: seq<Cond>): seq<Grouped<TitleSkillKey>> {
    Filter(rows, (g: Grouped<TitleSkillKey>) => Where(conds, g))
  }

  /** An absent or empty argument is a wildcard; given ones must both match. */
  lemma ConditionsMeaning(jobTitleShort: Option<string>, skillType: Option<string>, g: Grouped<TitleSkillKey>)
    ensures Where(Conditions(jobTitleShort, skillType), g) <==>
      (!Truthy(jobTitleShort) || g.key.titleShort == jobTitleShort)
      && (!Truthy(skillType) || g.key.skillType == skillType)
  {
    var conds := Conditions(jobTitleShort, skillType);
    if Truthy(jobTitleShort) {
      assert conds[0] == TitleShortIs(jobTitleShort.value);
    }
    if Truthy(skillType) {
      assert conds[|conds| - 1] == TypeIs(skillType.value);
    }
  }

  /** The (skills, job_title) columns of the filtered rows. */
  function SkillTitles(filtered: seq<Grouped<TitleSkillKey>>): seq<(Option<string>, Option<string>)> {
    Map(filtered, (g: Grouped<TitleSkillKey>) => (g.key.skills, g.key.title))
  }

  /** `SELECT COUNT(DISTINCT job_title)` over the filtered rows. */
  function TotalJobs(filtered: seq<Grouped<TitleSkillKey>>): nat {
    |AllValues(SkillTitles(filtered))|
  }

  /** `HAVING skills IS NOT NULL`. */
  function HavingNotNull(r: seq<Grouped<Option<string>>>): (s: seq<Grouped<string>>)
    ensures forall i :: 0 <= i < |s| ==> Grouped(Some(s[i].key), s[i].count) in r
    ensures forall i :: 0 <= i < |r| && r[i].key.Some? ==> Grouped(r[i].key.value, r[i].count) in s
  {
    if |r| == 0 then []
    else
      assert r == r[..|r| - 1] + [r[|r| - 1]];
      var g := r[|r| - 1];
      HavingNotNull(r[..|r| - 1]) + (if g.key.Some? then [Grouped(g.key.value, g.count)] else [])
  }

  /** `SELECT skills, COUNT(DISTINCT job_title) ... GROUP BY skills HAVING skills IS NOT NULL`. */
  function SkillCountOfs(filtered: seq<Grouped<TitleSkillKey>>): seq<Grouped<string>> {
    HavingNotNull(GroupDistinct(SkillTitles(filtered)))
  }

  /** Dropping the NULL group keeps the keys distinct. */
  lemma {:induction false} HavingNotNullKeys(r: seq<Grouped<Option<string>>>)
    requires NoDups(Keys(r))
    ensures NoDups(Keys(HavingNotNull(r)))
  {
    if |r| > 0 {
      var init := r[..|r| - 1];
      var g := r[|r| - 1];
      assert Keys(init) == Keys(r)[..|r| - 1];
      HavingNotNullKeys(init);
      if g.key.Some? {
        var h := HavingNotNull(init);
        forall k | 0 <= k < |h| ensures Keys(h)[k] != g.key.value {
          assert Grouped(Some(h[k].key), h[k].count) in init;
          var m :| 0 <= m < |init| && init[m] == Grouped(Some(h[k].key), h[k].count);
          assert Keys(r)[m] == Some(h[k].key) && Keys(r)[|r| - 1] == g.key;
        }
        var h' := h + [Grouped(g.key.value, g.count)];
        assert Keys(h') == Keys(h) + [g.key.value];
      }
    }
  }

  /** Each skill's distinct-title count is that of its own rows, and at most the total. */
  lemma SkillCountOfsBounded(filtered: seq<Grouped<TitleSkillKey>>)
    ensures forall g :: g in SkillCountOfs(filtered) ==>
      g.count == |GroupValues(Some(g.key), SkillTitles(filtered))| && g.count <= TotalJobs(filtered)
  {
    var pairs := SkillTitles(filtered);
    var grouped := GroupDistinct(pairs);
    forall g | g in SkillCountOfs(filtered)
      ensures g.count == |GroupValues(Some(g.key), pairs)| && g.count <= TotalJobs(filtered)
    {
      var i :| 0 <= i < |SkillCountOfs(filtered)| && SkillCountOfs(filtered)[i] == g;
      assert Grouped(Some(g.key), g.count) in grouped;
      var m :| 0 <= m < |grouped| && grouped[m] == Grouped(Some(g.key), g.count);
      GroupValuesBounded(Some(g.key), pairs);
    }
  }

  /** `ORDER BY job_count DESC LIMIT top_n`. */
  function Ranked(filtered: seq<Grouped<TitleSkillKey>>, topN: int): seq<Grouped<string>> {
    Limit(SortDesc(SkillCountOfs(filtered), CountOf), topN)
  }

  /** No skill is ranked twice. */
  lemma RankedKeysDistinct(filtered: seq<Grouped<TitleSkillKey>>, topN: int)
    ensures NoDups(Keys(Ranked(filtered, topN)))
  {
    var counts := SkillCountOfs(filtered);
    HavingNotNullKeys(GroupDistinct(SkillTitles(filtered)));
    var sorted := SortDesc(counts, CountOf);
    if topN < 0 {
      KeysPermutation(counts, sorted);
    } else if topN > 0 {
      TopGroups(counts, topN);
    }
  }

  /** `round(job_count / total_jobs * 100, 2)`; every row is NaN when the total is 0. */
  function WithPercent(ranked: seq<Grouped<string>>, total: nat): seq<SkillPercent> {
    if total == 0 then []
    else Map(ranked, (g: Grouped<string>) => SkillPercent(g.key, Round2(Percent(g.count as real, total as real))))
  }

  function PercentOf(p: SkillPercent): real {
    p.percent
  }

  predicate AboveThreshold(p: SkillPercent) {
    p.percent >= 0.05
  }

  /** Every ranked count is at most the number of distinct titles. */
  lemma RankedBounded(filtered: seq<Grouped<TitleSkillKey>>, topN: int)
    ensures forall g :: g in Ranked(filtered, topN) ==> g.count <= TotalJobs(filtered)
  {
    SkillCountOfsBounded(filtered);
    var sorted := SortDesc(SkillCountOfs(filtered), CountOf);
    forall g | g in Ranked(filtered, topN) ensures g.count <= TotalJobs(filtered) {
      assert g in sorted;
      assert g in multiset(SkillCountOfs(filtered));
    }
  }

  lemma WithPercentRows(ranked: seq<Grouped<string>>, total: nat)
    requires forall g :: g in ranked ==> g.count <= total
    ensures |WithPercent(ranked, total)| <= |ranked|
    ensures |WithPercent(ranked, total)| > 0 ==> total > 0
    ensures forall i :: 0 <= i < |WithPercent(ranked, total)| ==>
      WithPercent(ranked, total)[i].skills == ranked[i].key
      && 0.0 <= WithPercent(ranked, total)[i].percent <= 100.0
      && WithPercent(ranked, total)[i].percent == Round2(Percent(ranked[i].count as real, total as real))
  {
    if total > 0 {
      forall i | 0 <= i < |ranked|
        ensures 0.0 <= WithPercent(ranked, total)[i].percent <= 100.0
      {
        assert ranked[i] in ranked;
        PercentBounds(ranked[i].count as real, total as real);
        Round2Bounds(Percent(ranked[i].count as real, total as real));
      }
    }
  }

  /** Everything after the two queries: percent, the 0.05 cut, then the ascending sort. */
  function TopSkillsResult(filtered: seq<Grouped<TitleSkillKey>>, topN: int): (r: seq<SkillPercent>)
    ensures SortedAsc(r, PercentOf)
    ensures forall p :: p in r ==> 0.05 <= p.percent <= 100.0
    ensures topN >= 0 ==> |r| <= topN
    ensures forall p :: p in r ==> TotalJobs(filtered) > 0 && exists g :: (g in Ranked(filtered, topN)
      && g.key == p.skills && p.percent == Round2(Percent(g.count as real, TotalJobs(filtered) as real)))
    ensures forall i, j :: 0 <= i < j < |r| ==> r[i].skills != r[j].skills
  {
    var r := SortAsc(Filter(WithPercent(Ranked(filtered, topN), TotalJobs(filtered)), AboveThreshold), PercentOf);
    ResultRows(filtered, topN, r);
    r
  }

  lemma ResultRows(filtered: seq<Grouped<TitleSkillKey>>, topN: int, r: seq<SkillPercent>)
    requires r == SortAsc(Filter(WithPercent(Ranked(filtered, topN), TotalJobs(filtered)), AboveThreshold), PercentOf)
    ensures forall p :: p in r ==> 0.05 <= p.percent <= 100.0
    ensures topN >= 0 ==> |r| <= topN
    ensures forall p :: p in r ==> TotalJobs(filtered) > 0 && exists g :: (g in Ranked(filtered, topN)
      && g.key == p.skills && p.percent == Round2(Percent(g.count as real, TotalJobs(filtered) as real)))
    ensures forall i, j :: 0 <= i < j < |r| ==> r[i].skills != r[j].skills
  {
    var ranked := Ranked(filtered, topN);
    var total := TotalJobs(filtered);
    var withPercent := WithPercent(ranked, total);
    var kept := Filter(withPercent, AboveThreshold);
    RankedBounded(filtered, topN);
    RankedKeysDistinct(filtered, topN);
    WithPercentRows(ranked, total);
    KeptRows(kept, withPercent, ranked, total);
    KeptSkillsDistinct(kept, withPercent, ranked);
    forall p | p in r ensures p in multiset(r) {
    }
  }

  lemma KeptRows(kept: seq<SkillPercent>, withPercent: seq<SkillPercent>, ranked: seq<Grouped<string>>, total: nat)
    requires kept == Filter(withPercent, AboveThreshold)
    requires |withPercent| <= |ranked| && (|withPercent| > 0 ==> total > 0)
    requires forall i :: 0 <= i < |withPercent| ==>
      withPercent[i].skills == ranked[i].key && 0.0 <= withPercent[i].percent <= 100.0
      && withPercent[i].percent == Round2(Percent(ranked[i].count as real, total as real))
    ensures forall p :: p in multiset(SortAsc(kept, PercentOf)) ==>
      0.05 <= p.percent <= 100.0 && total > 0 && exists g :: (g in ranked && g.key == p.skills
        && p.percent == Round2(Percent(g.count as real, total as real)))
  {
    forall p | p in multiset(SortAsc(kept, PercentOf))
      ensures 0.05 <= p.percent <= 100.0 && total > 0 && exists g :: (g in ranked && g.key == p.skills
        && p.percent == Round2(Percent(g.count as real, total as real)))
    {
      assert p in multiset(kept);
      assert p in kept;
      var i :| 0 <= i < |withPercent| && withPercent[i] == p;
      assert ranked[i] in ranked;
    }
  }

  /** Rows kept from a table whose skills are those of distinct ranked keys,
      and then sorted, still name distinct skills. */
  lemma KeptSkillsDistinct(kept: seq<SkillPercent>, withPercent: seq<SkillPercent>, ranked: seq<Grouped<string>>)
    requires kept == Filter(withPercent, AboveThreshold)
    requires |withPercent| <= |ranked| && NoDups(Keys(ranked))
    requires forall i :: 0 <= i < |withPercent| ==> withPercent[i].skills == ranked[i].key
    ensures var r := SortAsc(kept, PercentOf);
      forall i, j :: 0 <= i < j < |r| ==> r[i].skills != r[j].skills
  {
    var r := SortAsc(kept, PercentOf);
    assert NoDups(withPercent) by {
      forall a, b | 0 <= a < b < |withPercent| ensures withPercent[a] != withPercent[b] {
        assert Keys(ranked)[a] == ranked[a].key && Keys(ranked)[b] == ranked[b].key;
      }
    }
    FilterNoDups(withPercent, AboveThreshold);
    PermutationNoDups(kept, r);
    forall i, j | 0 <= i < j < |r| ensures r[i].skills != r[j].skills {
      assert r[i] != r[j];
      assert r[i] in multiset(kept) && r[j] in multiset(kept);
      assert r[i] in kept && r[j] in kept;
      SkillsOfRowsDiffer(withPercent, ranked, r[i], r[j]);
    }
  }

  /** Two different rows of a table whose skills are the ranked keys, position
      by position, name different skills when those keys are distinct. */
  lemma SkillsOfRowsDiffer(withPercent: seq<SkillPercent>, ranked: seq<Grouped<string>>, x: SkillPercent, y: SkillPercent)
    requires |withPercent| <= |ranked| && NoDups(Keys(ranked))
    requires forall i :: 0 <= i < |withPercent| ==> withPercent[i].skills == ranked[i].key
    requires x in withPercent && y in withPercent && x != y
    ensures x.skills != y.skills
  {
    var a :| 0 <= a < |withPercent| && withPercent[a] == x;
    var b :| 0 <= b < |withPercent| && withPercent[b] == y;
    assert Keys(ranked)[a] == ranked[a].key && Keys(ranked)[b] == ranked[b].key;
  }

  /** The cut is applied after LIMIT: a ranked skill is reported exactly when its
      exact percent is at least 0.045 (so that it rounds to 0.05 or more). */
  lemma ThresholdAfterLimit(filtered: seq<Grouped<TitleSkillKey>>, topN: int, g: Grouped<string>)
    requires g in Ranked(filtered, topN) && TotalJobs(filtered) > 0
    ensures var pct := Percent(g.count as real, TotalJobs(filtered) as real);
      SkillPercent(g.key, Round2(pct)) in TopSkillsResult(filtered, topN) <==> pct >= 0.045
  {
    var total := TotalJobs(filtered);
    var ranked := Ranked(filtered, topN);
    var withPercent := WithPercent(ranked, total);
    var kept := Filter(withPercent, AboveThreshold);
    var p := SkillPercent(g.key, Round2(Percent(g.count as real, total as real)));
    var i :| 0 <= i < |ranked| && ranked[i] == g;
    assert withPercent[i] == p;
    Round2Threshold(Percent(g.count as real, total as real));
    assert multiset(TopSkillsResult(filtered, topN)) == multiset(kept);
    if AboveThreshold(p) {
      assert p in kept;
      assert p in multiset(TopSkillsResult(filtered, topN));
    }
    if p in TopSkillsResult(filtered, topN) {
      assert p in multiset(kept);
    }
  }

  /** The skills kept before the cut are the top `topN` by distinct-title count:
      `topN` of them, or all when there are fewer, each a named skill's count,
      and no skill left out has a larger count than one kept. */
  lemma RankedIsTopN(filtered: seq<Grouped<TitleSkillKey>>, topN: int)
    requires topN >= 0
    ensures |Ranked(filtered, topN)| ==
      if |SkillCountOfs(filtered)| < topN then |SkillCountOfs(filtered)| else topN
    ensures forall g :: g in Ranked(filtered, topN) ==> g in SkillCountOfs(filtered)
    ensures forall x, y :: (x in SkillCountOfs(filtered) && x !in Ranked(filtered, topN)
      && y in Ranked(filtered, topN)) ==> y.count >= x.count
  {
    assert Ranked(filtered, topN) == Take(SortDesc(SkillCountOfs(filtered), CountOf), topN);
    TopGroupsDominate(SkillCountOfs(filtered), topN);
    TopNMembers(SkillCountOfs(filtered), CountOf, topN);
  }

  /** A negative `top_n` gives `LIMIT -1`, which SQLite reads as no limit: every
      named skill is ranked, each once. */
  lemma RankedUnlimited(filtered: seq<Grouped<TitleSkillKey>>, topN: int)
    requires topN < 0
    ensures multiset(Ranked(filtered, topN)) == multiset(SkillCountOfs(filtered))
  {
  }

  /** `load_top_skills_summary(job_title_short, skill_type, top_n)`: the two
      queries over `job_title_skill_count`, which must exist and have the
      `job_title` column; the rows that result are ascending, distinct skills
      of at least 0.05 percent. */
  function LoadTopSkillsSummary(t: Tables, jobTitleShort: Option<string>, skillType: Option<string>, topN: int)
    : (r: Result<seq<SkillPercent>, DbError>)
    ensures r.Ok? <==> TITLE_SKILL_COUNT in t && t[TITLE_SKILL_COUNT].TitleSkillCountTable?
    ensures TITLE_SKILL_COUNT !in t ==> r == Err(NoSuchTable(TITLE_SKILL_COUNT))
    ensures TITLE_SKILL_COUNT in t && !t[TITLE_SKILL_COUNT].TitleSkillCountTable? ==> r == Err(NoSuchColumn("job_title"))
    ensures r.Ok? ==>
      r.value == TopSkillsResult(Filtered(t[TITLE_SKILL_COUNT].titleSkillRows, Conditions(jobTitleShort, skillType)), topN)
    ensures r.Ok? ==>
      SortedAsc(r.value, PercentOf) && (forall p :: p in r.value ==> 0.05 <= p.percent <= 100.0)
      && (forall i, j :: 0 <= i < j < |r.value| ==> r.value[i].skills != r.value[j].skills)
  {
    if TITLE_SKILL_COUNT !in t then Err(NoSuchTable(TITLE_SKILL_COUNT))
    else match t[TITLE_SKILL_COUNT]
      case TitleSkillCountTable(rows) =>
        Ok(TopSkillsResult(Filtered(rows, Conditions(jobTitleShort, skillType)), topN))
      case _ => Err(NoSuchColumn("job_title"))
  }

  /** Over a table the builder made, the reader succeeds and its rows satisfy the
      reader's promises: percents in [0.05, 100], ascending, at most `topN`. */
  lemma LoadAfterBuild(t: Tables, jobTitleShort: Option<string>, skillType: Option<string>, topN: int)
    requires TITLE_SKILL_COUNT !in t && RawOf(t).Ok?
    ensures var r := LoadTopSkillsSummary(TopSkillsBuild(t).tables, jobTitleShort, skillType, topN);
      r.Ok? && SortedAsc(r.value, PercentOf)
      && (forall p :: p in r.value ==> 0.05 <= p.percent <= 100.0)
      && (topN >= 0 ==> |r.value| <= topN)
  {
  }
}
