/** `show_top_skills`: the role selector over the cleaned frames and the
    twenty most frequent skill names among the links of the selected role. */
module TopSkillsChart {
  import opened Common
  import opened Seqs
  import opened Grouping
  import opened Schema

  // ---------------------------------------------------------------------
  // sorted(...) of texts: Python compares strings code point by code point.

  predicate LexLe(a: string, b: string)
    decreases |a|
  {
    if |a| == 0 then true
    else if |b| == 0 then false
    else if a[0] != b[0] then a[0] < b[0]
    else LexLe(a[1..], b[1..])
  }

  lemma {:induction false} LexTotal(a: string, b: string)
    ensures LexLe(a, b) || LexLe(b, a)
    decreases |a|
  {
    if |a| > 0 && |b| > 0 && a[0] == b[0] {
      LexTotal(a[1..], b[1..]);
    }
  }

  lemma {:induction false} LexTrans(a: string, b: string, c: string)
    requires LexLe(a, b) && LexLe(b, c)
    ensures LexLe(a, c)
    decreases |a|
  {
    if |a| > 0 && a[0] == b[0] && b[0] == c[0] {
      LexTrans(a[1..], b[1..], c[1..]);
    }
  }

  predicate SortedLex(s: seq<string>) {
    forall i, j :: 0 <= i < j < |s| ==> LexLe(s[i], s[j])
  }

  function InsertLex(x: string, s: seq<string>): (r: seq<string>)
    ensures multiset(r) == multiset(s) + multiset{x}
  {
    if |s| == 0 then [x]
    else if LexLe(x, s[0]) then [x] + s
    else
      assert s == [s[0]] + s[1..];
      [s[0]] + InsertLex(x, s[1..])
  }

  lemma {:induction false} InsertLexSorted(x: string, s: seq<string>)
    requires SortedLex(s)
    ensures SortedLex(InsertLex(x, s))
  {
    if |s| > 0 && LexLe(x, s[0]) {
      InsertFrontSorted(x, s);
    } else if |s| > 0 {
      InsertLexSorted(x, s[1..]);
      LexTotal(x, s[0]);
      ConsSorted(s[0], x, s[1..], InsertLex(x, s[1..]));
    }
  }

  lemma InsertFrontSorted(x: string, s: seq<string>)
    requires SortedLex(s) && |s| > 0 && LexLe(x, s[0])
    ensures SortedLex([x] + s)
  {
    forall j | 0 <= j < |s| ensures LexLe(x, s[j]) {
      if j > 0 {
        LexTrans(x, s[0], s[j]);
      }
    }
    var r := [x] + s;
    forall i, j | 0 <= i < j < |r| ensures LexLe(r[i], r[j]) {
      assert r[j] == s[j - 1];
      if i > 0 {
        assert r[i] == s[i - 1];
      }
    }
  }

  /** Putting `a` before a sorted permutation `t` of `rest + [x]` keeps it sorted
      when `a` is at most `x` and every element of `rest`. */
  lemma ConsSorted(a: string, x: string, rest: seq<string>, t: seq<string>)
    requires SortedLex([a] + rest) && LexLe(a, x) && SortedLex(t)
    requires multiset(t) == multiset(rest) + multiset{x}
    ensures SortedLex([a] + t)
  {
    forall k | 0 <= k < |t| ensures LexLe(a, t[k]) {
      assert t[k] in multiset(t);
      if t[k] != x {
        assert t[k] in multiset(rest);
        var m :| 0 <= m < |rest| && rest[m] == t[k];
        assert ([a] + rest)[0] == a && ([a] + rest)[m + 1] == t[k];
      }
    }
    var r := [a] + t;
    forall i, j | 0 <= i < j < |r| ensures LexLe(r[i], r[j]) {
      assert r[j] == t[j - 1];
      if i > 0 {
        assert r[i] == t[i - 1];
      }
    }
  }

  /** `sorted(...)` of texts: a permutation in non-decreasing order. */
  function SortLex(s: seq<string>): (r: seq<string>)
    ensures SortedLex(r)
    ensures multiset(r) == multiset(s)
  {
    if |s| == 0 then []
    else
      assert s == [s[0]] + s[1..];
      var t := SortLex(s[1..]);
      InsertLexSorted(s[0], t);
      InsertLex(s[0], t)
  }

  // ---------------------------------------------------------------------
  // The role selector.

  /** The non-null values of an optional column, in order. */
  function Present(s: seq<Option<string>>): seq<string> {
    if |s| == 0 then []
    else Present(s[..|s| - 1]) + (if s[|s| - 1].Some? then [s[|s| - 1].value] else [])
  }

  lemma {:induction false} PresentMembers(s: seq<Option<string>>, x: string)
    ensures x in Present(s) <==> Some(x) in s
  {
    if |s| > 0 {
      SplitLast(s);
      PresentMembers(s[..|s| - 1], x);
    }
  }

  function TitleColumn(jobs: seq<Job>): seq<Option<string>> {
    Map(jobs, (j: Job) => j.jobTitleShort)
  }

  /** `sorted(df_jobs['job_title_short'].dropna().unique())`. */
  function TitleOptions(jobs: seq<Job>): seq<string> {
    SortLex(Distinct(Present(TitleColumn(jobs))))
  }

  /** The options are the distinct non-null short titles, in sorted order. */
  lemma TitleOptionsSpec(jobs: seq<Job>)
    ensures SortedLex(TitleOptions(jobs))
    ensures NoDups(TitleOptions(jobs))
    ensures forall x :: x in TitleOptions(jobs) <==> exists i :: 0 <= i < |jobs| && jobs[i].jobTitleShort == Some(x)
  {
    var d := Distinct(Present(TitleColumn(jobs)));
    PermutationNoDups(d, TitleOptions(jobs));
    forall x ensures x in TitleOptions(jobs) <==> exists i :: 0 <= i < |jobs| && jobs[i].jobTitleShort == Some(x) {
      assert x in TitleOptions(jobs) <==> x in multiset(d);
      PresentMembers(TitleColumn(jobs), x);
      if Some(x) in TitleColumn(jobs) {
        var i :| 0 <= i < |jobs| && TitleColumn(jobs)[i] == Some(x);
      }
      if exists i :: 0 <= i < |jobs| && jobs[i].jobTitleShort == Some(x) {
        var i :| 0 <= i < |jobs| && jobs[i].jobTitleShort == Some(x);
        assert TitleColumn(jobs)[i] == Some(x);
      }
    }
  }

  // ---------------------------------------------------------------------
  // Semi-join, left merge and value counts.

  /** The ids of the postings whose short title equals the selection. A
      missing title never equals it, and no selection (an empty selector)
      selects nothing. */
  function RoleJobIds(jobs: seq<Job>, selected: Option<string>): seq<Option<Id>> {
    Distinct(Map(Filter(jobs, (j: Job) => selected.Some? && j.jobTitleShort == selected), (j: Job) => j.jobId))
  }

  /** `df_skills_job[df_skills_job['job_id'].isin(job_ids)]`. */
  function RoleLinks(jobs: seq<Job>, links: seq<Link>, selected: Option<string>): seq<Link> {
    var ids := RoleJobIds(jobs, selected);
    Filter(links, (l: Link) => l.jobId in ids)
  }

  /** A link is kept exactly when some posting with the selected role has its `job_id`. */
  lemma RoleLinksSpec(jobs: seq<Job>, links: seq<Link>, selected: Option<string>, l: Link)
    ensures l in RoleLinks(jobs, links, selected) <==>
      l in links && selected.Some? && exists j :: j in jobs && j.jobTitleShort == selected && j.jobId == l.jobId
  {
    var sel := Filter(jobs, (j: Job) => selected.Some? && j.jobTitleShort == selected);
    var ids := Map(sel, (j: Job) => j.jobId);
    if l in RoleLinks(jobs, links, selected) {
      assert l.jobId in ids;
      var k :| 0 <= k < |ids| && ids[k] == l.jobId;
      assert sel[k] in jobs;
    }
    if l in links && selected.Some? && exists j :: j in jobs && j.jobTitleShort == selected && j.jobId == l.jobId {
      var j :| j in jobs && j.jobTitleShort == selected && j.jobId == l.jobId;
      var i :| 0 <= i < |jobs| && jobs[i] == j;
      assert j in sel;
      var k :| 0 <= k < |sel| && sel[k] == j;
      assert ids[k] == l.jobId;
      var m :| 0 <= m < |links| && links[m] == l;
    }
  }

  /** The skills whose `skill_id` equals the link's, in dictionary order. */
  function SkillsWithId(id: Option<Id>, skills: seq<Skill>): seq<Skill> {
    Filter(skills, (s: Skill) => s.skillId == id)
  }

  /** The `skills` column a left merge gives one link: one value per matching
      skill, or a single missing value when none matches. */
  function MergedNamesOf(l: Link, skills: seq<Skill>): seq<Option<string>> {
    var m := SkillsWithId(l.skillId, skills);
    if |m| == 0 then [None] else Map(m, (s: Skill) => s.skills)
  }

  /** The `skills` column of `pd.merge(links, skills, on='skill_id', how='left')`. */
  function MergedNames(links: seq<Link>, skills: seq<Skill>): seq<Option<string>> {
    if |links| == 0 then []
    else MergedNames(links[..|links| - 1], skills) + MergedNamesOf(links[|links| - 1], skills)
  }

  /** What the page shows. */
  datatype TopSkillsView = NoSkills | Chart(top: seq<Grouped<string>>)

  /** `.head(20)` of the counts in descending order: at most twenty rows,
      largest count first, none left out that counts more than one kept. */
  function Top20(counts: seq<Grouped<string>>): (top: seq<Grouped<string>>)
    requires NoDups(Keys(counts))
    ensures |top| <= 20 && (|top| == 0 <==> |counts| == 0)
    ensures |top| == if |counts| < 20 then |counts| else 20
    ensures SortedDesc(top, CountOf)
    ensures forall i :: 0 <= i < |top| ==> top[i] in counts
    ensures NoDups(Keys(top))
    ensures forall g, h :: g in counts && g !in top && h in top ==> CountOf(h) >= CountOf(g)
  {
    TopNDominates(counts, CountOf, 20);
    TopGroups(counts, 20);
    Take(SortDesc(counts, CountOf), 20)
  }

  /** The non-missing skill names the merge gives the links of the selected role. */
  function RoleSkillNames(jobs: seq<Job>, skills: seq<Skill>, links: seq<Link>, selected: Option<string>): seq<string> {
    Present(MergedNames(RoleLinks(jobs, links, selected), skills))
  }

  /** `value_counts().head(20)` of the names, then the chart or the "no skills"
      message: each charted count is the number of rows with that name. */
  function ShowCounts(names: seq<string>): (v: TopSkillsView)
    ensures v.NoSkills? <==> |names| == 0
    ensures v.Chart? ==> |v.top| <= 20 && |v.top| >= 1 && SortedDesc(v.top, CountOf) && NoDups(Keys(v.top))
    ensures v.Chart? ==> |v.top| == if |GroupCount(names)| < 20 then |GroupCount(names)| else 20
    ensures v.Chart? ==> forall i :: 0 <= i < |v.top| ==> v.top[i].count == Count(v.top[i].key, names)
    ensures v.Chart? ==> forall g, h :: g in GroupCount(names) && g !in v.top && h in v.top ==> h.count >= g.count
  {
    var top := Top20(GroupCount(names));
    TopCounts(names);
    if |top| == 0 then NoSkills else Chart(top)
  }

  lemma TopCounts(names: seq<string>)
    ensures var top := Top20(GroupCount(names));
      (|top| == 0 <==> |names| == 0)
      && (forall i :: 0 <= i < |top| ==> top[i].count == Count(top[i].key, names))
      && forall g, h :: g in GroupCount(names) && g !in top && h in top ==> h.count >= g.count
  {
    var counts := GroupCount(names);
    var top := Top20(counts);
    forall i | 0 <= i < |top| ensures top[i].count == Count(top[i].key, names) {
      var k :| 0 <= k < |counts| && counts[k] == top[i];
    }
    if |names| > 0 {
      assert names[0] in Keys(counts);
    }
    forall g, h | g in counts && g !in top && h in top ensures h.count >= g.count {
      assert CountOf(h) >= CountOf(g);
    }
  }

  /** `show_top_skills` for the selected role. */
  function ShowTopSkills(jobs: seq<Job>, skills: seq<Skill>, links: seq<Link>, selected: Option<string>): TopSkillsView {
    ShowCounts(RoleSkillNames(jobs, skills, links, selected))
  }

  /** The count of a name is the number of merged rows that carry it; a link
      whose `skill_id` has no skill adds only a missing name, so it changes no count. */
  lemma UnmatchedLinkNotCounted(links: seq<Link>, l: Link, skills: seq<Skill>)
    requires |SkillsWithId(l.skillId, skills)| == 0
    ensures Present(MergedNames(links + [l], skills)) == Present(MergedNames(links, skills))
  {
    assert (links + [l])[..|links|] == links;
    var before := MergedNames(links, skills);
    assert MergedNames(links + [l], skills) == before + [None];
    assert (before + [None])[..|before|] == before;
  }

  /** A link matching exactly one skill adds that skill's name when it has one. */
  lemma MatchedLinkCounted(links: seq<Link>, l: Link, skills: seq<Skill>, s: Skill)
    requires SkillsWithId(l.skillId, skills) == [s]
    ensures Present(MergedNames(links + [l], skills))
      == Present(MergedNames(links, skills)) + (if s.skills.Some? then [s.skills.value] else [])
  {
    assert (links + [l])[..|links|] == links;
    var before := MergedNames(links, skills);
    assert MergedNamesOf(l, skills) == [s.skills];
    assert MergedNames(links + [l], skills) == before + [s.skills];
    assert (before + [s.skills])[..|before|] == before;
  }
}
