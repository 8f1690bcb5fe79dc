/** The inner join `skills_job_dim ⋈ skills_dim ⋈ job_postings_fact` on
    `skill_id` and `job_id` shared by the top-skills, skill-type and demand
    builders. The model enumerates tuples link by link, then matching skill,
    then matching posting; SQL fixes no row order. */
module Joins {
  import opened Common
  import opened Seqs
  import opened Schema

  /** SQL `=` on nullable columns: NULL equals nothing, not even NULL. */
  predicate SqlEq<K(==)>(a: Option<K>, b: Option<K>) {
    a.Some? && b.Some? && a.value == b.value
  }

  datatype Joined = Joined(link: Link, skill: Skill, job: Job)

  predicate JoinCond(l: Link, s: Skill, j: Job) {
    SqlEq(l.skillId, s.skillId) && SqlEq(l.jobId, j.jobId)
  }

  function SkillsFor(l: Link, skills: seq<Skill>): seq<Skill> {
    Filter(skills, (s: Skill) => SqlEq(l.skillId, s.skillId))
  }

  function JobsFor(l: Link, jobs: seq<Job>): seq<Job> {
    Filter(jobs, (j: Job) => SqlEq(l.jobId, j.jobId))
  }

  /** Every combination of one link with the skills and postings it matches. */
  function Pairs(l: Link, ss: seq<Skill>, js: seq<Job>): seq<Joined> {
    if |ss| == 0 then []
    else Pairs(l, ss[..|ss| - 1], js) + Map(js, (j: Job) => Joined(l, ss[|ss| - 1], j))
  }

  function InnerJoin(links: seq<Link>, skills: seq<Skill>, jobs: seq<Job>): seq<Joined> {
    if |links| == 0 then []
    else
      var l := links[|links| - 1];
      InnerJoin(links[..|links| - 1], skills, jobs) + Pairs(l, SkillsFor(l, skills), JobsFor(l, jobs))
  }

  lemma {:induction false} PairsSize(l: Link, ss: seq<Skill>, js: seq<Job>)
    ensures |Pairs(l, ss, js)| == |ss| * |js|
  {
    if |ss| > 0 {
      PairsSize(l, ss[..|ss| - 1], js);
      assert |ss| * |js| == (|ss| - 1) * |js| + |js|;
    }
  }

  lemma {:induction false} PairsMembers(l: Link, ss: seq<Skill>, js: seq<Job>, x: Joined)
    ensures x in Pairs(l, ss, js) <==> x.link == l && x.skill in ss && x.job in js
  {
    if |ss| > 0 {
      var init := ss[..|ss| - 1];
      SplitLast(ss);
      PairsMembers(l, init, js, x);
      var m := Map(js, (j: Job) => Joined(l, ss[|ss| - 1], j));
      if x in m {
        var i :| 0 <= i < |m| && m[i] == x;
        assert x.job == js[i];
      }
      if x.link == l && x.skill == ss[|ss| - 1] && x.job in js {
        var i :| 0 <= i < |js| && js[i] == x.job;
        assert m[i] == x;
      }
    }
  }

  /** A tuple is in the join exactly when its three parts are rows of the three
      relations and agree on both join keys (neither key NULL). */
  lemma {:induction false} JoinMembership(links: seq<Link>, skills: seq<Skill>, jobs: seq<Job>, x: Joined)
    ensures x in InnerJoin(links, skills, jobs) <==>
      x.link in links && x.skill in skills && x.job in jobs && JoinCond(x.link, x.skill, x.job)
  {
    if |links| > 0 {
      var init := links[..|links| - 1];
      var l := links[|links| - 1];
      SplitLast(links);
      JoinMembership(init, skills, jobs, x);
      PairsMembers(l, SkillsFor(l, skills), JobsFor(l, jobs), x);
      if x.link == l && x.skill in skills && SqlEq(l.skillId, x.skill.skillId) {
        var i :| 0 <= i < |skills| && skills[i] == x.skill;
        assert x.skill in SkillsFor(l, skills);
      }
      if x.link == l && x.job in jobs && SqlEq(l.jobId, x.job.jobId) {
        var i :| 0 <= i < |jobs| && jobs[i] == x.job;
        assert x.job in JobsFor(l, jobs);
      }
    }
  }

  /** Appending a link appends one tuple per (matching skill, matching posting). */
  lemma JoinSnocSize(links: seq<Link>, l: Link, skills: seq<Skill>, jobs: seq<Job>)
    ensures |InnerJoin(links + [l], skills, jobs)|
      == |InnerJoin(links, skills, jobs)| + |SkillsFor(l, skills)| * |JobsFor(l, jobs)|
  {
    assert (links + [l])[..|links|] == links;
    PairsSize(l, SkillsFor(l, skills), JobsFor(l, jobs));
  }

  /** A link with no matching skill or no matching posting adds no tuple. */
  lemma UnmatchedLinkAddsNothing(links: seq<Link>, l: Link, skills: seq<Skill>, jobs: seq<Job>)
    requires (forall s :: s in skills ==> !SqlEq(l.skillId, s.skillId))
          || (forall j :: j in jobs ==> !SqlEq(l.jobId, j.jobId))
    ensures InnerJoin(links + [l], skills, jobs) == InnerJoin(links, skills, jobs)
  {
    assert (links + [l])[..|links|] == links;
    JoinSnocSize(links, l, skills, jobs);
    var ss, js := SkillsFor(l, skills), JobsFor(l, jobs);
    if |ss| > 0 {
      assert ss[0] in skills;
    }
    if |js| > 0 {
      assert js[0] in jobs;
    }
  }

  /** A link that matches exactly one skill and one posting adds exactly one tuple. */
  lemma UniquelyMatchedLinkAddsOne(links: seq<Link>, l: Link, skills: seq<Skill>, jobs: seq<Job>)
    requires |SkillsFor(l, skills)| == 1 && |JobsFor(l, jobs)| == 1
    ensures InnerJoin(links + [l], skills, jobs)
      == InnerJoin(links, skills, jobs) + [Joined(l, SkillsFor(l, skills)[0], JobsFor(l, jobs)[0])]
  {
    assert (links + [l])[..|links|] == links;
    var ss, js := SkillsFor(l, skills), JobsFor(l, jobs);
    assert ss[..0] == [];
    assert Pairs(l, ss, js) == Pairs(l, [], js) + Map(js, (j: Job) => Joined(l, ss[0], j));
  }

  /** A value of a column computed from the tuples occurs exactly when some
      matching (link, skill, posting) gives it. */
  lemma JoinColumn<K>(links: seq<Link>, skills: seq<Skill>, jobs: seq<Job>, f: Joined -> K, k: K)
    ensures k in Map(InnerJoin(links, skills, jobs), f) <==>
      exists l, s, j :: l in links && s in skills && j in jobs && JoinCond(l, s, j) && f(Joined(l, s, j)) == k
  {
    var join := InnerJoin(links, skills, jobs);
    if k in Map(join, f) {
      var m :| 0 <= m < |join| && Map(join, f)[m] == k;
      var x := join[m];
      JoinMembership(links, skills, jobs, x);
      assert Joined(x.link, x.skill, x.job) == x;
    }
    if exists l, s, j :: l in links && s in skills && j in jobs && JoinCond(l, s, j) && f(Joined(l, s, j)) == k {
      var l, s, j :| l in links && s in skills && j in jobs && JoinCond(l, s, j) && f(Joined(l, s, j)) == k;
      JoinMembership(links, skills, jobs, Joined(l, s, j));
      var m :| 0 <= m < |join| && join[m] == Joined(l, s, j);
      assert Map(join, f)[m] == k;
    }
  }
}
