/** `preprocess_data`: the cleaning stage in front of the top-skills chart.
    Each frame is first deduplicated on its key columns (keeping the first
    occurrence), then rows with a missing key are dropped, then the id columns
    are cast to text and the name columns are trimmed. */
module Cleaning {
  import opened Common
  import opened Seqs
  import opened Schema

  // ---------------------------------------------------------------------
  // drop_duplicates(subset=...): pandas compares the raw values, and two
  // missing values count as equal.

  /** No earlier row has the same key as row `i`. */
  predicate IsFirst<T, K(==)>(s: seq<T>, i: nat, key: T -> K)
    requires i < |s|
  {
    forall j :: 0 <= j < i ==> key(s[j]) != key(s[i])
  }

  /** `drop_duplicates(subset=key)`, keep='first'. */
  function DedupBy<T, K(==)>(s: seq<T>, key: T -> K): (r: seq<T>)
    ensures |r| <= |s|
  {
    if |s| == 0 then []
    else
      var init := s[..|s| - 1];
      var d := DedupBy(init, key);
      if key(s[|s| - 1]) in Map(init, key) then d else d + [s[|s| - 1]]
  }

  lemma IsFirstInit<T, K>(s: seq<T>, i: nat, key: T -> K)
    requires i < |s| - 1
    ensures IsFirst(s, i, key) <==> IsFirst(s[..|s| - 1], i, key)
  {
    assert forall j :: 0 <= j <= i ==> s[j] == s[..|s| - 1][j];
  }

  /** The last row is kept exactly when it is the first with its key. */
  lemma LastKept<T, K>(s: seq<T>, key: T -> K)
    requires |s| > 0
    ensures key(s[|s| - 1]) !in Map(s[..|s| - 1], key) <==> IsFirst(s, |s| - 1, key)
  {
    var init := s[..|s| - 1];
    if key(s[|s| - 1]) in Map(init, key) {
      var j :| 0 <= j < |init| && Map(init, key)[j] == key(s[|s| - 1]);
      assert key(s[j]) == key(s[|s| - 1]);
    } else {
      forall j | 0 <= j < |s| - 1 ensures key(s[j]) != key(s[|s| - 1]) {
        assert Map(init, key)[j] == key(s[j]);
      }
    }
  }

  /** Every kept row is the first occurrence of its key. */
  lemma {:induction false} DedupMembers<T, K>(s: seq<T>, key: T -> K, x: T)
    requires x in DedupBy(s, key)
    ensures exists i :: 0 <= i < |s| && s[i] == x && IsFirst(s, i, key)
  {
    var init := s[..|s| - 1];
    LastKept(s, key);
    if x in DedupBy(init, key) {
      DedupMembers(init, key, x);
      var i :| 0 <= i < |init| && init[i] == x && IsFirst(init, i, key);
      IsFirstInit(s, i, key);
    }
  }

  /** Every first occurrence is kept. */
  lemma {:induction false} DedupKeepsFirst<T, K>(s: seq<T>, key: T -> K, i: nat)
    requires i < |s| && IsFirst(s, i, key)
    ensures s[i] in DedupBy(s, key)
  {
    var init := s[..|s| - 1];
    LastKept(s, key);
    if i < |s| - 1 {
      IsFirstInit(s, i, key);
      DedupKeepsFirst(init, key, i);
    }
  }

  /** Every key of the input is the key of some kept row. */
  lemma {:induction false} DedupKeysOf<T, K>(s: seq<T>, key: T -> K, i: nat)
    requires i < |s|
    ensures key(s[i]) in Map(DedupBy(s, key), key)
  {
    var init := s[..|s| - 1];
    var d := DedupBy(init, key);
    var r := DedupBy(s, key);
    assert forall k :: 0 <= k < |d| ==> Map(r, key)[k] == Map(d, key)[k];
    if i < |s| - 1 {
      DedupKeysOf(init, key, i);
      assert init[i] == s[i];
    } else if key(s[i]) in Map(init, key) {
      var j :| 0 <= j < |init| && Map(init, key)[j] == key(s[i]);
      DedupKeysOf(init, key, j);
    } else {
      assert r[|r| - 1] == s[i];
    }
  }

  /** No two kept rows share a key. */
  lemma {:induction false} DedupKeysDistinct<T, K>(s: seq<T>, key: T -> K)
    ensures NoDups(Map(DedupBy(s, key), key))
  {
    if |s| > 0 {
      var init := s[..|s| - 1];
      var x := s[|s| - 1];
      var d := DedupBy(init, key);
      DedupKeysDistinct(init, key);
      if key(x) !in Map(init, key) {
        forall k | 0 <= k < |d| ensures key(d[k]) != key(x) {
          DedupMembers(init, key, d[k]);
          var i :| 0 <= i < |init| && init[i] == d[k] && IsFirst(init, i, key);
          assert Map(init, key)[i] == key(d[k]);
        }
        assert Map(d + [x], key) == Map(d, key) + [key(x)];
      }
    }
  }

  /** The positions below `n` of the rows that are the first with their key
      and pass `p`, in increasing order. */
  function FirstIndices<T, K(==)>(s: seq<T>, key: T -> K, p: T -> bool, n: nat): (r: seq<nat>)
    requires n <= |s|
    ensures forall k :: 0 <= k < |r| ==> r[k] < n
  {
    if n == 0 then []
    else FirstIndices(s, key, p, n - 1) + (if IsFirst(s, n - 1, key) && p(s[n - 1]) then [n - 1] else [])
  }

  /** The positions are strictly increasing. */
  lemma {:induction false} FirstIndicesIncreasing<T, K>(s: seq<T>, key: T -> K, p: T -> bool, n: nat)
    requires n <= |s|
    ensures forall a, b :: 0 <= a < b < |FirstIndices(s, key, p, n)| ==>
      FirstIndices(s, key, p, n)[a] < FirstIndices(s, key, p, n)[b]
  {
    if n > 0 {
      FirstIndicesIncreasing(s, key, p, n - 1);
      var r0 := FirstIndices(s, key, p, n - 1);
      var r := r0 + (if IsFirst(s, n - 1, key) && p(s[n - 1]) then [n - 1] else []);
      forall a, b | 0 <= a < b < |r| ensures r[a] < r[b] {
        if b >= |r0| {
          assert r[a] == r0[a] < n - 1 == r[b];
        } else {
          assert r[a] == r0[a] && r[b] == r0[b];
        }
      }
    }
  }

  /** A position is listed exactly when its row is the first with its key and
      passes `p`. */
  lemma {:induction false} FirstIndicesMembers<T, K>(s: seq<T>, key: T -> K, p: T -> bool, n: nat, i: nat)
    requires i < n <= |s|
    ensures i in FirstIndices(s, key, p, n) <==> IsFirst(s, i, key) && p(s[i])
  {
    if i < n - 1 {
      FirstIndicesMembers(s, key, p, n - 1, i);
    }
  }

  /** Below the last row, the positions do not depend on it. */
  lemma {:induction false} FirstIndicesInit<T, K>(s: seq<T>, key: T -> K, p: T -> bool, n: nat)
    requires n <= |s| - 1
    ensures FirstIndices(s, key, p, n) == FirstIndices(s[..|s| - 1], key, p, n)
  {
    if n > 0 {
      var init := s[..|s| - 1];
      FirstIndicesInit(s, key, p, n - 1);
      IsFirstInit(s, n - 1, key);
      assert s[n - 1] == init[n - 1];
      assert (IsFirst(s, n - 1, key) && p(s[n - 1])) == (IsFirst(init, n - 1, key) && p(init[n - 1]));
    }
  }

  /** Positions read in the prefix without the last row read the same rows
      in the whole sequence. */
  lemma PositionsInInit<T>(f: seq<T>, idx: seq<nat>, s: seq<T>)
    requires |s| > 0 && |f| == |idx|
    requires forall k :: 0 <= k < |idx| ==> idx[k] < |s| - 1 && f[k] == s[..|s| - 1][idx[k]]
    ensures forall k :: 0 <= k < |idx| ==> f[k] == s[idx[k]]
  {
  }

  /** Reading one more position appends its row. */
  lemma PositionsAppend<T>(f: seq<T>, idx: seq<nat>, s: seq<T>, j: nat)
    requires |f| == |idx| && j < |s|
    requires forall k :: 0 <= k < |idx| ==> idx[k] < |s| && f[k] == s[idx[k]]
    ensures forall k :: 0 <= k < |idx| + 1 ==> (idx + [j])[k] < |s| && (f + [s[j]])[k] == s[(idx + [j])[k]]
  {
  }

  /** Deduplicating and then filtering keeps exactly the rows at the positions
      `FirstIndices` lists, in their input order. */
  lemma {:induction false} FilterDedupInOrder<T, K>(s: seq<T>, key: T -> K, p: T -> bool)
    ensures var idx := FirstIndices(s, key, p, |s|);
      var f := Filter(DedupBy(s, key), p);
      |f| == |idx| && forall k :: 0 <= k < |idx| ==> f[k] == s[idx[k]]
  {
    if |s| > 0 {
      var init := s[..|s| - 1];
      var x := s[|s| - 1];
      var d := DedupBy(init, key);
      var f0 := Filter(d, p);
      var idx0 := FirstIndices(s, key, p, |s| - 1);
      FilterDedupInOrder(init, key, p);
      FirstIndicesInit(s, key, p, |s| - 1);
      PositionsInInit(f0, idx0, s);
      LastKept(s, key);
      if key(x) !in Map(init, key) {
        assert (d + [x])[..|d|] == d;
        if p(x) {
          PositionsAppend(f0, idx0, s, |s| - 1);
        }
      }
    }
  }

  /** Keep-first deduplication, in full: the kept rows are exactly the first
      occurrences of the keys, in input order, and every key of the input
      keeps one row. */
  lemma DedupBySpec<T, K>(s: seq<T>, key: T -> K)
    ensures var idx := FirstIndices(s, key, (x: T) => true, |s|);
      var r := DedupBy(s, key);
      |r| == |idx| && forall k :: 0 <= k < |idx| ==> r[k] == s[idx[k]]
    ensures var r := DedupBy(s, key);
      && NoDups(Map(r, key))
      && (forall x :: x in r ==> exists i :: 0 <= i < |s| && s[i] == x && IsFirst(s, i, key))
      && (forall i :: 0 <= i < |s| && IsFirst(s, i, key) ==> s[i] in r)
      && (forall i :: 0 <= i < |s| ==> key(s[i]) in Map(r, key))
  {
    FilterDedupInOrder(s, key, (x: T) => true);
    FilterAll(DedupBy(s, key), (x: T) => true);
    DedupKeysDistinct(s, key);
    forall x | x in DedupBy(s, key) ensures exists i :: 0 <= i < |s| && s[i] == x && IsFirst(s, i, key) {
      DedupMembers(s, key, x);
    }
    forall i | 0 <= i < |s| && IsFirst(s, i, key) ensures s[i] in DedupBy(s, key) {
      DedupKeepsFirst(s, key, i);
    }
    forall i | 0 <= i < |s| ensures key(s[i]) in Map(DedupBy(s, key), key) {
      DedupKeysOf(s, key, i);
    }
  }

  /** A row that survives deduplication and a row filter is a first
      occurrence that passes the filter. */
  lemma FilteredIsFirst<T, K>(s: seq<T>, key: T -> K, p: T -> bool, k: nat)
    requires k < |Filter(DedupBy(s, key), p)|
    ensures exists i :: 0 <= i < |s| && s[i] == Filter(DedupBy(s, key), p)[k] && IsFirst(s, i, key) && p(s[i])
  {
    var x := Filter(DedupBy(s, key), p)[k];
    assert x in DedupBy(s, key) && p(x);
    DedupMembers(s, key, x);
  }

  /** A first occurrence that passes the filter survives both. */
  lemma FirstIsFiltered<T, K>(s: seq<T>, key: T -> K, p: T -> bool, i: nat)
    requires i < |s| && IsFirst(s, i, key) && p(s[i])
    ensures exists k :: 0 <= k < |Filter(DedupBy(s, key), p)| && Filter(DedupBy(s, key), p)[k] == s[i]
  {
    var d := DedupBy(s, key);
    DedupKeepsFirst(s, key, i);
    var m :| 0 <= m < |d| && d[m] == s[i];
    assert s[i] in Filter(d, p);
  }

  // ---------------------------------------------------------------------
  // astype(str) and str.strip()

  function DigitChar(d: nat): char
    requires d < 10
  {
    "0123456789"[d]
  }

  /** Decimal text of a natural number. */
  function NatText(n: nat): (r: string)
    ensures |r| >= 1
    decreases n
  {
    if n < 10 then [DigitChar(n)] else NatText(n / 10) + [DigitChar(n % 10)]
  }

  /** `str(n)` of an integer. */
  function IntText(n: int): string {
    if n < 0 then "-" + NatText(-n) else NatText(n)
  }

  /** `str(v)` of a raw identifier. */
  function IdText(id: Id): string {
    match id
    case IntId(n) => IntText(n)
    case TextId(s) => s
  }

  /** The characters `str.isspace` accepts among the ASCII and Latin-1 ranges. */
  predicate IsSpace(c: char) {
    c == ' ' || ('\t' <= c <= '\r') || ('\U{1C}' <= c <= '\U{1F}') || c == '\U{85}' || c == '\U{A0}'
  }

  /** The first position at or after `i` that is not whitespace (or the end). */
  function SkipLead(s: string, i: nat): (n: nat)
    requires i <= |s|
    ensures i <= n <= |s|
    ensures forall k :: i <= k < n ==> IsSpace(s[k])
    ensures n < |s| ==> !IsSpace(s[n])
    decreases |s| - i
  {
    if i < |s| && IsSpace(s[i]) then SkipLead(s, i + 1) else i
  }

  /** The end of `s[lo..j]` once its trailing whitespace is dropped. */
  function SkipTrail(s: string, lo: nat, j: nat): (n: nat)
    requires lo <= j <= |s|
    ensures lo <= n <= j
    ensures forall k :: n <= k < j ==> IsSpace(s[k])
    ensures n > lo ==> !IsSpace(s[n - 1])
    decreases j
  {
    if j > lo && IsSpace(s[j - 1]) then SkipTrail(s, lo, j - 1) else j
  }

  /** `str.strip()`: the middle of `s` with the whitespace at both ends removed. */
  function Strip(s: string): (r: string)
    ensures |r| <= |s|
    ensures |r| > 0 ==> !IsSpace(r[0]) && !IsSpace(r[|r| - 1])
    ensures exists i, j ::
              0 <= i <= j <= |s| && r == s[i..j]
              && (forall k :: 0 <= k < i ==> IsSpace(s[k])) && (forall k :: j <= k < |s| ==> IsSpace(s[k]))
  {
    var i := SkipLead(s, 0);
    var j := SkipTrail(s, i, |s|);
    s[i..j]
  }

  lemma NoEdgeSpaceStripped(s: string)
    requires |s| == 0 || (!IsSpace(s[0]) && !IsSpace(s[|s| - 1]))
    ensures Strip(s) == s
  {
  }

  /** Trimming twice is trimming once. */
  lemma StripIdempotent(s: string)
    ensures Strip(Strip(s)) == Strip(s)
  {
    NoEdgeSpaceStripped(Strip(s));
  }

  // ---------------------------------------------------------------------
  // The three frames.

  function JobKey(j: Job): Option<Id> {
    j.jobId
  }

  function SkillKey(s: Skill): Option<Id> {
    s.skillId
  }

  function LinkKey(l: Link): (Option<Id>, Option<Id>) {
    (l.jobId, l.skillId)
  }

  predicate JobComplete(j: Job) {
    j.jobId.Some? && j.jobTitleShort.Some?
  }

  predicate SkillComplete(s: Skill) {
    s.skillId.Some? && s.skills.Some?
  }

  predicate LinkComplete(l: Link) {
    l.jobId.Some? && l.skillId.Some?
  }

  function CastJob(j: Job): Job
    requires JobComplete(j)
  {
    j.(jobId := Some(TextId(IdText(j.jobId.value))), jobTitleShort := Some(Strip(j.jobTitleShort.value)))
  }

  function CastSkill(s: Skill): Skill
    requires SkillComplete(s)
  {
    s.(skillId := Some(TextId(IdText(s.skillId.value))), skills := Some(Strip(s.skills.value)))
  }

  function CastLink(l: Link): Link
    requires LinkComplete(l)
  {
    Link(Some(TextId(IdText(l.jobId.value))), Some(TextId(IdText(l.skillId.value))))
  }

  function CastJobs(jobs: seq<Job>): (r: seq<Job>)
    requires forall j :: j in jobs ==> JobComplete(j)
    ensures |r| == |jobs|
    ensures forall i :: 0 <= i < |jobs| ==> r[i] == CastJob(jobs[i])
  {
    if |jobs| == 0 then [] else CastJobs(jobs[..|jobs| - 1]) + [CastJob(jobs[|jobs| - 1])]
  }

  function CastSkills(skills: seq<Skill>): (r: seq<Skill>)
    requires forall s :: s in skills ==> SkillComplete(s)
    ensures |r| == |skills|
    ensures forall i :: 0 <= i < |skills| ==> r[i] == CastSkill(skills[i])
  {
    if |skills| == 0 then [] else CastSkills(skills[..|skills| - 1]) + [CastSkill(skills[|skills| - 1])]
  }

  function CastLinks(links: seq<Link>): (r: seq<Link>)
    requires forall l :: l in links ==> LinkComplete(l)
    ensures |r| == |links|
    ensures forall i :: 0 <= i < |links| ==> r[i] == CastLink(links[i])
  {
    if |links| == 0 then [] else CastLinks(links[..|links| - 1]) + [CastLink(links[|links| - 1])]
  }

  /** The cleaned postings. */
  function CleanJobs(jobs: seq<Job>): (r: seq<Job>)
    ensures |r| <= |jobs|
  {
    var f := Filter(DedupBy(jobs, JobKey), JobComplete);
    CastJobs(f)
  }

  /** The cleaned skills dictionary. */
  function CleanSkills(skills: seq<Skill>): (r: seq<Skill>)
    ensures |r| <= |skills|
  {
    var f := Filter(DedupBy(skills, SkillKey), SkillComplete);
    CastSkills(f)
  }

  /** The cleaned links. */
  function CleanLinks(links: seq<Link>): (r: seq<Link>)
    ensures |r| <= |links|
  {
    var f := Filter(DedupBy(links, LinkKey), LinkComplete);
    CastLinks(f)
  }

  /** `preprocess_data(df_jobs, df_skills, df_skills_job)`. */
  function PreprocessData(jobs: seq<Job>, skills: seq<Skill>, links: seq<Link>): (seq<Job>, seq<Skill>, seq<Link>) {
    (CleanJobs(jobs), CleanSkills(skills), CleanLinks(links))
  }

  /** Every cleaned posting comes from a first occurrence of its raw id that
      has an id and a short title: the id becomes text, the short title is
      trimmed and every other column is as it was; and every such first
      occurrence is there. */
  lemma CleanJobsSpec(jobs: seq<Job>)
    ensures forall x :: x in CleanJobs(jobs) ==>
      (exists i :: 0 <= i < |jobs| && IsFirst(jobs, i, JobKey) && JobComplete(jobs[i])
        && x.jobId == Some(TextId(IdText(jobs[i].jobId.value)))
        && x.jobTitleShort == Some(Strip(jobs[i].jobTitleShort.value))
        && x.jobTitle == jobs[i].jobTitle && x.postedDate == jobs[i].postedDate && x.country == jobs[i].country
        && x.schedule == jobs[i].schedule && x.salary == jobs[i].salary)
    ensures forall i :: 0 <= i < |jobs| && IsFirst(jobs, i, JobKey) && JobComplete(jobs[i]) ==> CastJob(jobs[i]) in CleanJobs(jobs)
  {
    var f := Filter(DedupBy(jobs, JobKey), JobComplete);
    var r := CastJobs(f);
    forall x | x in r
      ensures exists i :: 0 <= i < |jobs| && IsFirst(jobs, i, JobKey) && JobComplete(jobs[i]) && x == CastJob(jobs[i])
    {
      var k :| 0 <= k < |r| && r[k] == x;
      FilteredIsFirst(jobs, JobKey, JobComplete, k);
    }
    forall i | 0 <= i < |jobs| && IsFirst(jobs, i, JobKey) && JobComplete(jobs[i]) ensures CastJob(jobs[i]) in r {
      FirstIsFiltered(jobs, JobKey, JobComplete, i);
      var k :| 0 <= k < |f| && f[k] == jobs[i];
      assert r[k] == CastJob(jobs[i]);
    }
  }

  /** In order and with multiplicity: the cleaned postings are the cast rows at
      the positions `FirstIndices` lists, one per position, in input order. */
  lemma CleanJobsInOrder(jobs: seq<Job>)
    ensures var idx := FirstIndices(jobs, JobKey, JobComplete, |jobs|);
      |CleanJobs(jobs)| == |idx|
      && forall k :: 0 <= k < |idx| ==> JobComplete(jobs[idx[k]]) && CleanJobs(jobs)[k] == CastJob(jobs[idx[k]])
  {
    FilterDedupInOrder(jobs, JobKey, JobComplete);
  }

  /** The same for the skills dictionary: only `skills` is trimmed. */
  lemma CleanSkillsSpec(skills: seq<Skill>)
    ensures forall x :: x in CleanSkills(skills) ==>
      (exists i :: 0 <= i < |skills| && IsFirst(skills, i, SkillKey) && SkillComplete(skills[i])
        && x.skillId == Some(TextId(IdText(skills[i].skillId.value)))
        && x.skills == Some(Strip(skills[i].skills.value))
        && x.skillType == skills[i].skillType)
    ensures forall i :: 0 <= i < |skills| && IsFirst(skills, i, SkillKey) && SkillComplete(skills[i]) ==> CastSkill(skills[i]) in CleanSkills(skills)
  {
    var f := Filter(DedupBy(skills, SkillKey), SkillComplete);
    var r := CastSkills(f);
    forall x | x in r
      ensures exists i :: 0 <= i < |skills| && IsFirst(skills, i, SkillKey) && SkillComplete(skills[i]) && x == CastSkill(skills[i])
    {
      var k :| 0 <= k < |r| && r[k] == x;
      FilteredIsFirst(skills, SkillKey, SkillComplete, k);
    }
    forall i | 0 <= i < |skills| && IsFirst(skills, i, SkillKey) && SkillComplete(skills[i]) ensures CastSkill(skills[i]) in r {
      FirstIsFiltered(skills, SkillKey, SkillComplete, i);
      var k :| 0 <= k < |f| && f[k] == skills[i];
      assert r[k] == CastSkill(skills[i]);
    }
  }

  /** In order and with multiplicity: the cleaned skills are the cast rows at
      the positions `FirstIndices` lists, one per position, in input order. */
  lemma CleanSkillsInOrder(skills: seq<Skill>)
    ensures var idx := FirstIndices(skills, SkillKey, SkillComplete, |skills|);
      |CleanSkills(skills)| == |idx|
      && forall k :: 0 <= k < |idx| ==> SkillComplete(skills[idx[k]]) && CleanSkills(skills)[k] == CastSkill(skills[idx[k]])
  {
    FilterDedupInOrder(skills, SkillKey, SkillComplete);
  }

  /** The links: first occurrences of each raw (job_id, skill_id) pair with
      both ids present, both cast to text. */
  lemma CleanLinksSpec(links: seq<Link>)
    ensures forall x :: x in CleanLinks(links) ==>
      (exists i :: 0 <= i < |links| && IsFirst(links, i, LinkKey) && LinkComplete(links[i])
        && x == Link(Some(TextId(IdText(links[i].jobId.value))), Some(TextId(IdText(links[i].skillId.value)))))
    ensures forall i :: 0 <= i < |links| && IsFirst(links, i, LinkKey) && LinkComplete(links[i]) ==> CastLink(links[i]) in CleanLinks(links)
  {
    var f := Filter(DedupBy(links, LinkKey), LinkComplete);
    var r := CastLinks(f);
    forall x | x in r
      ensures exists i :: 0 <= i < |links| && IsFirst(links, i, LinkKey) && LinkComplete(links[i]) && x == CastLink(links[i])
    {
      var k :| 0 <= k < |r| && r[k] == x;
      FilteredIsFirst(links, LinkKey, LinkComplete, k);
    }
    forall i | 0 <= i < |links| && IsFirst(links, i, LinkKey) && LinkComplete(links[i]) ensures CastLink(links[i]) in r {
      FirstIsFiltered(links, LinkKey, LinkComplete, i);
      var k :| 0 <= k < |f| && f[k] == links[i];
      assert r[k] == CastLink(links[i]);
    }
  }

  /** In order and with multiplicity: the cleaned links are the cast rows at
      the positions `FirstIndices` lists, one per position, in input order. */
  lemma CleanLinksInOrder(links: seq<Link>)
    ensures var idx := FirstIndices(links, LinkKey, LinkComplete, |links|);
      |CleanLinks(links)| == |idx|
      && forall k :: 0 <= k < |idx| ==> LinkComplete(links[idx[k]]) && CleanLinks(links)[k] == CastLink(links[idx[k]])
  {
    FilterDedupInOrder(links, LinkKey, LinkComplete);
  }

  /** Deduplication runs before the missing-value drop: when the first row with
      some id has no short title, no row with that id survives, even a later one
      that has a title. */
  lemma NullTitleFirstHidesId(jobs: seq<Job>, i: nat)
    requires i < |jobs| && IsFirst(jobs, i, JobKey) && jobs[i].jobTitleShort.None?
    ensures forall x :: x in Filter(DedupBy(jobs, JobKey), JobComplete) ==> x.jobId != jobs[i].jobId
  {
    var d := DedupBy(jobs, JobKey);
    DedupBySpec(jobs, JobKey);
    forall x | x in Filter(d, JobComplete) ensures x.jobId != jobs[i].jobId {
      assert x in d && JobComplete(x);
      var k :| 0 <= k < |jobs| && jobs[k] == x && IsFirst(jobs, k, JobKey);
      if k != i {
        assert JobKey(jobs[k]) != JobKey(jobs[i]);
      }
    }
  }

  /** The same situation on two rows: the titled duplicate is lost too. */
  lemma NullTitleFirstExample()
    ensures var a := Job(Some(IntId(1)), None, None, None, None, None, None);
      var b := Job(Some(IntId(1)), Some("Data Analyst"), Some("Data Analyst"), None, None, None, None);
      CleanJobs([a, b]) == []
  {
    var a := Job(Some(IntId(1)), None, None, None, None, None, None);
    var b := Job(Some(IntId(1)), Some("Data Analyst"), Some("Data Analyst"), None, None, None, None);
    assert [a, b][..1] == [a];
    assert DedupBy([a], JobKey) == [a];
    assert DedupBy([a, b], JobKey) == [a];
  }

  /** The number 5 and the text "5" are different raw ids, so both rows survive
      the deduplication, and after the cast both carry the id "5". */
  lemma CastRepeatsIds()
    ensures var a := Job(Some(IntId(5)), None, Some("Data Analyst"), None, None, None, None);
      var b := Job(Some(TextId("5")), None, Some("Data Analyst"), None, None, None, None);
      var r := CleanJobs([a, b]);
      |r| == 2 && r[0].jobId == r[1].jobId == Some(TextId("5"))
  {
    var a := Job(Some(IntId(5)), None, Some("Data Analyst"), None, None, None, None);
    var b := Job(Some(TextId("5")), None, Some("Data Analyst"), None, None, None, None);
    DistinctKeysComplete(a, b);
    FiveAsText();
    var r := CastJobs([a, b]);
    assert CleanJobs([a, b]) == r;
    assert r[0] == CastJob(a) && r[1] == CastJob(b);
  }

  lemma DistinctKeysComplete(a: Job, b: Job)
    requires JobKey(a) != JobKey(b) && JobComplete(a) && JobComplete(b)
    ensures Filter(DedupBy([a, b], JobKey), JobComplete) == [a, b]
  {
    DedupTwo(a, b, JobKey);
    FilterAll([a, b], JobComplete);
  }

  /** Two rows with different keys are both kept. */
  lemma DedupTwo<T, K>(a: T, b: T, key: T -> K)
    requires key(a) != key(b)
    ensures DedupBy([a, b], key) == [a, b]
  {
    assert [a, b][..1] == [a];
    assert DedupBy([a], key) == [a] by {
      assert [a][..0] == [];
    }
    assert Map([a], key) == [key(a)];
  }

  lemma FiveAsText()
    ensures IdText(IntId(5)) == "5"
  {
    assert DigitChar(5) == '5';
  }

}
