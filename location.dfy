/** `job_country_summary` as the location builder writes it: the number of
    postings per country, leaving out the values that are not countries, and
    its reader `load_job_country_summary`. */
module Location {
  import opened Common
  import opened Seqs
  import opened Grouping
  import opened Schema
  import opened TableStore

  /** The `invalid_countries` tuple: five region names, the empty text and NULL. */
  const INVALID_COUNTRIES: seq<Option<string>> :=
    [Some("Remote"), Some("Worldwide"), Some("Europe"), Some("Asia"), Some("Africa"), Some(""), None]

  /** The statement's `?` placeholders; the empty text is written as a literal after them. */
  const PLACEHOLDERS: nat := 5

  /** The values bound as written: the tuple without its last element, six values. */
  function BoundAsWritten(): seq<Option<string>> {
    INVALID_COUNTRIES[..|INVALID_COUNTRIES| - 1]
  }

  /** The values the five placeholders evidently stand for. */
  function BoundIntended(): seq<Option<string>> {
    INVALID_COUNTRIES[..PLACEHOLDERS]
  }

  /** `job_country NOT IN (?, ..., '') AND job_country IS NOT NULL` under SQL's
      three-valued logic: a NULL in the list makes `NOT IN` NULL for every
      country it does not equal, so such a list keeps nothing. */
  predicate Kept(c: Option<string>, bound: seq<Option<string>>) {
    c.Some? && c.value != "" && forall i :: 0 <= i < |bound| ==> bound[i].Some? && bound[i].value != c.value
  }

  /** The `job_country` column. */
  function JobCountries(jobs: seq<Job>): seq<Option<string>> {
    Map(jobs, (j: Job) => j.country)
  }

  /** The country of every posting the WHERE clause keeps, in posting order. */
  function KeptCountries(jobs: seq<Job>, bound: seq<Option<string>>): seq<string> {
    if |jobs| == 0 then []
    else
      var c := jobs[|jobs| - 1].country;
      KeptCountries(jobs[..|jobs| - 1], bound) + (if Kept(c, bound) then [c.value] else [])
  }

  /** `SELECT job_country AS country, COUNT(*) AS job_count ... GROUP BY job_country`. */
  function CountryCounts(jobs: seq<Job>, bound: seq<Option<string>>): seq<Grouped<string>> {
    GroupCount(KeptCountries(jobs, bound))
  }

  /** The builder with the values it binds: drop the table, then compile the
      statement (which needs `job_postings_fact`), then bind, which fails unless
      there is one value per placeholder. No other table is touched, and a
      failure leaves no `job_country_summary` behind. */
  function LocationBuildWith(t: Tables, bound: seq<Option<string>>): (s: Step)
    ensures s.tables - {JOB_COUNTRY_SUMMARY} == t - {JOB_COUNTRY_SUMMARY}
    ensures s.outcome.Pass? <==> JobsOf(t).Ok? && |bound| == PLACEHOLDERS
    ensures s.outcome.Pass? ==> JOB_COUNTRY_SUMMARY in s.tables
    ensures s.outcome.Fail? ==> JOB_COUNTRY_SUMMARY !in s.tables
    ensures JobsOf(t).Err? ==> s.outcome == Fail(JobsOf(t).error)
    ensures JobsOf(t).Ok? && |bound| != PLACEHOLDERS ==> s.outcome == Fail(BindingCount(PLACEHOLDERS, |bound|))
  {
    var dropped := t - {JOB_COUNTRY_SUMMARY};
    assert JobsOf(dropped) == JobsOf(t);
    assert dropped - {JOB_COUNTRY_SUMMARY} == dropped;
    match JobsOf(dropped)
    case Err(e) => Step(dropped, Fail(e))
    case Ok(jobs) =>
      if |bound| != PLACEHOLDERS then Step(dropped, Fail(BindingCount(PLACEHOLDERS, |bound|)))
      else Step(dropped[JOB_COUNTRY_SUMMARY := CountryTable(CountryCounts(jobs, bound))], Pass)
  }

  function LocationBuildAsWritten(t: Tables): Step {
    LocationBuildWith(t, BoundAsWritten())
  }

  function LocationBuild(t: Tables): Step {
    LocationBuildWith(t, BoundIntended())
  }

  method CreateJobCountrySummaryWith(db: Store, bound: seq<Option<string>>) returns (o: Outcome<DbError>)
    modifies db
    ensures Step(db.tables, o) == LocationBuildWith(old(db.tables), bound)
  {
    db.DropIfExists(JOB_COUNTRY_SUMMARY);
    var jobs := JobsOf(db.tables);
    if jobs.Err? {
      return Fail(jobs.error);
    }
    if |bound| != PLACEHOLDERS {
      return Fail(BindingCount(PLACEHOLDERS, |bound|));
    }
    o := db.CreateAs(JOB_COUNTRY_SUMMARY, CountryTable(CountryCounts(jobs.value, bound)));
  }

  /** `create_job_country_summary` as written. */
  method CreateJobCountrySummaryAsWritten(db: Store) returns (o: Outcome<DbError>)
    modifies db
    ensures Step(db.tables, o) == LocationBuildAsWritten(old(db.tables))
  {
    o := CreateJobCountrySummaryWith(db, BoundAsWritten());
  }

  /** `create_job_country_summary` binding the five values its placeholders stand for. */
  method CreateJobCountrySummary(db: Store) returns (o: Outcome<DbError>)
    modifies db
    ensures Step(db.tables, o) == LocationBuild(old(db.tables))
  {
    o := CreateJobCountrySummaryWith(db, BoundIntended());
  }

  /** As written the builder always raises, and since the drop has already taken
      effect it never leaves a `job_country_summary` behind; with the postings
      table present the error is the binding count, six values for five placeholders. */
  lemma AsWrittenNeverCreates(t: Tables)
    ensures LocationBuildAsWritten(t).outcome.Fail?
    ensures JOB_COUNTRY_SUMMARY !in LocationBuildAsWritten(t).tables
    ensures LocationBuildAsWritten(t).tables == t - {JOB_COUNTRY_SUMMARY}
    ensures JobsOf(t).Ok? ==> LocationBuildAsWritten(t).outcome == Fail(BindingCount(5, 6))
  {
    assert |BoundAsWritten()| == 6;
    assert JobsOf(t - {JOB_COUNTRY_SUMMARY}) == JobsOf(t);
  }

  /** With the five intended values, a country is kept exactly when it is not
      NULL and is none of the values of `invalid_countries`, compared exactly. */
  lemma KeptIntended(c: Option<string>)
    ensures Kept(c, BoundIntended()) <==> c.Some? && c !in INVALID_COUNTRIES
  {
    var b := BoundIntended();
    assert b == [Some("Remote"), Some("Worldwide"), Some("Europe"), Some("Asia"), Some("Africa")];
    if c.Some? && c !in INVALID_COUNTRIES {
      forall i | 0 <= i < |b| ensures b[i].Some? && b[i].value != c.value {
        assert b[i] == INVALID_COUNTRIES[i];
      }
    }
    if Kept(c, b) {
      assert c != INVALID_COUNTRIES[5] && c != INVALID_COUNTRIES[6];
      forall i | 0 <= i < 5 ensures c != INVALID_COUNTRIES[i] {
        assert b[i] == INVALID_COUNTRIES[i];
      }
    }
  }

  /** How often a text occurs among the kept countries: as often as it occurs in
      `job_country` when the filter keeps it, otherwise never. */
  lemma {:induction false} KeptCountriesCount(jobs: seq<Job>, bound: seq<Option<string>>, c: string)
    ensures Count(c, KeptCountries(jobs, bound)) == if Kept(Some(c), bound) then Count(Some(c), JobCountries(jobs)) else 0
  {
    if |jobs| > 0 {
      var init := jobs[..|jobs| - 1];
      var x := jobs[|jobs| - 1].country;
      KeptCountriesCount(init, bound, c);
      var tail := if Kept(x, bound) then [x.value] else [];
      CountAppend(c, KeptCountries(init, bound), tail);
      var cs := JobCountries(jobs);
      assert cs[..|cs| - 1] == JobCountries(init);
      assert cs[|cs| - 1] == x;
    }
  }

  /** One kept country per posting whose country passes the filter. */
  lemma {:induction false} KeptCountriesSize(jobs: seq<Job>, bound: seq<Option<string>>)
    ensures |KeptCountries(jobs, bound)| == |Filter(jobs, (j: Job) => Kept(j.country, bound))|
  {
    if |jobs| > 0 {
      KeptCountriesSize(jobs[..|jobs| - 1], bound);
    }
  }

  lemma CountCountries(jobs: seq<Job>, c: Option<string>)
    ensures Count(c, JobCountries(jobs)) > 0 <==> exists i :: 0 <= i < |jobs| && jobs[i].country == c
  {
    var cs := JobCountries(jobs);
    if c in cs {
      var i :| 0 <= i < |cs| && cs[i] == c;
      assert jobs[i].country == c;
    }
  }

  /** The table the builder writes: one row per valid country that some posting
      has, none for an excluded value, each holding the number of postings (not
      of distinct ids) with that country; the counts add up to the postings kept. */
  lemma CountryCountsSpec(jobs: seq<Job>)
    ensures var r := CountryCounts(jobs, BoundIntended());
      && NoDups(Keys(r))
      && (forall i :: 0 <= i < |r| ==> Some(r[i].key) !in INVALID_COUNTRIES)
      && (forall i :: 0 <= i < |r| ==> r[i].count == Count(Some(r[i].key), JobCountries(jobs)))
      && (forall c :: c in Keys(r) <==>
            Some(c) !in INVALID_COUNTRIES && exists i :: 0 <= i < |jobs| && jobs[i].country == Some(c))
      && Total(r) == |Filter(jobs, (j: Job) => Kept(j.country, BoundIntended()))|
  {
    var b := BoundIntended();
    var ks := KeptCountries(jobs, b);
    var r := GroupCount(ks);
    forall i | 0 <= i < |r|
      ensures Some(r[i].key) !in INVALID_COUNTRIES
      ensures r[i].count == Count(Some(r[i].key), JobCountries(jobs))
    {
      KeptCountriesCount(jobs, b, r[i].key);
      KeptIntended(Some(r[i].key));
    }
    forall c | true
      ensures c in Keys(r) <==> Some(c) !in INVALID_COUNTRIES && exists i :: 0 <= i < |jobs| && jobs[i].country == Some(c)
    {
      KeptCountriesCount(jobs, b, c);
      KeptIntended(Some(c));
      CountCountries(jobs, Some(c));
      if c in Keys(r) {
        var i :| 0 <= i < |Keys(r)| && Keys(r)[i] == c;
        assert r[i].key in ks;
      }
      if c in ks {
        var i :| 0 <= i < |ks| && ks[i] == c;
        assert c in Keys(r);
      }
    }
    GroupCountTotal(ks);
    KeptCountriesSize(jobs, b);
  }

  /** Rebuilding is idempotent and never depends on the previous contents of the table. */
  lemma LocationBuildIdempotent(t: Tables)
    ensures LocationBuild(LocationBuild(t).tables) == LocationBuild(t)
    ensures LocationBuild(t) == LocationBuild(t - {JOB_COUNTRY_SUMMARY})
  {
    var dropped := t - {JOB_COUNTRY_SUMMARY};
    assert LocationBuild(t).tables - {JOB_COUNTRY_SUMMARY} == dropped;
    assert dropped - {JOB_COUNTRY_SUMMARY} == dropped;
  }

  /** `load_job_country_summary`: the stored table as it is. */
  function LoadJobCountrySummary(t: Tables): (r: Result<Table, DbError>)
    ensures r.Ok? <==> JOB_COUNTRY_SUMMARY in t
    ensures r.Ok? ==> r.value == t[JOB_COUNTRY_SUMMARY]
    ensures r.Err? ==> r.error == NoSuchTable(JOB_COUNTRY_SUMMARY)
  {
    LoadTable(t, JOB_COUNTRY_SUMMARY)
  }

  /** After a build over the postings table the reader gets the filtered counts. */
  lemma LoadAfterLocationBuild(t: Tables)
    requires JobsOf(t).Ok?
    ensures LocationBuild(t).outcome == Pass
    ensures LoadJobCountrySummary(LocationBuild(t).tables)
      == Ok(CountryTable(CountryCounts(JobsOf(t).value, BoundIntended())))
  {
    assert JobsOf(t - {JOB_COUNTRY_SUMMARY}) == JobsOf(t);
    assert |BoundIntended()| == 5;
  }
}
