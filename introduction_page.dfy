/** `introduction_render`: the headline figures, the top-roles bar chart, the
    skill-type pie chart and the country bar chart of the landing page, each
    computed from the summary table it loads. */
module IntroductionPage {
  import opened Common
  import opened Seqs
  import opened Grouping
  import opened Numbers
  import opened Schema
  import opened TableStore
  import opened Views
  import Introduction
  import Location
  import App

  // ---------------------------------------------------------------------
  // Headline figures

  /** `summary_stats["total_jobs"].iloc[0]` and `summary_stats["avg_salary"].iloc[0]`:
      the first row of `job_summary_stats`; an empty table has no position 0. */
  function Headline(t: Tables): (r: Result<Stats, PageError>)
    ensures r.Ok? <==>
      (JOB_SUMMARY_STATS in t && t[JOB_SUMMARY_STATS].StatsTable? && |t[JOB_SUMMARY_STATS].statsRows| > 0)
    ensures r.Ok? ==> r.value == t[JOB_SUMMARY_STATS].statsRows[0]
    ensures (JOB_SUMMARY_STATS in t && t[JOB_SUMMARY_STATS].StatsTable? && |t[JOB_SUMMARY_STATS].statsRows| == 0)
      ==> r == Err(IndexError)
  {
    match ReadFrame(t, JOB_SUMMARY_STATS)
    case Err(e) => Err(e)
    case Ok(StatsTable(rows)) => if |rows| == 0 then Err(IndexError) else Ok(rows[0])
    case Ok(_) => Err(KeyError("total_jobs"))
  }

  /** Over the tables the introduction builder wrote, the headline exists; its
      "Total Jobs" is the number of postings with a salary and its average is
      missing exactly when no posting has one. */
  lemma HeadlineAfterBuild(t: Tables)
    requires RawOf(t).Ok?
    ensures var jobs := RawOf(t).value.jobs; var r := Headline(Introduction.IntroBuild(t).tables);
      r.Ok?
      && r.value.totalJobs == |Filter(jobs, (j: Job) => j.salary.Some?)|
      && (r.value.avgSalary.None? <==> forall j :: j in jobs ==> j.salary.None?)
  {
    Introduction.LoadAfterIntroBuild(t);
    Introduction.SummaryStatsSpec(RawOf(t).value.jobs);
  }

  // ---------------------------------------------------------------------
  // Top roles bar chart

  /** `gradient_colors`, light blue to royal blue. */
  const GRADIENT: seq<string> := [
    "rgba(173, 216, 230, 0.9)",
    "rgba(135, 206, 250, 0.9)",
    "rgba(100, 149, 237, 0.9)",
    "rgba(70, 130, 180, 0.9)",
    "rgba(65, 105, 225, 0.9)"]

  /** One `go.Bar` trace: the role, its count and its colour. */
  datatype Bar = Bar(role: Option<string>, count: nat, colour: string)

  predicate IsRoleBars(rows: seq<Grouped<Option<string>>>, bars: seq<Bar>) {
    |bars| == |rows| && |rows| <= |GRADIENT|
    && forall i :: 0 <= i < |bars| ==> bars[i] == Bar(rows[i].key, rows[i].count, GRADIENT[i])
  }

  /** The loop over `top_jobs_df.iterrows()`: row `i` becomes a bar coloured with
      the `i`-th gradient colour, and a sixth row raises `IndexError`. */
  method AddRoleTraces(rows: seq<Grouped<Option<string>>>) returns (r: Result<seq<Bar>, PageError>)
    ensures r.Ok? <==> |rows| <= |GRADIENT|
    ensures r.Ok? ==> IsRoleBars(rows, r.value)
    ensures r.Err? ==> r.error == IndexError
  {
    var bars: seq<Bar> := [];
    var i := 0;
    while i < |rows|
      invariant 0 <= i <= |rows| && i <= |GRADIENT|
      invariant |bars| == i
      invariant forall k :: 0 <= k < i ==> bars[k] == Bar(rows[k].key, rows[k].count, GRADIENT[k])
    {
      if i >= |GRADIENT| {
        return Err(IndexError);
      }
      bars := bars + [Bar(rows[i].key, rows[i].count, GRADIENT[i])];
      i := i + 1;
    }
    return Ok(bars);
  }

  /** The colours are five different ones. */
  lemma GradientDistinct()
    ensures NoDups(GRADIENT)
  {
    var g := GRADIENT;
    assert g[0][5] == '1' && g[1][5] == '1' && g[2][5] == '1' && g[3][5] == '7' && g[4][5] == '6';
    assert g[0][6] == '7' && g[1][6] == '3' && g[2][6] == '0';
  }

  /** The role table the builder writes always fits the five colours: every
      role gets its own colour, and the bars run from the largest count down. */
  lemma RoleBarsOfBuilt(jobs: seq<Job>, bars: seq<Bar>)
    requires IsRoleBars(Introduction.TopTitles(jobs), bars)
    ensures NoDups(Map(bars, (b: Bar) => b.colour))
    ensures forall i, j :: 0 <= i < j < |bars| ==> bars[i].count >= bars[j].count
  {
    var rows := Introduction.TopTitles(jobs);
    Introduction.TopTitlesSpec(jobs);
    GradientDistinct();
    forall i, j | 0 <= i < j < |bars| ensures bars[i].count >= bars[j].count {
      assert CountOf(rows[i]) >= CountOf(rows[j]);
    }
  }

  lemma TopTitlesFit(jobs: seq<Job>)
    ensures |Introduction.TopTitles(jobs)| <= |GRADIENT|
  {
    Introduction.TopTitlesSpec(jobs);
  }

  // ---------------------------------------------------------------------
  // Skill type pie chart

  /** The nine display names of `format_label`. */
  const TYPE_LABELS: map<string, string> := map[
    "databases" := "Databases", "analyst_tools" := "Tools", "programming" := "Languages",
    "webframeworks" := "Frameworks", "cloud" := "Cloud", "os" := "OS",
    "sync" := "Sync", "async" := "Async", "other" := "Other"]

  /** `format_label`: the display name of a known skill type; any other text as it is. */
  function FormatLabel(option: string): string {
    if option in TYPE_LABELS then TYPE_LABELS[option] else option
  }

  /** Two skill types share a label only when one of them is a known type and
      the other is spelled as that type's display name. */
  lemma FormatLabelCollisions(a: string, b: string)
    requires a != b && FormatLabel(a) == FormatLabel(b)
    ensures (a in TYPE_LABELS && b == TYPE_LABELS[a]) || (b in TYPE_LABELS && a == TYPE_LABELS[b])
  {
  }

  /** `groupby("skill_type")["job_title_count"].sum().sort_values(ascending=False)`. */
  function TypeDistribution(rows: seq<Grouped<string>>): seq<Grouped<string>> {
    SortDesc(GroupSum(rows), CountOf)
  }

  /** One row per skill type of the table, each holding the sum of that type's
      counts, largest first; the grand total is unchanged. */
  lemma TypeDistributionSpec(rows: seq<Grouped<string>>)
    ensures var d := TypeDistribution(rows);
      NoDups(Keys(d))
      && SortedDesc(d, CountOf)
      && (forall k :: k in Keys(d) <==> k in Keys(rows))
      && (forall i :: 0 <= i < |d| ==> d[i].count == SumFor(d[i].key, rows))
      && Total(d) == Total(rows)
  {
    var s := GroupSum(rows);
    var d := TypeDistribution(rows);
    KeysPermutation(s, d);
    GroupSumKeys(rows);
    forall i | 0 <= i < |d| ensures d[i].count == SumFor(d[i].key, rows) {
      assert d[i] in multiset(s);
      var j :| 0 <= j < |s| && s[j] == d[i];
    }
    GroupSumTotal(rows);
    TotalPermutation(s, d);
  }

  lemma GroupSumKeys<K>(rows: seq<Grouped<K>>)
    ensures forall k :: k in Keys(GroupSum(rows)) <==> k in Keys(rows)
  {
    var s := GroupSum(rows);
    forall k ensures k in Keys(s) ==> k in Keys(rows) {
      if k in Keys(s) {
        var i :| 0 <= i < |s| && Keys(s)[i] == k;
      }
    }
    forall k ensures k in Keys(rows) ==> k in Keys(s) {
      if k in Keys(rows) {
        var i :| 0 <= i < |rows| && Keys(rows)[i] == k;
      }
    }
  }

  /** `type_distribution / type_distribution.sum() * 100` before rounding. */
  function Shares(d: seq<Grouped<string>>, total: nat): (r: seq<real>)
    requires total > 0
    ensures |r| == |d|
    ensures forall i :: 0 <= i < |d| ==> r[i] == Percent(d[i].count as real, total as real)
  {
    if |d| == 0 then []
    else Shares(d[..|d| - 1], total) + [Percent(d[|d| - 1].count as real, total as real)]
  }

  /** `.round(2)` element by element. */
  function RoundAll(xs: seq<real>): (r: seq<real>)
    ensures |r| == |xs|
    ensures forall i :: 0 <= i < |xs| ==> r[i] == Round2(xs[i])
  {
    if |xs| == 0 then [] else RoundAll(xs[..|xs| - 1]) + [Round2(xs[|xs| - 1])]
  }

  /** What the pie chart shows: a label and a rounded percent per skill type,
      or, when every count is zero, the NaN percents of a division by zero. */
  datatype Pie = Pie(labels: seq<string>, percents: seq<real>) | NaNPie(labels: seq<string>)

  function PieOf(rows: seq<Grouped<string>>): Pie {
    var d := TypeDistribution(rows);
    var labels := Map(Keys(d), FormatLabel);
    if Total(d) == 0 then NaNPie(labels) else Pie(labels, RoundAll(Shares(d, Total(d))))
  }

  /** The exact shares add up to the share of the whole. */
  lemma {:induction false} SharesSum(d: seq<Grouped<string>>, total: nat)
    requires total > 0
    ensures SumReal(Shares(d, total)) == Percent(Total(d) as real, total as real)
  {
    if |d| > 0 {
      var init := d[..|d| - 1];
      SharesSum(init, total);
      assert Shares(d, total)[..|d| - 1] == Shares(init, total);
      PercentAdd(Total(init) as real, d[|d| - 1].count as real, total as real);
    }
  }

  /** Rounding each of `n` values moves their sum by at most `n` half-hundredths. */
  lemma {:induction false} RoundAllSum(xs: seq<real>)
    ensures SumReal(xs) - 0.005 * |xs| as real <= SumReal(RoundAll(xs)) <= SumReal(xs) + 0.005 * |xs| as real
  {
    if |xs| > 0 {
      var init := xs[..|xs| - 1];
      RoundAllSum(init);
      Round2Close(xs[|xs| - 1]);
      assert RoundAll(xs)[..|xs| - 1] == RoundAll(init);
    }
  }

  /** The pie: one slice per skill type, labelled with its display name, largest
      first; each rounded percent lies in [0, 100], and the percents add up to
      one hundred up to the rounding of each slice. With all counts zero the
      values are NaN. */
  lemma PieSpec(rows: seq<Grouped<string>>)
    ensures var p := PieOf(rows); var d := TypeDistribution(rows);
      |p.labels| == |d|
      && (forall i :: 0 <= i < |d| ==> p.labels[i] == FormatLabel(d[i].key))
      && (p.NaNPie? <==> Total(rows) == 0)
      && (p.Pie? ==>
        |p.percents| == |d|
        && (forall i :: 0 <= i < |d| ==> 0.0 <= p.percents[i] <= 100.0)
        && (forall i, j :: 0 <= i < j < |d| ==> p.percents[i] >= p.percents[j])
        && 100.0 - 0.005 * |d| as real <= SumReal(p.percents) <= 100.0 + 0.005 * |d| as real)
  {
    var d := TypeDistribution(rows);
    DistributionOrder(rows);
    if Total(d) > 0 {
      PiePercents(d);
    }
  }

  lemma DistributionOrder(rows: seq<Grouped<string>>)
    ensures Total(TypeDistribution(rows)) == Total(rows)
    ensures SortedDesc(TypeDistribution(rows), CountOf)
  {
    TypeDistributionSpec(rows);
  }

  lemma PiePercents(d: seq<Grouped<string>>)
    requires Total(d) > 0 && SortedDesc(d, CountOf)
    ensures var ps := RoundAll(Shares(d, Total(d)));
      |ps| == |d|
      && (forall i :: 0 <= i < |d| ==> 0.0 <= ps[i] <= 100.0)
      && (forall i, j :: 0 <= i < j < |d| ==> ps[i] >= ps[j])
      && 100.0 - 0.005 * |d| as real <= SumReal(ps) <= 100.0 + 0.005 * |d| as real
  {
    var xs := Shares(d, Total(d));
    SharesBounds(d);
    SharesOrder(d);
    SharesSum(d, Total(d));
    PercentWhole(Total(d) as real);
    RoundAllSum(xs);
  }

  lemma SharesBounds(d: seq<Grouped<string>>)
    requires Total(d) > 0
    ensures forall i :: 0 <= i < |d| ==> 0.0 <= RoundAll(Shares(d, Total(d)))[i] <= 100.0
  {
    var xs := Shares(d, Total(d));
    forall i | 0 <= i < |d| ensures 0.0 <= RoundAll(xs)[i] <= 100.0 {
      TotalBound(d, i);
      PercentBounds(d[i].count as real, Total(d) as real);
      Round2Bounds(xs[i]);
    }
  }

  lemma SharesOrder(d: seq<Grouped<string>>)
    requires Total(d) > 0 && SortedDesc(d, CountOf)
    ensures forall i, j :: 0 <= i < j < |d| ==> RoundAll(Shares(d, Total(d)))[i] >= RoundAll(Shares(d, Total(d)))[j]
  {
    var xs := Shares(d, Total(d));
    forall i, j | 0 <= i < j < |d| ensures RoundAll(xs)[i] >= RoundAll(xs)[j] {
      assert CountOf(d[i]) >= CountOf(d[j]);
      PercentMono(d[j].count as real, d[i].count as real, Total(d) as real);
      Round2Mono(xs[j], xs[i]);
    }
  }

  lemma {:induction false} TotalBound<K>(d: seq<Grouped<K>>, i: nat)
    requires i < |d|
    ensures d[i].count <= Total(d)
  {
    if i < |d| - 1 {
      TotalBound(d[..|d| - 1], i);
    }
  }

  /** The pie as the page draws it from `skill_type_distribution_summary`. */
  function SkillPie(t: Tables): (r: Result<Pie, PageError>)
    ensures r.Ok? <==> SKILL_TYPE_DISTRIBUTION in t && t[SKILL_TYPE_DISTRIBUTION].SkillTypeTable?
    ensures r.Ok? ==> r.value == PieOf(t[SKILL_TYPE_DISTRIBUTION].skillTypeRows)
  {
    match ReadFrame(t, SKILL_TYPE_DISTRIBUTION)
    case Err(e) => Err(e)
    case Ok(SkillTypeTable(rows)) => Ok(PieOf(rows))
    case Ok(_) => Err(KeyError("skill_type"))
  }

  // ---------------------------------------------------------------------
  // Country bar chart

  /** `n_locations` and the ten bars of the country chart. */
  datatype CountryView = CountryView(locations: nat, top: seq<Grouped<string>>)

  /** `country_df['country'].nunique()` and
      `set_index('country')['job_count'].sort_values(ascending=False).head(10)`. */
  function CountrySummary(rows: seq<Grouped<string>>): CountryView {
    CountryView(|Distinct(Keys(rows))|, Take(SortDesc(rows, CountOf), 10))
  }

  /** Ten bars (fewer when there are fewer countries), the largest counts in
      descending order, each a row of the table; with one row per country,
      "locations" is the number of rows. */
  lemma CountrySummarySpec(rows: seq<Grouped<string>>)
    ensures var v := CountrySummary(rows);
      |v.top| == (if |rows| < 10 then |rows| else 10)
      && SortedDesc(v.top, CountOf)
      && (forall g :: g in v.top ==> g in rows)
      && (forall g, h :: g in rows && g !in v.top && h in v.top ==> h.count >= g.count)
      && (NoDups(Keys(rows)) ==> v.locations == |rows|)
  {
    var sorted := SortDesc(rows, CountOf);
    var top := Take(sorted, 10);
    TopNDominates(rows, CountOf, 10);
    TopTen(rows, sorted);
    forall g, h | g in rows && g !in top && h in top ensures h.count >= g.count {
      assert CountOf(h) >= CountOf(g);
    }
    LocationsOfDistinct(rows);
  }

  lemma LocationsOfDistinct(rows: seq<Grouped<string>>)
    ensures NoDups(Keys(rows)) ==> |Distinct(Keys(rows))| == |rows|
  {
    if NoDups(Keys(rows)) {
      DistinctOfNoDups(Keys(rows));
    }
  }

  lemma TopTen(rows: seq<Grouped<string>>, sorted: seq<Grouped<string>>)
    requires multiset(sorted) == multiset(rows) && SortedDesc(sorted, CountOf)
    ensures forall g :: g in Take(sorted, 10) ==> g in rows
    ensures SortedDesc(Take(sorted, 10), CountOf)
  {
    var top := Take(sorted, 10);
    forall g | g in top ensures g in rows {
      assert g in multiset(sorted);
    }
    forall i, j | 0 <= i < j < |top| ensures CountOf(top[i]) >= CountOf(top[j]) {
      assert top[i] == sorted[i] && top[j] == sorted[j];
    }
  }

  /** The chart over `job_country_summary`: it needs the `country` column of the
      country builder's schema; the introduction builder's schema calls it
      `job_country`, and reading that raises `KeyError`. */
  function CountryChart(t: Tables): (r: Result<CountryView, PageError>)
    ensures r.Ok? <==> JOB_COUNTRY_SUMMARY in t && t[JOB_COUNTRY_SUMMARY].CountryTable?
    ensures r.Ok? ==> r.value == CountrySummary(t[JOB_COUNTRY_SUMMARY].countryRows)
    ensures JOB_COUNTRY_SUMMARY in t && t[JOB_COUNTRY_SUMMARY].IntroCountryTable? ==> r == Err(KeyError("country"))
  {
    match ReadFrame(t, JOB_COUNTRY_SUMMARY)
    case Err(e) => Err(e)
    case Ok(CountryTable(rows)) => Ok(CountrySummary(rows))
    case Ok(_) => Err(KeyError("country"))
  }

  /** Had the introduction builder been the last to write `job_country_summary`,
      the country chart could never be drawn. */
  lemma CountryChartAfterIntroBuild(t: Tables)
    requires RawOf(t).Ok?
    ensures CountryChart(Introduction.IntroBuild(t).tables) == Err(KeyError("country"))
  {
    Introduction.LoadAfterIntroBuild(t);
  }

  /** After a rebuild the country chart exists: "locations" is the number of
      valid countries among the postings and the bars are the ten largest of
      the filtered counts. */
  lemma CountryChartAfterEnsure(file: App.DbFile, t: Tables, f: App.Frames, required: set<string>)
    requires !App.HasTables(file, t, required)
    ensures var counts := Location.CountryCounts(f.jobs, Location.BoundIntended());
      var r := CountryChart(App.EnsureOf(file, t, f, required).tables);
      r.Ok? && r.value.locations == |counts|
      && (forall c :: c in Keys(counts) <==>
            Some(c) !in Location.INVALID_COUNTRIES && exists i :: 0 <= i < |f.jobs| && f.jobs[i].country == Some(c))
      && forall g :: g in r.value.top ==> g in counts
  {
    var counts := Location.CountryCounts(f.jobs, Location.BoundIntended());
    App.EnsureFromScratch(file, t, f, required);
    assert App.EnsureOf(file, t, f, required).tables[JOB_COUNTRY_SUMMARY] == CountryTable(counts);
    Location.CountryCountsSpec(f.jobs);
    CountrySummarySpec(counts);
  }

  /** After a rebuild every part of the page can be drawn: the headline is the
      row of `job_summary_stats`, and the role bars, the pie and the country
      bars come from the tables just computed from the downloaded frames. */
  lemma IntroPageAfterEnsure(file: App.DbFile, t: Tables, f: App.Frames, required: set<string>)
    requires !App.HasTables(file, t, required)
    ensures var u := App.EnsureOf(file, t, f, required).tables;
      Headline(u) == Ok(Introduction.SummaryStats(f.jobs)[0])
      && ReadFrame(u, TOP_JOB_TITLE_SUMMARY) == Ok(TopTitleTable(Introduction.TopTitles(f.jobs)))
      && SkillPie(u) == Ok(PieOf(Introduction.SkillTypes(f.links, f.skills, f.jobs)))
      && CountryChart(u) == Ok(CountrySummary(Location.CountryCounts(f.jobs, Location.BoundIntended())))
  {
    TablesAfterEnsure(file, t, f, required);
    StatsOneRow(f.jobs);
    PageOfTables(App.EnsureOf(file, t, f, required).tables, Introduction.SummaryStats(f.jobs),
      Introduction.SkillTypes(f.links, f.skills, f.jobs), Location.CountryCounts(f.jobs, Location.BoundIntended()));
  }

  /** The page's parts over tables of the expected shapes. */
  lemma PageOfTables(u: Tables, stats: seq<Stats>, types: seq<Grouped<string>>, countries: seq<Grouped<string>>)
    requires |stats| > 0
    requires LoadTable(u, JOB_SUMMARY_STATS) == Ok(StatsTable(stats))
    requires LoadTable(u, SKILL_TYPE_DISTRIBUTION) == Ok(SkillTypeTable(types))
    requires LoadTable(u, JOB_COUNTRY_SUMMARY) == Ok(CountryTable(countries))
    ensures Headline(u) == Ok(stats[0])
    ensures SkillPie(u) == Ok(PieOf(types))
    ensures CountryChart(u) == Ok(CountrySummary(countries))
  {
  }

  /** After a rebuild the four tables the page reads hold what their builders computed. */
  lemma TablesAfterEnsure(file: App.DbFile, t: Tables, f: App.Frames, required: set<string>)
    requires !App.HasTables(file, t, required)
    ensures var u := App.EnsureOf(file, t, f, required).tables;
      LoadTable(u, TOP_JOB_TITLE_SUMMARY) == Ok(TopTitleTable(Introduction.TopTitles(f.jobs)))
      && LoadTable(u, SKILL_TYPE_DISTRIBUTION) == Ok(SkillTypeTable(Introduction.SkillTypes(f.links, f.skills, f.jobs)))
      && LoadTable(u, JOB_SUMMARY_STATS) == Ok(StatsTable(Introduction.SummaryStats(f.jobs)))
      && LoadTable(u, JOB_COUNTRY_SUMMARY) == Ok(CountryTable(Location.CountryCounts(f.jobs, Location.BoundIntended())))
  {
    var v := App.Stage4(App.SetupOf(t, f)).tables;
    EnsureThroughStage4(file, t, f, required);
    assert JobsOf(v) == Ok(f.jobs);
    IntroTablesAtStage4(t, f);
    AfterLocationBuild(v, TopTitleTable(Introduction.TopTitles(f.jobs)),
      SkillTypeTable(Introduction.SkillTypes(f.links, f.skills, f.jobs)), StatsTable(Introduction.SummaryStats(f.jobs)));
  }

  /** The country builder keeps the three introduction tables and writes its own. */
  lemma AfterLocationBuild(v: Tables, titles: Table, types: Table, stats: Table)
    requires JobsOf(v).Ok?
    requires LoadTable(v, TOP_JOB_TITLE_SUMMARY) == Ok(titles)
    requires LoadTable(v, SKILL_TYPE_DISTRIBUTION) == Ok(types)
    requires LoadTable(v, JOB_SUMMARY_STATS) == Ok(stats)
    ensures var u := Location.LocationBuild(v).tables;
      LoadTable(u, TOP_JOB_TITLE_SUMMARY) == Ok(titles)
      && LoadTable(u, SKILL_TYPE_DISTRIBUTION) == Ok(types)
      && LoadTable(u, JOB_SUMMARY_STATS) == Ok(stats)
      && LoadTable(u, JOB_COUNTRY_SUMMARY) == Ok(CountryTable(Location.CountryCounts(JobsOf(v).value, Location.BoundIntended())))
  {
    Introduction.IntroNamesDistinct();
    LocationKeepsOthers(v, TOP_JOB_TITLE_SUMMARY);
    LocationKeepsOthers(v, SKILL_TYPE_DISTRIBUTION);
    LocationKeepsOthers(v, JOB_SUMMARY_STATS);
    Location.LoadAfterLocationBuild(v);
  }

  lemma StatsOneRow(jobs: seq<Job>)
    ensures |Introduction.SummaryStats(jobs)| == 1
  {
    Introduction.SummaryStatsSpec(jobs);
  }

  /** A rebuild is the country builder run over the tables the first four builders left. */
  lemma EnsureThroughStage4(file: App.DbFile, t: Tables, f: App.Frames, required: set<string>)
    requires !App.HasTables(file, t, required)
    ensures var s4 := App.Stage4(App.SetupOf(t, f));
      s4.outcome == Pass && RawOf(s4.tables) == Ok(Raw(f.links, f.skills, f.jobs))
      && App.EnsureOf(file, t, f, required) == Location.LocationBuild(s4.tables)
  {
    var u0 := App.SetupOf(t, f);
    App.SetupRaw(t, f);
    App.Stage4Advances(u0, Raw(f.links, f.skills, f.jobs));
  }

  /** After the introduction builder the four tables hold what it computed. */
  lemma IntroTablesAtStage4(t: Tables, f: App.Frames)
    ensures var v := App.Stage4(App.SetupOf(t, f)).tables;
      LoadTable(v, TOP_JOB_TITLE_SUMMARY) == Ok(TopTitleTable(Introduction.TopTitles(f.jobs)))
      && LoadTable(v, SKILL_TYPE_DISTRIBUTION) == Ok(SkillTypeTable(Introduction.SkillTypes(f.links, f.skills, f.jobs)))
      && LoadTable(v, JOB_SUMMARY_STATS) == Ok(StatsTable(Introduction.SummaryStats(f.jobs)))
  {
    var raw := Raw(f.links, f.skills, f.jobs);
    var u0 := App.SetupOf(t, f);
    App.SetupRaw(t, f);
    App.Stage3Advances(u0, raw);
    Introduction.LoadAfterIntroBuild(App.Stage3(u0).tables);
  }

  /** The country builder leaves every other table as it was. */
  lemma LocationKeepsOthers(t: Tables, n: string)
    requires JobsOf(t).Ok? && n != JOB_COUNTRY_SUMMARY
    ensures (n in Location.LocationBuild(t).tables <==> n in t)
    ensures n in t ==> Location.LocationBuild(t).tables[n] == t[n]
  {
    Location.LoadAfterLocationBuild(t);
    assert JobsOf(t - {JOB_COUNTRY_SUMMARY}) == JobsOf(t);
  }
}
