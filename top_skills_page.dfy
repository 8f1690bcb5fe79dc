/** `top_skills_render`: the role and skill-type selectors, the bar chart of
    the top skills with its axis range and height, and the selectors and
    loader call of the demand section. */
module TopSkillsPage {
  import opened Common
  import opened Seqs
  import opened Grouping
  import opened Schema
  import opened TableStore
  import opened Views
  import TopSkills
  import DemandSkills
  import IntroductionPage

  // ---------------------------------------------------------------------
  // Selectors

  /** The options of the role select box; the demand section offers the same list. */
  const JOB_TITLES: seq<string> := [
    "Select All", "Business Analyst", "Cloud Engineer", "Data Analyst", "Data Engineer",
    "Data Scientist", "Machine Learning Engineer", "Senior Data Analyst",
    "Senior Data Engineer", "Senior Data Scientist", "Software Engineer"]

  /** The options of the skill-type radio. */
  const SKILL_TYPES: seq<string> := [
    "All", "programming", "databases", "webframeworks", "analyst_tools", "cloud", "os", "sync", "async", "other"]

  /** The options of the demand section's schedule select box. */
  const JOB_SCHEDULE_TYPES: seq<string> := [
    "Select All", "Full-time", "Internship", "Contractor", "Part-Time", "Temp work"]

  const SELECT_ALL := "Select All"
  const ALL := "All"

  /** `None if selected == sentinel else selected`. */
  function Chosen(selected: string, sentinel: string): (r: Option<string>)
    ensures r.None? <==> selected == sentinel
    ensures r.Some? ==> r.value == selected
  {
    if selected == sentinel then None else Some(selected)
  }

  lemma OptionsNotEmpty()
    ensures forall i :: 0 <= i < |JOB_TITLES| ==> JOB_TITLES[i] != ""
    ensures forall i :: 0 <= i < |SKILL_TYPES| ==> SKILL_TYPES[i] != ""
    ensures forall i :: 0 <= i < |JOB_SCHEDULE_TYPES| ==> JOB_SCHEDULE_TYPES[i] != ""
  {
    forall i | 0 <= i < |JOB_TITLES| ensures JOB_TITLES[i] != "" {
      assert |JOB_TITLES[i]| > 0;
    }
    forall i | 0 <= i < |SKILL_TYPES| ensures SKILL_TYPES[i] != "" {
      assert |SKILL_TYPES[i]| > 0;
    }
    forall i | 0 <= i < |JOB_SCHEDULE_TYPES| ensures JOB_SCHEDULE_TYPES[i] != "" {
      assert |JOB_SCHEDULE_TYPES[i]| > 0;
    }
  }

  /** The two selectors filter the summary as the page intends: "Select All"
      and "All" filter nothing, any other option keeps exactly the rows with
      that role and that skill type. */
  lemma SelectorsFilter(title: string, ty: string, g: Grouped<TitleSkillKey>)
    requires title in JOB_TITLES && ty in SKILL_TYPES
    ensures TopSkills.Where(TopSkills.Conditions(Chosen(title, SELECT_ALL), Chosen(ty, ALL)), g) <==>
      (title == SELECT_ALL || g.key.titleShort == Some(title)) && (ty == ALL || g.key.skillType == Some(ty))
  {
    OptionsNotEmpty();
    TopSkills.ConditionsMeaning(Chosen(title, SELECT_ALL), Chosen(ty, ALL), g);
  }

  /** The radio's `format_label`: seven display names; "sync" and "async" have none. */
  const RADIO_LABELS: map<string, string> := map[
    "databases" := "Databases", "analyst_tools" := "Tools", "programming" := "Languages",
    "webframeworks" := "Frameworks", "cloud" := "Cloud", "os" := "OS", "other" := "Other"]

  function FormatLabel(option: string): string {
    if option in RADIO_LABELS then RADIO_LABELS[option] else option
  }

  /** This page's labels agree with the introduction page's on every input
      except "sync" and "async", which the radio shows in lower case. */
  lemma LabelsAgree(option: string)
    ensures FormatLabel(option) == IntroductionPage.FormatLabel(option) <==> option != "sync" && option != "async"
  {
    if option == "sync" {
      assert IntroductionPage.FormatLabel(option)[0] == 'S';
    } else if option == "async" {
      assert IntroductionPage.FormatLabel(option)[0] == 'A';
    } else {
      assert option in RADIO_LABELS <==> option in IntroductionPage.TYPE_LABELS;
    }
  }

  /** What the radio shows for its ten options. */
  lemma RadioTexts()
    ensures Map(SKILL_TYPES, FormatLabel) ==
      ["All", "Languages", "Databases", "Frameworks", "Tools", "Cloud", "OS", "sync", "async", "Other"]
  {
    assert "All" !in RADIO_LABELS && "sync" !in RADIO_LABELS && "async" !in RADIO_LABELS;
  }

  // ---------------------------------------------------------------------
  // Top skills chart

  /** The info message, or the bars with the axis range and the height of the figure. */
  datatype SkillsView =
    | NoData
    | Bars(skills: seq<string>, percents: seq<real>, xaxisMax: real, height: nat)

  function PercentOf(p: TopSkills.SkillPercent): real {
    p.percent
  }

  function SkillOf(p: TopSkills.SkillPercent): string {
    p.skills
  }

  /** `filtered.empty`, else `min(percent.max() + 5, 100)` and `max(300, 37 * bar_count)`. */
  function ViewOf(rows: seq<TopSkills.SkillPercent>): SkillsView {
    if |rows| == 0 then NoData
    else
      var ps := Map(rows, PercentOf);
      var top := MaxReal(ps) + 5.0;
      Bars(Map(rows, SkillOf), ps, if top < 100.0 then top else 100.0,
        if 37 * |rows| < 300 then 300 else 37 * |rows|)
  }

  /** The info branch is taken exactly when no row came back. Otherwise there
      is one bar per row in row order, the axis ends at most at 100, the figure
      is at least 300 high and leaves 37 per bar, and when every percent is at
      most 100 no bar runs past the axis. */
  lemma ViewSpec(rows: seq<TopSkills.SkillPercent>)
    ensures var v := ViewOf(rows);
      (v.NoData? <==> |rows| == 0)
      && (v.Bars? ==>
        |v.skills| == |rows| && |v.percents| == |rows|
        && (forall i :: 0 <= i < |rows| ==> v.skills[i] == rows[i].skills && v.percents[i] == rows[i].percent)
        && v.xaxisMax <= 100.0
        && v.height >= 300 && v.height >= 37 * |rows|
        && ((forall p :: p in rows ==> p.percent <= 100.0) ==> forall i :: 0 <= i < |rows| ==> v.percents[i] <= v.xaxisMax))
  {
    if |rows| > 0 {
      var ps := Map(rows, PercentOf);
      forall i | 0 <= i < |rows| ensures ps[i] <= MaxReal(ps) {
        assert ps[i] in ps;
      }
    }
  }

  /** The chart for the selected options: `load_top_skills_summary(job_chosen, type_chosen)`
      with its default of twenty skills. */
  function TopSkillsChart(t: Tables, title: string, ty: string): (r: Result<SkillsView, PageError>)
    ensures r.Err? ==> r.error.DbFailure?
  {
    match TopSkills.LoadTopSkillsSummary(t, Chosen(title, SELECT_ALL), Chosen(ty, ALL), 20)
    case Err(e) => Err(DbFailure(e))
    case Ok(rows) => Ok(ViewOf(rows))
  }

  /** The chart is drawn, with at most twenty bars, smallest percent first, each
      at least 0.05 and none past an axis that ends at most at 100. */
  predicate ChartDrawn(r: Result<SkillsView, PageError>) {
      r.Ok?
      && (r.value.Bars? ==>
        |r.value.percents| <= 20
        && (forall i, j :: 0 <= i < j < |r.value.percents| ==> r.value.percents[i] <= r.value.percents[j])
        && forall i :: 0 <= i < |r.value.percents| ==> 0.05 <= r.value.percents[i] <= r.value.xaxisMax <= 100.0)
  }

  /** Over the table the builder made, the chart is drawn for every choice of
      options: at most twenty bars, smallest percent first, none past the axis. */
  lemma ChartAfterBuild(t: Tables, title: string, ty: string)
    requires TITLE_SKILL_COUNT !in t && RawOf(t).Ok?
    ensures ChartDrawn(TopSkillsChart(TopSkills.TopSkillsBuild(t).tables, title, ty))
  {
    TopSkills.LoadAfterBuild(t, Chosen(title, SELECT_ALL), Chosen(ty, ALL), 20);
    ChartOfLoaded(TopSkills.TopSkillsBuild(t).tables, title, ty);
  }

  /** The chart over any table whose reader keeps its promises. */
  lemma ChartOfLoaded(u: Tables, title: string, ty: string)
    requires var r := TopSkills.LoadTopSkillsSummary(u, Chosen(title, SELECT_ALL), Chosen(ty, ALL), 20);
      r.Ok? && SortedAsc(r.value, TopSkills.PercentOf) && |r.value| <= 20
      && forall p :: p in r.value ==> 0.05 <= p.percent <= 100.0
    ensures ChartDrawn(TopSkillsChart(u, title, ty))
  {
    ViewOfLoaded(TopSkills.LoadTopSkillsSummary(u, Chosen(title, SELECT_ALL), Chosen(ty, ALL), 20).value);
  }

  lemma ViewOfLoaded(rows: seq<TopSkills.SkillPercent>)
    requires SortedAsc(rows, TopSkills.PercentOf) && |rows| <= 20
    requires forall p :: p in rows ==> 0.05 <= p.percent <= 100.0
    ensures var v := ViewOf(rows);
      v.Bars? ==>
        |v.percents| <= 20
        && (forall i, j :: 0 <= i < j < |v.percents| ==> v.percents[i] <= v.percents[j])
        && forall i :: 0 <= i < |v.percents| ==> 0.05 <= v.percents[i] <= v.xaxisMax <= 100.0
  {
    ViewSpec(rows);
    forall i, j | 0 <= i < j < |rows| ensures rows[i].percent <= rows[j].percent {
      assert TopSkills.PercentOf(rows[i]) <= TopSkills.PercentOf(rows[j]);
    }
    forall i | 0 <= i < |rows| ensures 0.05 <= rows[i].percent {
      assert rows[i] in rows;
    }
  }

  // ---------------------------------------------------------------------
  // Demand section

  /** `load_demand_skills(job_chosen2, schedule_chosen2)`. */
  function DemandSection(t: Tables, title: string, schedule: string): Result<seq<DemandRow>, DbError> {
    DemandSkills.LoadDemandSkills(t, Chosen(title, SELECT_ALL), Chosen(schedule, SELECT_ALL))
  }

  /** Every schedule option other than "Select All" makes the loader fail, since
      the trend table has no `job_schedule_type` column. */
  lemma DemandScheduleFails(t: Tables, title: string, schedule: string)
    requires schedule in JOB_SCHEDULE_TYPES && schedule != SELECT_ALL && DEMAND_SKILL_TREND in t
    ensures DemandSection(t, title, schedule) == Err(NoSuchColumn("job_schedule_type"))
  {
    OptionsNotEmpty();
  }

  /** With "Select All" as schedule the section gets the trend rows of the
      chosen role in table order, or all of them for "Select All". */
  lemma DemandAllSchedules(t: Tables, title: string, x: DemandRow)
    requires title in JOB_TITLES && DEMAND_SKILL_TREND in t && t[DEMAND_SKILL_TREND].DemandTable?
    ensures var r := DemandSection(t, title, SELECT_ALL); var rows := t[DEMAND_SKILL_TREND].demandRows;
      r.Ok? && r.value == (if title == SELECT_ALL then rows else DemandSkills.RowsOfTitle(rows, Some(title)))
    ensures var r := DemandSection(t, title, SELECT_ALL);
      r.Ok? && (x in r.value <==>
        x in t[DEMAND_SKILL_TREND].demandRows && (title == SELECT_ALL || x.jobTitleShort == Some(title)))
  {
    OptionsNotEmpty();
  }
}
