# Summary pipeline of the IT job-market dashboard

This project models the data side of a Streamlit dashboard about IT job postings. It covers three layers:

- The **raw data**: three relations loaded into a SQLite file `jobs_skills.db`. They are `job_postings_fact` (postings), `skills_dim` (skill dictionary) and `skills_job_dim` (job–skill links).
- The **builders**: they materialise summary tables from those relations.
  - `job_title_skill_count` is created only when absent.
  - `salary_summary`, `demand_skill_trend`, the four introduction tables and `job_country_summary` are dropped and recreated.
- The **readers and pages**: they filter, re-aggregate, rank and normalise those tables for the introduction, salary, top-skills and location pages. The cleaning stage `preprocess_data` and the top-20 chart `show_top_skills` also belong here.

The Dafny modules follow the program's files:

| module | file |
|---|---|
| `TableStore` | the database as a class `Store` holding `map<string, Table>`, with DROP, CREATE TABLE AS and `to_sql(replace)` |
| `Schema` | rows of every relation; SQL NULL is `Option` |
| `Cleaning` | `preprocess_viz_top_skills.py` |
| `TopSkills` | `preprocess_top_skills.py` |
| `Salary` | `preprocess_salary.py` |
| `DemandSkills` | `preprocess_demand_skills.py` |
| `Introduction` | `preprocess_introduction.py` |
| `Location` | `preprocess_location.py` |
| `App` | `app.py` |
| `TopSkillsChart` | `visualize_top_skills.py` |
| `SalaryPage`, `IntroductionPage`, `TopSkillsPage`, `LocationPage` | the four files under `pages/` |
| `Views` | `pd.read_sql_query("SELECT * ...")` and the exceptions the page code raises |
| `Seqs`, `Grouping`, `Joins`, `Numbers` | generic sequences, GROUP BY with COUNT/COUNT DISTINCT/SUM, the three-way inner join, percent and 2-decimal rounding |

Every builder has two parts. A spec function (for example `Salary.SalaryBuild`) maps the tables before the call to a `Step`: the tables after the call, and whether a statement raised. A method over `Store` (for example `Salary.CreateSalarySummary`) performs the same DROP/CREATE sequence and is proved equal to that function. Python's `sqlite3` runs DDL outside a transaction. So a DROP that precedes a failing CREATE stays in effect, and the model keeps that.

The builders read the raw tables under SQL semantics:

- NULL equals nothing in a join or in `col = ?`.
- GROUP BY keeps a NULL group.
- COUNT(DISTINCT) ignores NULL.

Some of the code's behaviour is easy to misread, and the model keeps it as the code has it:

- The demand table has no `job_schedule_type` column, so a schedule filter raises (`DemandSkills.LoadDemandSkills`).
- The top-skills reader applies `LIMIT top_n` before the `0.05` percent cut (`TopSkills.ThresholdAfterLimit`).
- `job_summary_stats.total_jobs` counts only postings with a salary (`Introduction.SummaryStatsSpec`).
- Rebuilding a summary table is a DROP followed by a CREATE. When the CREATE fails, the table is gone.
- The demand section of the top-skills page takes every skill of the demand rows (`unique()`), not a top-K selection of them.

## Model

| member | source | states |
|---|---|---|
| TableStore.Store.constructor | app.py:34 | a newly created database file holds no tables |
| TableStore.Store.DropIfExists | preprocess_salary.py:11 | `DROP TABLE IF EXISTS` removes exactly that name and keeps every other table |
| TableStore.Store.CreateAs | preprocess_salary.py:12-24 | `CREATE TABLE AS` succeeds exactly when the name is free; it then adds that one table, and otherwise nothing changes |
| TableStore.Store.Replace | app.py:35-37 | `to_sql(if_exists='replace')` leaves the name holding the new rows and every other table as it was |
| TableStore.LoadTable | preprocess_introduction.py:64 | `SELECT *` succeeds exactly when the table exists and returns it unchanged; otherwise it raises "no such table" |
| Views.ReadFrame | preprocess_introduction.py:64 | the page-level read gives the stored table unchanged, or the database error for a missing table |
| App.HasTables | app.py:41-63 | false for a missing or unreadable file; otherwise true exactly when every required name is a table |
| App.SetupSqliteDbFromCsv | app.py:33-39 | the three raw tables are replaced by the frames; nothing else changes |
| App.SetupRaw | app.py:35-37 | after the setup, the three raw relations hold exactly the frames' rows |
| App.SetupKeepsOthers | app.py:35-37 | the setup neither adds nor removes any other table |
| App.EnsureDbAndSummaryWith | app.py:65-73 | when the check passes nothing changes; otherwise the setup runs, then salary, top skills, demand, introduction and country in that order, each only when the previous one passed; the flag picks the country builder as written or corrected |
| App.EnsureDbAndSummaryAsWritten | app.py:53-73 | the program as written: the check asks for its four names and the country builder binds six values; whenever the check fails, the run ends in the binding error and leaves no `job_country_summary` |
| App.EnsureDbAndSummary | app.py:65-73 | the corrected program: the check asks for the tables the builders create, and the country builder binds five values |
| App.SalaryAdvances | app.py:69 | over the raw tables the salary builder passes, writes `salary_summary`, keeps the raw tables and touches nothing else |
| App.TopSkillsAdvances | app.py:70 | the same for the top-skills builder and `job_title_skill_count` |
| App.DemandAdvances | app.py:71 | the same for the demand builder and `demand_skill_trend` |
| App.IntroAdvances | app.py:72 | the same for the introduction builder and its four tables |
| App.LocationAdvances | app.py:73 | the same for the country builder; also, the country table holds the filtered per-country counts |
| App.BuildAllFromRaw | app.py:69-73 | from the raw tables all five builders pass, create every table they name, keep the raw tables and touch no other table; `job_country_summary` ends up with the country builder's schema, since it writes last |
| App.UnbuiltNames | app.py:53-58 | `top_10_skills_summary` and `top_job_titles_summary` are written by no builder and are not raw tables |
| App.EnsureFromScratch | app.py:65-73 | for the corrected program (intended check, five bound values): when the check fails the run passes; the raw tables hold the frames, the intended required tables all exist, and only builder tables changed |
| App.EnsureWhenPresent | app.py:66 | when the check passes the database is left exactly as it was |
| App.AsWrittenNeverSettles | app.py:53-60 | unless both unbuilt names already exist, the check as written is still false after a full rebuild |
| App.IntendedSettles | app.py:65-73 | with the intended names, one run from any state passes, after it the check holds, and the next run changes nothing |
| App.AsWrittenBuildRaises | app.py:69-73 | with the country builder as written, a full run ends in its binding error, and no `job_country_summary` remains |
| Cleaning.FirstIndices | preprocess_viz_top_skills.py:3-10 | the positions, below the bound, of the first occurrences of their key that pass the missing-value test |
| Cleaning.FirstIndicesIncreasing | preprocess_viz_top_skills.py:3-10 | those positions are strictly increasing, so they follow the input order |
| Cleaning.FirstIndicesMembers | preprocess_viz_top_skills.py:3-10 | a position is listed exactly when it is the first of its key and its row passes the test |
| Cleaning.FilterDedupInOrder | preprocess_viz_top_skills.py:3-10 | deduplicating and then dropping rows gives, in order and each once, the rows at those positions |
| Cleaning.DedupBySpec | preprocess_viz_top_skills.py:3-5 | keep-first `drop_duplicates`: the result is, in input order and each once, the rows at the first occurrences of their keys; kept keys are distinct, every first occurrence is kept, and every key of the input keeps a row |
| Cleaning.Strip | preprocess_viz_top_skills.py:19-20 | `str.strip()` gives a middle slice of the text with only whitespace removed at either end, and it has no whitespace at its ends |
| Cleaning.NoEdgeSpaceStripped | preprocess_viz_top_skills.py:19-20 | text without whitespace at its ends is left as it is |
| Cleaning.StripIdempotent | preprocess_viz_top_skills.py:19-20 | stripping twice equals stripping once |
| Cleaning.CastJobs | preprocess_viz_top_skills.py:13 | row by row, the posting id becomes its text and the short title is stripped |
| Cleaning.CastSkills | preprocess_viz_top_skills.py:14 | row by row, the skill id becomes its text and the name is stripped |
| Cleaning.CastLinks | preprocess_viz_top_skills.py:15-16 | row by row, both ids of a link become their text |
| Cleaning.CleanJobs | preprocess_viz_top_skills.py:3-19 | the cleaned postings are never more than the raw ones |
| Cleaning.CleanSkills | preprocess_viz_top_skills.py:4-20 | the cleaned skills are never more than the raw ones |
| Cleaning.CleanLinks | preprocess_viz_top_skills.py:5-16 | the cleaned links are never more than the raw ones |
| Cleaning.CleanJobsSpec | preprocess_viz_top_skills.py:3-19 | every cleaned posting is a first occurrence of its raw id that has an id and a short title, with the id as text, the short title stripped and every other column unchanged; every such first occurrence is present |
| Cleaning.CleanSkillsSpec | preprocess_viz_top_skills.py:4-20 | the same for skills: first occurrence with an id and a name, the id as text, the name stripped, the type unchanged |
| Cleaning.CleanLinksSpec | preprocess_viz_top_skills.py:5-16 | the same for links: first occurrence of each raw id pair with both ids present, both as text |
| Cleaning.CleanJobsInOrder | preprocess_viz_top_skills.py:3-19 | the cleaned postings are, in input order and each once, the cast rows at the first occurrences of their ids that have an id and a short title |
| Cleaning.CleanSkillsInOrder | preprocess_viz_top_skills.py:4-20 | the same for skills, at the first occurrences with an id and a name |
| Cleaning.CleanLinksInOrder | preprocess_viz_top_skills.py:5-16 | the same for links, at the first occurrences of each id pair with both ids present |
| Cleaning.NullTitleFirstHidesId | preprocess_viz_top_skills.py:3-8 | when the first row with an id has no short title, no row with that id survives, because deduplication runs before the missing-value drop |
| Cleaning.NullTitleFirstExample | preprocess_viz_top_skills.py:3-8 | that case on two rows: a titled duplicate after an untitled first row is lost as well |
| Cleaning.CastRepeatsIds | preprocess_viz_top_skills.py:3-13 | the number 5 and the text "5" are different raw ids and survive the deduplication together, but after the cast both rows carry id "5" |
| Joins.JoinMembership | preprocess_top_skills.py:26-28 | a tuple is in the inner join exactly when its parts are rows of the three relations and agree on both keys, neither key NULL |
| Joins.JoinSnocSize | preprocess_top_skills.py:26-28 | one more link adds one tuple per pair of a matching skill and a matching posting |
| Joins.UnmatchedLinkAddsNothing | preprocess_top_skills.py:26-28 | a link with no matching skill or no matching posting adds no tuple |
| Joins.UniquelyMatchedLinkAddsOne | preprocess_top_skills.py:26-28 | a link matching one skill and one posting adds exactly that tuple |
| TopSkills.TopSkillsBuild | preprocess_top_skills.py:9-32 | only `job_title_skill_count` may change; an existing one is kept and the call passes; otherwise it passes exactly when the raw tables can be read, and then the table exists; on failure nothing changes and the read error is reported |
| TopSkills.CreateTopSkillsSummary | preprocess_top_skills.py:9-32 | the store after the call agrees with `TopSkillsBuild`: nothing happens when the table exists, otherwise it is created from the raw tables |
| TopSkills.TopSkillsBuildKeepsExisting | preprocess_top_skills.py:14-17 | an existing `job_title_skill_count` is never rebuilt, whatever the raw tables now hold |
| TopSkills.TitleSkillCountKeys | preprocess_top_skills.py:18-30 | one row per distinct (short title, skill, title, type); a key has a row exactly when some joined (link, skill, posting) carries it |
| TopSkills.TitleSkillCountCounts | preprocess_top_skills.py:25-29 | each row's count is the number of join tuples with its key, at least one |
| TopSkills.TitleSkillCountTotal | preprocess_top_skills.py:25-29 | the counts add up to the number of inner-join tuples |
| TopSkills.UnmatchedLinkNotCounted | preprocess_top_skills.py:26-28 | a link without a matching skill or posting leaves the summary unchanged |
| TopSkills.MatchedLinkCountsOnce | preprocess_top_skills.py:25-29 | a link matching one skill and one posting raises exactly one group's count by one |
| TopSkills.ConditionsMeaning | preprocess_top_skills.py:36-46 | a missing or empty role or type is a wildcard; given ones must both match exactly, and a NULL column matches nothing |
| TopSkills.HavingNotNull | preprocess_top_skills.py:59 | the NULL-skill group is removed and every named group is kept with its count |
| TopSkills.HavingNotNullKeys | preprocess_top_skills.py:59 | removing the NULL-skill group keeps the group keys distinct |
| TopSkills.RankedKeysDistinct | preprocess_top_skills.py:48-61 | the ranked skills are distinct, with or without LIMIT |
| TopSkills.SkillCountOfsBounded | preprocess_top_skills.py:48-59 | each skill's count is the number of distinct titles among its filtered rows, and at most the filtered total |
| TopSkills.RankedBounded | preprocess_top_skills.py:60-61 | every ranked count is at most the number of distinct titles |
| TopSkills.WithPercentRows | preprocess_top_skills.py:65-69 | each row keeps its ranked skill, and its percent is that skill's count over the filtered total, times 100, rounded to two places, in [0, 100]; there are rows only when the total is positive |
| TopSkills.TopSkillsResult | preprocess_top_skills.py:65-76 | the result is ascending by percent, every percent is in [0.05, 100], there are at most `top_n` rows, the skills are distinct, and each row is a ranked skill whose percent is its count over the filtered total, rounded |
| TopSkills.ThresholdAfterLimit | preprocess_top_skills.py:61-70 | a ranked skill is reported exactly when its exact percent is at least 0.045; the cut runs after LIMIT, so fewer than `top_n` may remain |
| TopSkills.RankedIsTopN | preprocess_top_skills.py:60-61 | `LIMIT top_n` keeps `top_n` skills, or all when there are fewer, each one of the named skills with its count; no skill left out has a larger distinct-title count than a skill kept |
| TopSkills.RankedUnlimited | preprocess_top_skills.py:61 | a negative `top_n` limits nothing: every named skill is ranked, each once |
| TopSkills.LoadTopSkillsSummary | preprocess_top_skills.py:35-78 | a missing table raises "no such table" and a table of another shape "no such column `job_title`"; otherwise the rows are the result over the filtered table, ascending, distinct skills, each percent in [0.05, 100] |
| TopSkills.LoadAfterBuild | preprocess_top_skills.py:35-78 | over a table the builder made, the reader succeeds for every filter, and its rows keep the reader's promises |
| Salary.MonthOf | preprocess_salary.py:16 | the month is NULL for a NULL date and for one whose `YYYY-MM-DD` prefix is not well formed (digits and dashes, month 01..12, day 01..31, followed by the end, a space or a `T`); otherwise it lies in 1..12 |
| Salary.MonthOfDateText | preprocess_salary.py:16 | for a written date, with or without a time part, the month read back is the month written |
| Salary.SalaryBuild | preprocess_salary.py:8-26 | only `salary_summary` may change; the call passes exactly when the postings can be read, and then the table exists; otherwise it is gone, because the DROP stays in effect, and the read error is reported |
| Salary.CreateSalarySummary | preprocess_salary.py:8-26 | the store after the call agrees with `SalaryBuild`: drop, then recreate from the postings |
| Salary.SalaryBuildIdempotent | preprocess_salary.py:11-12 | a rerun changes nothing, the previous contents never matter, and the table is computed from the current postings |
| Salary.SalaryRowsKeys | preprocess_salary.py:14-23 | one row per (role, month) having a salaried posting, and no row for any other pair |
| Salary.SalaryRowsAggregates | preprocess_salary.py:17-20 | each row counts its group's salaried postings (at least one); the average is their salary sum over that count; every salary of the group lies between min and max, and both extremes are salaries in the group |
| Salary.SalaryRowsTotal | preprocess_salary.py:17-22 | the counts add up to the number of postings with a salary |
| Salary.RowsOfMonth | preprocess_salary.py:37-40 | `WHERE month = ?` keeps every row of that month as often as it occurs, and no other row |
| Salary.LoadSalarySummary | preprocess_salary.py:29-43 | `None` gives the whole table; month `m` gives the table's rows of month `m`, in order and with their repeats; a missing table, or one of another shape, raises |
| Salary.LoadMonthAfterBuild | preprocess_salary.py:37-40 | after a build, a role appears for month `m` exactly when one of its postings from that month has a salary |
| Salary.LoadMonthRows | preprocess_salary.py:37-40 | after a build, the rows read for month `m` are exactly the built rows of that month |
| DemandSkills.FlattenSize | preprocess_demand_skills.py:20-23 | one row per join tuple whose skill has a name |
| DemandSkills.DemandRowsMembers | preprocess_demand_skills.py:12-24 | a row is in the table exactly when it projects the five columns of a joined (link, posting, skill) whose skill has a name |
| DemandSkills.MatchedLinkAddsRow | preprocess_demand_skills.py:20-23 | no deduplication: a uniquely matched link appends its row even when an identical row is already present |
| DemandSkills.DemandBuild | preprocess_demand_skills.py:8-26 | only `demand_skill_trend` may change; the call passes exactly when the three raw tables can be read, and then the table exists; otherwise it is gone and the read error is reported |
| DemandSkills.CreateDemandSkillSummary | preprocess_demand_skills.py:8-26 | the store after the call agrees with `DemandBuild`: drop, then recreate from the join |
| DemandSkills.DemandBuildIdempotent | preprocess_demand_skills.py:11-12 | a rerun changes nothing, and the previous contents never matter |
| DemandSkills.RowsOfTitle | preprocess_demand_skills.py:37-48 | `WHERE job_title_short = ?` keeps every row with that role as often as it occurs, and no other row |
| DemandSkills.LoadDemandSkills | preprocess_demand_skills.py:31-52 | a missing table raises; a truthy `job_type` always raises "no such column `job_schedule_type`"; otherwise, for no role the result is the whole table, and for a role it is the table's rows of that role |
| Introduction.TopTitlesSpec | preprocess_introduction.py:15-21 | five roles, or every role when there are fewer, largest first, each a group of the postings with its number of distinct posting ids; no role left out has more than a role kept |
| Introduction.SkillTypesSpec | preprocess_introduction.py:26-33 | one row per non-NULL type that some joined (link, skill, posting) has; its count is the number of distinct titles among them |
| Introduction.IntroCountriesSpec | preprocess_introduction.py:38-43 | one row per country value, NULL included and nothing excluded, largest first; each counts its postings, and the counts add up to all postings |
| Introduction.SummaryStatsSpec | preprocess_introduction.py:48-54 | exactly one row; `total_jobs` counts only postings with a salary; the average is NULL when there is none, and otherwise it is the salary sum over `total_jobs`, rounded to two places, between the rounded smallest and largest salary |
| Introduction.DropCreateStep | preprocess_introduction.py:13-21 | one drop-then-create step; its result agrees with `DropCreate` |
| Introduction.IntroBuild | preprocess_introduction.py:8-57 | the four introduction tables are the only ones that may change |
| Introduction.CreateAllIntroSummaries | preprocess_introduction.py:8-57 | the store after the call agrees with `IntroBuild`: four drop/create steps, stopping at the first that raises |
| Introduction.TableOfRaw | preprocess_introduction.py:14-54 | each of the four tables depends on the raw relations alone |
| Introduction.IntroBuildResult | preprocess_introduction.py:12-54 | with the raw tables present the builder passes, leaves the four computed tables and changes nothing else |
| Introduction.IntroBuildIdempotent | preprocess_introduction.py:13-54 | rerunning the builder changes nothing further, whether it passed or stopped at an error |
| Introduction.LoadAfterIntroBuild | preprocess_introduction.py:61-87 | the four readers return their tables unchanged; after a built pass these are the tables just computed |
| Location.LocationBuildWith | preprocess_location.py:8-31 | only `job_country_summary` may change; the call passes exactly when the postings can be read and there is one value per placeholder, and then the table exists; otherwise it is gone and the error is the read error or the binding count |
| Location.CreateJobCountrySummaryWith | preprocess_location.py:8-31 | the store after the call agrees with `LocationBuildWith`: drop, then compile against the postings, then bind, which fails unless there is one value per placeholder |
| Location.CreateJobCountrySummaryAsWritten | preprocess_location.py:8-31 | the builder binding `invalid_countries[:-1]`, as written |
| Location.CreateJobCountrySummary | preprocess_location.py:8-31 | the builder binding the five values its placeholders stand for |
| Location.AsWrittenNeverCreates | preprocess_location.py:13-28 | as written the builder always raises and leaves no `job_country_summary`; with the postings present the error is six values bound to five placeholders |
| Location.KeptIntended | preprocess_location.py:16-26 | with the intended values a country is kept exactly when it is not NULL and none of the exclusion list, compared exactly |
| Location.CountryCountsSpec | preprocess_location.py:19-28 | one row per valid country some posting has, none for an excluded value; each holds its posting count (not distinct ids), and the counts add up to the postings kept |
| Location.LocationBuildIdempotent | preprocess_location.py:13 | a rerun changes nothing, and the previous contents never matter |
| Location.LoadJobCountrySummary | preprocess_location.py:34-38 | the reader returns the stored table unchanged, or raises when it is missing |
| Location.LoadAfterLocationBuild | preprocess_location.py:34-38 | after a build over the postings, the reader gets the filtered counts |
| TopSkillsChart.SortLex | visualize_top_skills.py:6 | `sorted` gives a permutation in non-decreasing order |
| TopSkillsChart.TitleOptionsSpec | visualize_top_skills.py:5-6 | the options are the distinct non-NULL short titles, sorted, each once |
| TopSkillsChart.RoleLinksSpec | visualize_top_skills.py:8-9 | a link is kept exactly when some posting of the selected role has its `job_id` |
| TopSkillsChart.UnmatchedLinkNotCounted | visualize_top_skills.py:10-12 | after the left merge, a link whose skill is unknown adds only a missing name and changes no count |
| TopSkillsChart.MatchedLinkCounted | visualize_top_skills.py:10-12 | a link matching one skill adds that skill's name when it has one |
| TopSkillsChart.Top20 | visualize_top_skills.py:12 | twenty entries, or all when there are fewer, drawn from the counts, largest first, each key once; none left out counts more than one kept |
| TopSkillsChart.TopCounts | visualize_top_skills.py:12 | each charted count is the number of rows with that name; the top is empty only when no name is left |
| TopSkillsChart.ShowCounts | visualize_top_skills.py:12-18 | the "no skills" branch is taken exactly when no name is left; otherwise twenty bars, or one per distinct name when there are fewer, largest first, each with its name's count, none left out counting more |
| SalaryPage.MonthMapsInverse | pages/salary.py:23-28 | the name map and the number map are inverse on the twelve months |
| SalaryPage.MonthChosenOfOption | pages/salary.py:31-34 | option 0 ("All Months") selects no month; option `i` selects month `i` |
| SalaryPage.PositiveKeepsBuiltRows | pages/salary.py:40 | the rows of a built summary all have a positive count, so the `count > 0` filter keeps them all |
| SalaryPage.ChosenMonthUnchanged | pages/salary.py:51-53 | for a chosen month every row reaches the page unchanged |
| SalaryPage.AllMonthsRoles | pages/salary.py:43-49 | "All Months" gives one row per role with a name and no other row; groupby drops the NULL role |
| SalaryPage.AllMonthsAggregates | pages/salary.py:43-49 | each role's row sums its counts; it has the largest maximum and the smallest minimum of its rows, both attained; its average is the mean of its monthly averages, between two of them |
| SalaryPage.SummaryRows | pages/salary.py:39-53 | for a chosen month the rows with a positive count reach the page one for one; for "All Months" there is one row per role that has a row with a positive count, and no other |
| SalaryPage.AllMonthsTotal | pages/salary.py:63 | "Total Jobs" for all months is the sum of the counts of the rows with a role |
| SalaryPage.AllMonthsJobTypes | pages/salary.py:74-75 | "Job Types" for all months is the number of summary rows, one per role |
| SalaryPage.MetricsBounds | pages/salary.py:63-75 | "Highest Salary" is some row's maximum and no row's is larger; "Avg Salary" is the mean of the row averages, between two of them; both are NaN for no rows |
| SalaryPage.Display | pages/salary.py:56 | ten rows of the summary, or all when there are fewer, highest average first; no row left out has a higher average than one shown |
| IntroductionPage.Headline | pages/introduction.py:16-17 | the headline is the first row of `job_summary_stats`; an empty table raises `IndexError` |
| IntroductionPage.HeadlineAfterBuild | pages/introduction.py:16-17 | after a build the headline exists; "Total Jobs" is the number of postings with a salary, and the average is missing exactly when no posting has one |
| IntroductionPage.AddRoleTraces | pages/introduction.py:36-43 | bar `i` shows row `i` with the `i`-th colour; a sixth row raises `IndexError` |
| IntroductionPage.GradientDistinct | pages/introduction.py:25-31 | the five colours are different |
| IntroductionPage.TopTitlesFit | pages/introduction.py:25-40 | the role table the builder writes never has more rows than there are colours |
| IntroductionPage.RoleBarsOfBuilt | pages/introduction.py:36-43 | over the built role table every bar has its own colour, and the bars run from the largest count down |
| IntroductionPage.FormatLabelCollisions | pages/introduction.py:119-130 | two types share a label only when one is a known key and the other is spelled as its display name |
| IntroductionPage.TypeDistributionSpec | pages/introduction.py:133-137 | one row per type, holding the sum of that type's counts, largest first; the grand total is unchanged |
| IntroductionPage.PieSpec | pages/introduction.py:141-144 | one labelled slice per type, largest first; each rounded percent is in [0, 100], and they add up to 100 within the rounding of each slice; all-zero counts give NaN values |
| IntroductionPage.SkillPie | pages/introduction.py:113 | the pie is drawn from `skill_type_distribution_summary` when that table exists |
| IntroductionPage.CountrySummarySpec | pages/introduction.py:186-189 | ten bars (fewer when there are fewer rows), the largest counts in descending order, each a row of the table; with one row per country, "locations" is the number of rows |
| IntroductionPage.CountryChart | pages/introduction.py:186-189 | the chart needs the `country` column; over the introduction builder's schema it raises `KeyError` |
| IntroductionPage.CountryChartAfterIntroBuild | pages/introduction.py:186 | had the introduction builder written last, the country chart could never be drawn |
| IntroductionPage.CountryChartAfterEnsure | pages/introduction.py:186-189 | after a rebuild the chart exists; "locations" is the number of valid countries among the postings, and the bars are among the filtered counts |
| IntroductionPage.TablesAfterEnsure | app.py:65-73 | after a rebuild the four tables the page reads hold what their builders computed from the frames; `job_country_summary` holds the country builder's filtered counts |
| IntroductionPage.IntroPageAfterEnsure | pages/introduction.py:11-17 | after a rebuild, the headline, the role bars, the pie and the country chart all come from the tables just computed from the downloaded frames |
| TopSkillsPage.Chosen | pages/top_skills.py:20 | the sentinel maps to `None` and any other option passes through unchanged |
| TopSkillsPage.OptionsNotEmpty | pages/top_skills.py:14-18 | no option text is empty, so a chosen option is always a truthy filter |
| TopSkillsPage.SelectorsFilter | pages/top_skills.py:14-31 | "Select All" and "All" filter nothing; any other option keeps exactly the rows with that role and that type |
| TopSkillsPage.LabelsAgree | pages/top_skills.py:22-27 | this page's labels agree with the introduction page's on every input except "sync" and "async" |
| TopSkillsPage.RadioTexts | pages/top_skills.py:29-30 | what the radio shows for its ten options; "sync" and "async" stay in lower case |
| TopSkillsPage.ViewSpec | pages/top_skills.py:39-79 | the info branch is taken exactly for no rows; otherwise one bar per row in order, an axis end of at most 100, and a height of at least 300 and at least 37 per bar |
| TopSkillsPage.TopSkillsChart | pages/top_skills.py:36 | the chart fails only with a database error |
| TopSkillsPage.ChartAfterBuild | pages/top_skills.py:36-47 | over the built table, every choice of options gives a chart of at most twenty bars, smallest first, each in [0.05, axis end], with an axis end of at most 100 |
| TopSkillsPage.DemandScheduleFails | pages/top_skills.py:116-119 | every schedule option other than "Select All" makes the demand loader fail |
| TopSkillsPage.DemandAllSchedules | pages/top_skills.py:116-119 | with "Select All" as schedule, the section gets the whole trend table for "Select All" as role, and otherwise that table's rows of the chosen role |
| LocationPage.CoordCountriesDistinct | pages/location.py:15-22 | the ten coordinate countries are different |
| LocationPage.PointsForCoords | pages/location.py:25 | one summary row merges into its coordinates when its country is one of the ten, and into nothing otherwise |
| LocationPage.MapDataSpec | pages/location.py:25-26 | merge plus `dropna` keeps exactly the rows whose country has coordinates, in order and each once, with its count and that country's position |
| LocationPage.MaxCount | pages/location.py:29 | the maximum bounds every count and is attained when there are rows |
| LocationPage.LayerSpec | pages/location.py:29 | radius at most 500000, exactly 500000 for the largest count, monotone in the count; NaN for every bubble exactly when the maximum is 0 |
| LocationPage.LocationMap | pages/location.py:25-29 | the map needs the country builder's schema; the introduction builder's raises `KeyError` |
| LocationPage.LocationMapAfterEnsure | pages/location.py:25-29 | after a rebuild the map is drawn from the filtered per-country counts computed from the frames |
| LocationPage.LayerOfPositive | pages/location.py:29 | when every count is positive, every bubble has a radius |
| LocationPage.PointsOfCounts | pages/location.py:25-26 | the merged points of the built counts are countries with their posting count, never an excluded value |
| LocationPage.MapOfCountryCounts | pages/location.py:25-29 | over the built counts, one bubble per country with coordinates; each has a numeric radius and its posting count, and none is an excluded value |
| Numbers.Round2Close | preprocess_top_skills.py:69 | the rounded value is within half a hundredth of the exact one |
| Numbers.Round2Threshold | preprocess_top_skills.py:69-70 | a rounded percent passes `>= 0.05` exactly when the exact value is at least 0.045 |
| Numbers.Round2Mono | pages/introduction.py:144 | rounding is monotone |
| Numbers.PercentBounds | preprocess_top_skills.py:69 | a part of a positive whole is between 0 and 100 percent |

## Left out

- Rendering: Streamlit layout, Plotly and pydeck figures, colours, hover texts, the HTML blocks and the sidebar routing (app.py:83-116). Bar and chart values are modelled; drawing them is not.
- `@st.cache_data` memoisation: the builders are plain store updates, and every call runs.
- Database plumbing: opening, committing and closing connections, and `os.path.exists`. The file's state is the input `App.DbFile` (missing, unreadable, readable). The `print` diagnostics are left out.
- Index creation in `initialize_database` (preprocess_top_skills.py:84-97): it changes no table contents.
- Downloading the data (load_data.py, `download_data_cached`): the frames are a parameter of `App.EnsureDbAndSummary`. The mismatch between the parquet keys and the CSV loader is download plumbing and is not modelled.
- `pd.to_datetime` in `load_demand_skills`: a date is text.
- Salary.MonthOf: reads the month at its fixed position of a `YYYY-MM-DD` prefix. SQLite's `strftime` also rejects text after the date that is not a valid time, and it normalises a day past the end of its month (`2023-02-30` reads as March); neither is modelled.
- The timing writes and the debug `st.dataframe` in `load_salary_summary`.
- Floating point: averages and percents are exact reals, and NaN is `None` (or `NaNPie`). Numbers.Round2: `round(x, 2)` is modelled as half-up rounding on exact reals. pandas and SQLite round binary floats, which can differ right at a half.
- The demand-trend line chart (pages/top_skills.py:119-135): it reads a `count` column that `load_demand_skills` never returns. Only the loader and the selectors are modelled.
- Cleaning.IsSpace: covers the ASCII and Latin-1 whitespace that `str.isspace` accepts, not other Unicode whitespace.
- Cleaning.IdText: ids are integers or texts. Float ids, which `astype(str)` would render as `5.0`, are not modelled.
- Joins.SqlEq: ids in the SQL stage are compared as the frames hold them, so the number 5 and the text "5" never match. The model therefore assumes one id type per id column across the three raw tables. SQLite column affinity is not modelled. An INTEGER `job_id` column would equal a TEXT "5" in another table in a join. `to_sql` would store a mixed object column's 5 and "5" as the same text, so `COUNT(DISTINCT job_id)` would count them once.
- Schema.Job.salary: `salary_year_avg` is a float column, but the model holds whole-number salaries (`Option<int>`), and so do the `max_salary` and `min_salary` columns of `SalaryRow`. Salary.SalaryRowsAggregates, Introduction.SummaryStatsSpec and SalaryPage.MetricsBounds are stated for such salaries only. A salary with a fractional part is not modelled.
- Sort tie order: SQL `ORDER BY`, `sort_values` and `value_counts` leave the order of equal keys open. The model uses one fixed order, and no contract depends on how ties are placed.
- SalaryPage.MetricsOf: the "Avg Salary" thousands formatting is not modelled.
- Corruption of the database file, and concurrent runs of the app.
- The cleaning stage's column checks: every relation is a typed record, so no column can be absent.

## Findings

| source | as written | input that shows it | evidently intended | confidence | as-written member | corrected member |
|---|---|---|---|---|---|---|
| preprocess_location.py:25-28 | binds `invalid_countries[:-1]`, six values, to a statement with five `?` placeholders. sqlite3 raises after the DROP has taken effect, so `job_country_summary` is gone after every run | any database holding `job_postings_fact` | bind the five region names, so the table holds per-country counts without the excluded values | not executed | Location.AsWrittenNeverCreates | Location.CountryCountsSpec |
| app.py:53-58 | the check asks for `top_10_skills_summary` and `top_job_titles_summary`, which no builder creates, so it stays false and every start re-downloads and rebuilds | any start where those two tables are absent | ask for `job_title_skill_count` and `top_job_title_summary`, the tables the builders do create, so one run settles the database | not executed | App.AsWrittenNeverSettles | App.IntendedSettles |
