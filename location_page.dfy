/** `location_render`: the country summary joined with a fixed table of
    country coordinates, with a bubble radius scaled so that the largest
    country gets 500000. */
module LocationPage {
  import opened Common
  import opened Seqs
  import opened Grouping
  import opened Schema
  import opened TableStore
  import opened Views
  import Location
  import App

  /** A row of `country_coords`. */
  datatype Coord = Coord(country: string, lat: real, lon: real)

  /** The ten countries the map knows a position for. */
  const COUNTRY_COORDS: seq<Coord> := [
    Coord("United States", 37.0902, -95.7129),
    Coord("India", 20.5937, 78.9629),
    Coord("Germany", 51.1657, 10.4515),
    Coord("United Kingdom", 55.3781, -3.4360),
    Coord("Indonesia", -0.7893, 113.9213),
    Coord("Canada", 56.1304, -106.3468),
    Coord("Australia", -25.2744, 133.7751),
    Coord("France", 46.2276, 2.2137),
    Coord("Brazil", -14.2350, -51.9253),
    Coord("Japan", 36.2048, 138.2529)]

  function Countries(coords: seq<Coord>): seq<string> {
    Map(coords, (c: Coord) => c.country)
  }

  /** The ten names are different, so the merge matches a country at most once. */
  lemma CoordCountriesDistinct()
    ensures NoDups(Countries(COUNTRY_COORDS))
  {
    var cs := Countries(COUNTRY_COORDS);
    assert cs == ["United States", "India", "Germany", "United Kingdom", "Indonesia",
                  "Canada", "Australia", "France", "Brazil", "Japan"];
    assert Map(cs, Signature) == [13085, 5073, 7071, 14085, 9073, 6067, 9065, 6070, 6066, 5074];
    NoDupsBySignature(cs, Signature);
  }

  /** A name's length and first letter, which already tell the ten names apart. */
  function Signature(name: string): int {
    if |name| == 0 then 0 else |name| * 1000 + name[0] as int
  }

  lemma NoDupsBySignature<T>(s: seq<T>, f: T -> int)
    requires NoDups(Map(s, f))
    ensures NoDups(s)
  {
    forall i, j | 0 <= i < j < |s| ensures s[i] != s[j] {
      assert Map(s, f)[i] != Map(s, f)[j];
    }
  }

  /** A row of `map_data`: the summary row and the matched position. */
  datatype Point = Point(country: string, jobCount: nat, lat: real, lon: real)

  /** The merged rows of one summary row: one per coordinate row of its country. */
  function PointsFor(g: Grouped<string>, coords: seq<Coord>): seq<Point> {
    if |coords| == 0 then []
    else
      var c := coords[|coords| - 1];
      PointsFor(g, coords[..|coords| - 1]) + (if c.country == g.key then [Point(g.key, g.count, c.lat, c.lon)] else [])
  }

  /** `pd.merge(country_counts, country_coords, left_on='country', right_on='Country', how='left')`
      followed by `dropna(subset=['lat', 'lon'])`: a summary row without a
      coordinate row gets NaN positions and is dropped, so what remains is the
      rows with a match. */
  function MapData(rows: seq<Grouped<string>>, coords: seq<Coord>): seq<Point> {
    if |rows| == 0 then []
    else MapData(rows[..|rows| - 1], coords) + PointsFor(rows[|rows| - 1], coords)
  }

  lemma {:induction false} PointsForMatch(g: Grouped<string>, coords: seq<Coord>, i: nat)
    requires NoDups(Countries(coords)) && i < |coords| && coords[i].country == g.key
    ensures PointsFor(g, coords) == [Point(g.key, g.count, coords[i].lat, coords[i].lon)]
  {
    var n := |coords| - 1;
    var init := coords[..n];
    assert Countries(init) == Countries(coords)[..n];
    if i < n {
      PointsForMatch(g, init, i);
      assert Countries(coords)[i] != Countries(coords)[n];
    } else {
      PointsForAbsent(g, init);
    }
  }

  lemma {:induction false} PointsForAbsent(g: Grouped<string>, coords: seq<Coord>)
    requires g.key !in Countries(coords)
    ensures PointsFor(g, coords) == []
  {
    if |coords| > 0 {
      var n := |coords| - 1;
      assert Countries(coords[..n]) == Countries(coords)[..n];
      assert Countries(coords)[n] == coords[n].country;
      PointsForAbsent(g, coords[..n]);
    }
  }

  /** The merged rows of one summary row against the map's table: the row with
      its coordinates when its country is one of the ten, otherwise none. */
  lemma PointsForCoords(g: Grouped<string>)
    ensures g.key in Countries(COUNTRY_COORDS) ==>
      exists c :: c in COUNTRY_COORDS && c.country == g.key
        && PointsFor(g, COUNTRY_COORDS) == [Point(g.key, g.count, c.lat, c.lon)]
    ensures g.key !in Countries(COUNTRY_COORDS) ==> PointsFor(g, COUNTRY_COORDS) == []
  {
    CoordCountriesDistinct();
    if g.key in Countries(COUNTRY_COORDS) {
      var i :| 0 <= i < |COUNTRY_COORDS| && Countries(COUNTRY_COORDS)[i] == g.key;
      PointsForMatch(g, COUNTRY_COORDS, i);
      assert COUNTRY_COORDS[i] in COUNTRY_COORDS;
    } else {
      PointsForAbsent(g, COUNTRY_COORDS);
    }
  }

  predicate HasCoords(g: Grouped<string>) {
    g.key in Countries(COUNTRY_COORDS)
  }

  /** The map keeps exactly the summary rows whose country has coordinates, in
      order and each once, with its count and with that country's position. */
  lemma {:induction false} MapDataSpec(rows: seq<Grouped<string>>)
    ensures var kept := Filter(rows, HasCoords); var m := MapData(rows, COUNTRY_COORDS);
      |m| == |kept|
      && forall i :: 0 <= i < |m| ==>
        m[i].country == kept[i].key && m[i].jobCount == kept[i].count
        && Coord(m[i].country, m[i].lat, m[i].lon) in COUNTRY_COORDS
  {
    if |rows| > 0 {
      var init := rows[..|rows| - 1];
      var g := rows[|rows| - 1];
      MapDataSpec(init);
      PointsForCoords(g);
      var kept := Filter(rows, HasCoords);
      var m := MapData(rows, COUNTRY_COORDS);
      assert kept == Filter(init, HasCoords) + (if HasCoords(g) then [g] else []);
      assert m == MapData(init, COUNTRY_COORDS) + PointsFor(g, COUNTRY_COORDS);
      if HasCoords(g) {
        var c :| c in COUNTRY_COORDS && PointsFor(g, COUNTRY_COORDS) == [Point(g.key, g.count, c.lat, c.lon)]
          && c.country == g.key;
        assert Coord(m[|m| - 1].country, m[|m| - 1].lat, m[|m| - 1].lon) == c;
      }
    }
  }

  // ---------------------------------------------------------------------
  // Bubble radius

  /** `map_data['job_count'].max()` (0 for no rows, where no radius is computed). */
  function MaxCount(points: seq<Point>): (m: nat)
    ensures forall p :: p in points ==> p.jobCount <= m
    ensures |points| > 0 ==> exists p :: p in points && p.jobCount == m
  {
    if |points| == 0 then 0
    else
      var init := points[..|points| - 1];
      var last := points[|points| - 1];
      assert points == init + [last];
      var m := MaxCount(init);
      if last.jobCount > m then last.jobCount else m
  }

  /** A bubble; the radius is NaN (`None`) when every count is zero. */
  datatype Bubble = Bubble(point: Point, radius: Option<real>)

  function RadiusOf(p: Point, m: nat): Option<real> {
    if m == 0 then None else Some(p.jobCount as real / m as real * 500000.0)
  }

  /** `map_data['radius'] = map_data['job_count'] / map_data['job_count'].max() * 500000`. */
  function Layer(points: seq<Point>): seq<Bubble> {
    var m := MaxCount(points);
    Map(points, (p: Point) => Bubble(p, RadiusOf(p, m)))
  }

  /** The radius is proportional to the count: at most 500000, exactly 500000
      for the largest country, and larger counts never get smaller bubbles. */
  lemma LayerSpec(points: seq<Point>)
    ensures var l := Layer(points);
      |l| == |points|
      && (forall i :: 0 <= i < |l| ==> l[i].point == points[i])
      && ((forall i :: 0 <= i < |l| ==> l[i].radius.None?) <==> MaxCount(points) == 0)
      && (forall i :: 0 <= i < |l| && l[i].radius.Some? ==> 0.0 <= l[i].radius.value <= 500000.0)
      && (forall i :: 0 <= i < |l| && l[i].radius.Some? && points[i].jobCount == MaxCount(points) ==>
            l[i].radius.value == 500000.0)
      && (forall i, j :: 0 <= i < |l| && 0 <= j < |l| && l[i].radius.Some? && points[i].jobCount <= points[j].jobCount ==>
            l[i].radius.value <= l[j].radius.value)
  {
    var m := MaxCount(points);
    LayerElems(points);
    RadiiFacts(points, m);
    if m == 0 && |points| > 0 {
      assert Layer(points)[0].radius.None?;
    }
  }

  lemma LayerElems(points: seq<Point>)
    ensures |Layer(points)| == |points|
    ensures forall i :: 0 <= i < |points| ==> Layer(points)[i] == Bubble(points[i], RadiusOf(points[i], MaxCount(points)))
  {
  }

  lemma RadiiFacts(points: seq<Point>, m: nat)
    requires m == MaxCount(points)
    ensures forall i :: 0 <= i < |points| ==> (RadiusOf(points[i], m).Some? <==> m > 0)
    ensures forall i :: 0 <= i < |points| && m > 0 ==> 0.0 <= RadiusOf(points[i], m).value <= 500000.0
    ensures forall i :: 0 <= i < |points| && m > 0 && points[i].jobCount == m ==> RadiusOf(points[i], m).value == 500000.0
    ensures forall i, j :: 0 <= i < |points| && 0 <= j < |points| && m > 0 && points[i].jobCount <= points[j].jobCount ==>
      RadiusOf(points[i], m).value <= RadiusOf(points[j], m).value
  {
    forall i, j | 0 <= i < |points| && 0 <= j < |points|
      ensures RadiusOf(points[i], m).Some? <==> m > 0
      ensures m > 0 ==> 0.0 <= RadiusOf(points[i], m).value <= 500000.0
      ensures m > 0 && points[i].jobCount == m ==> RadiusOf(points[i], m).value == 500000.0
      ensures m > 0 && points[i].jobCount <= points[j].jobCount ==> RadiusOf(points[i], m).value <= RadiusOf(points[j], m).value
    {
      assert points[i] in points && points[j] in points;
      RadiusFacts(points[i], points[j], m);
    }
  }

  lemma RadiusFacts(p: Point, q: Point, m: nat)
    requires p.jobCount <= m && q.jobCount <= m
    ensures RadiusOf(p, m).Some? <==> m > 0
    ensures m > 0 ==> 0.0 <= RadiusOf(p, m).value <= 500000.0
    ensures m > 0 && p.jobCount == m ==> RadiusOf(p, m).value == 500000.0
    ensures m > 0 && p.jobCount <= q.jobCount ==> RadiusOf(p, m).value <= RadiusOf(q, m).value
  {
    if m > 0 {
      RadiusBound(p.jobCount as real, m as real);
      if p.jobCount <= q.jobCount {
        RadiusMono(p.jobCount as real, q.jobCount as real, m as real);
      }
      if p.jobCount == m {
        DivSelf(m as real);
      }
    }
  }

  lemma DivSelf(w: real)
    requires w > 0.0
    ensures w / w * 500000.0 == 500000.0
  {
    assert w / w == 1.0;
  }

  lemma RadiusBound(c: real, w: real)
    requires 0.0 <= c <= w && w > 0.0
    ensures 0.0 <= c / w * 500000.0 <= 500000.0
  {
    assert c / w * w == c;
  }

  lemma RadiusMono(a: real, b: real, w: real)
    requires a <= b && w > 0.0
    ensures a / w * 500000.0 <= b / w * 500000.0
  {
    assert b / w - a / w == (b - a) / w;
  }

  // ---------------------------------------------------------------------
  // The page

  /** The map over `job_country_summary`: merging on `country` needs the country
      builder's schema; the introduction builder's has no such column. */
  function LocationMap(t: Tables): (r: Result<seq<Bubble>, PageError>)
    ensures r.Ok? <==> JOB_COUNTRY_SUMMARY in t && t[JOB_COUNTRY_SUMMARY].CountryTable?
    ensures r.Ok? ==> r.value == Layer(MapData(t[JOB_COUNTRY_SUMMARY].countryRows, COUNTRY_COORDS))
    ensures JOB_COUNTRY_SUMMARY in t && t[JOB_COUNTRY_SUMMARY].IntroCountryTable? ==> r == Err(KeyError("country"))
  {
    match ReadFrame(t, JOB_COUNTRY_SUMMARY)
    case Err(e) => Err(e)
    case Ok(CountryTable(rows)) => Ok(Layer(MapData(rows, COUNTRY_COORDS)))
    case Ok(_) => Err(KeyError("country"))
  }

  /** Over the country builder's counts the map shows one bubble per country
      that has coordinates and at least one posting, none for the excluded
      values, and every radius is a number: the built counts are never zero. */
  lemma MapOfCountryCounts(jobs: seq<Job>)
    ensures var counts := Location.CountryCounts(jobs, Location.BoundIntended());
      var l := Layer(MapData(counts, COUNTRY_COORDS));
      |l| == |Filter(counts, HasCoords)|
      && (forall i :: 0 <= i < |l| ==>
            l[i].radius.Some?
            && l[i].point.jobCount == Count(Some(l[i].point.country), Location.JobCountries(jobs))
            && Some(l[i].point.country) !in Location.INVALID_COUNTRIES)
  {
    var points := MapData(Location.CountryCounts(jobs, Location.BoundIntended()), COUNTRY_COORDS);
    PointsOfCounts(jobs);
    LayerOfPositive(points);
  }

  /** When every count is positive, every bubble has a radius. */
  lemma LayerOfPositive(points: seq<Point>)
    requires forall i :: 0 <= i < |points| ==> points[i].jobCount >= 1
    ensures |Layer(points)| == |points|
    ensures forall i :: 0 <= i < |points| ==> Layer(points)[i].point == points[i] && Layer(points)[i].radius.Some?
  {
    LayerElems(points);
    if |points| > 0 {
      assert points[0] in points;
      RadiiFacts(points, MaxCount(points));
    }
  }

  /** The merged points of the built counts: each a country with at least one
      posting, counted as the builder counts it, never an excluded value. */
  lemma PointsOfCounts(jobs: seq<Job>)
    ensures var counts := Location.CountryCounts(jobs, Location.BoundIntended());
      var points := MapData(counts, COUNTRY_COORDS);
      |points| == |Filter(counts, HasCoords)|
      && forall i :: 0 <= i < |points| ==>
        points[i].jobCount == Count(Some(points[i].country), Location.JobCountries(jobs))
        && Some(points[i].country) !in Location.INVALID_COUNTRIES
        && points[i].jobCount >= 1
  {
    var counts := Location.CountryCounts(jobs, Location.BoundIntended());
    Location.CountryCountsSpec(jobs);
    var points := MapData(counts, COUNTRY_COORDS);
    MapDataSpec(counts);
    var kept := Filter(counts, HasCoords);
    forall i | 0 <= i < |points|
      ensures points[i].jobCount == Count(Some(points[i].country), Location.JobCountries(jobs))
      ensures Some(points[i].country) !in Location.INVALID_COUNTRIES
      ensures points[i].jobCount >= 1
    {
      assert kept[i] in counts;
      var k :| 0 <= k < |counts| && counts[k] == kept[i];
    }
  }

  /** After a rebuild the map is drawn from the country builder's counts. */
  lemma LocationMapAfterEnsure(file: App.DbFile, t: Tables, f: App.Frames, required: set<string>)
    requires !App.HasTables(file, t, required)
    ensures LocationMap(App.EnsureOf(file, t, f, required).tables)
      == Ok(Layer(MapData(Location.CountryCounts(f.jobs, Location.BoundIntended()), COUNTRY_COORDS)))
  {
    App.EnsureFromScratch(file, t, f, required);
  }
}
