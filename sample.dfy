/** The stand-alone sample analysis: no cleaning, a text label per route,
    and three tables counted by non-null total_amount. Reading the CSV and
    writing the tables are left out; the trips are a parameter. */
module SampleAnalysis {
  import opened Stats
  import opened Trips
  import opened Text
  import opened Grouping
  import PandasProcessor
  import Calendar

  /** Index of the first c in s, or |s| when there is none. */
  function IndexOf(s: string, c: char): (i: nat)
    ensures i <= |s|
    ensures i < |s| ==> s[i] == c
    ensures forall j :: 0 <= j < i ==> s[j] != c
  {
    if s == [] then 0 else if s[0] == c then 0 else 1 + IndexOf(s[1..], c)
  }

  /** The route column: both zone ids rendered as text around "->". */
  function RouteLabel(r: Route): string
  {
    IntToString(r.pickupId) + "->" + IntToString(r.dropoffId)
  }

  /** Reads a label back: the text before the first "->" and the text after
      it must both be integers. */
  function ParseRouteLabel(s: string): Option<Route>
  {
    var i := IndexOf(s, '>');
    if 1 <= i < |s| && s[i - 1] == '-' then
      match (ParseInt(s[..i - 1]), ParseInt(s[i + 1..]))
      case (Some(a), Some(b)) => Some(Route(a, b))
      case _ => None
    else None
  }

  /** Searching past a prefix free of c adds the prefix's length. */
  lemma {:induction false} IndexOfAfter(a: string, b: string, c: char)
    requires c !in a
    ensures IndexOf(a + b, c) == |a| + IndexOf(b, c)
  {
    if a != [] {
      assert (a + b)[1..] == a[1..] + b;
      IndexOfAfter(a[1..], b, c);
    } else {
      assert a + b == b;
    }
  }

  /** Every label reads back as its route, so two routes never share a label. */
  lemma RouteLabelRoundTrip(r: Route)
    ensures ParseRouteLabel(RouteLabel(r)) == Some(r)
  {
    var a := IntToString(r.pickupId);
    var b := IntToString(r.dropoffId);
    var s := RouteLabel(r);
    assert s == a + ("->" + b);
    IndexOfAfter(a, "->" + b, '>');
    assert IndexOf(s, '>') == |a| + 1;
    assert s[..|a|] == a;
    assert s[|a| + 2..] == b;
    ParseRendering(r.pickupId);
    ParseRendering(r.dropoffId);
  }

  lemma RouteLabelInjective(r1: Route, r2: Route)
    requires RouteLabel(r1) == RouteLabel(r2)
    ensures r1 == r2
  {
    RouteLabelRoundTrip(r1);
    RouteLabelRoundTrip(r2);
  }

  /** The aggregates of a route: the label, and pandas' mean and sum of the
      totals, which skip NaN (the sum of no values is 0). */
  datatype RouteFares = RouteFares(route: string, avgFare: Option<real>, totalFare: real)

  datatype Distances = Distances(avgDistance: Option<real>)

  /** The route of a group of trips, all of which share one. */
  function LabelOf(ts: seq<Trip>): string
  {
    if ts != [] && RouteOf(ts[0]).Some? then RouteLabel(RouteOf(ts[0]).value) else ""
  }

  function RouteFaresOf(ts: seq<Trip>): RouteFares
  {
    RouteFares(LabelOf(ts), Avg(Column(ts, TotalOf)), SumPresent(Column(ts, TotalOf)))
  }

  function DistancesOf(ts: seq<Trip>): Distances
  {
    Distances(Avg(Column(ts, DistanceOf)))
  }

  /** Every route, by descending count of non-null totals. */
  function HotRoutes(rows: seq<Trip>): seq<Row<Route, RouteFares>>
  {
    Summarize(Top(rows, RouteOf, PandasProcessor.TotalCount, None, None), PandasProcessor.TotalCount, RouteFaresOf)
  }

  /** Every pickup zone, by descending count of non-null totals. */
  function PickupHotspots(rows: seq<Trip>): seq<Row<int, Distances>>
  {
    Summarize(Top(rows, PickupZone, PandasProcessor.TotalCount, None, None), PandasProcessor.TotalCount, DistancesOf)
  }

  /** Every pickup hour, ascending, as pandas' groupby orders its keys. */
  function HourlyTraffic(rows: seq<Trip>): seq<Row<int, Distances>>
  {
    Summarize(ByKey(rows, PandasProcessor.PickupHour), PandasProcessor.TotalCount, DistancesOf)
  }

  datatype Tables = Tables(
    hotRoutes: seq<Row<Route, RouteFares>>,
    pickupHotspots: seq<Row<int, Distances>>,
    hourlyTraffic: seq<Row<int, Distances>>)

  /** analyze_data, returning its three tables in order. */
  function AnalyzeData(rows: seq<Trip>): Tables
  {
    Tables(HotRoutes(rows), PickupHotspots(rows), HourlyTraffic(rows))
  }

  /** A route's total fare is its mean fare times its count, when it has a mean. */
  predicate SumIsMeanTimesCount(f: RouteFares, count: int)
  {
    f.avgFare.Some? ==> f.avgFare.value * count as real == f.totalFare
  }

  /** The aggregates of one route's trips: the label names the route and
      reads back as it; the mean is missing exactly when no total is
      present, and otherwise times the count of totals gives the sum. */
  lemma RouteFaresOfGroup(ts: seq<Trip>, k: Route)
    requires ts != [] && forall t :: t in ts ==> RouteOf(t) == Some(k)
    ensures var f := RouteFaresOf(ts);
      && f.route == RouteLabel(k)
      && ParseRouteLabel(f.route) == Some(k)
      && (f.avgFare.Some? <==> PandasProcessor.TotalCount(ts) > 0)
      && SumIsMeanTimesCount(f, PandasProcessor.TotalCount(ts))
  {
    assert RouteOf(ts[0]) == Some(k);
    var col := Column(ts, TotalOf);
    var f := RouteFaresOf(ts);
    assert f == RouteFares(RouteLabel(k), Avg(col), SumPresent(col));
    RouteLabelRoundTrip(k);
    assert PandasProcessor.TotalCount(ts) == CountPresent(col);
  }

  /** hot_routes: each route once, busiest first, uncut and without a
      minimum, with the count of exactly the route's non-null totals. */
  lemma HotRoutesRanked(rows: seq<Trip>)
    ensures var r := HotRoutes(rows);
      && (forall i, j :: 0 <= i < j < |r| ==> r[i].key != r[j].key && r[i].count >= r[j].count)
      && (forall i :: 0 <= i < |r| ==>
            && r[i].count == PandasProcessor.TotalCount(Select(rows, RouteOf, r[i].key))
            && r[i].stats == RouteFaresOf(Select(rows, RouteOf, r[i].key)))
      && (forall t :: t in rows && RouteOf(t).Some? ==> exists i :: 0 <= i < |r| && r[i].key == RouteOf(t).value)
  {
    TopRows(rows, RouteOf, PandasProcessor.TotalCount, None, None, RouteFaresOf);
    var r := HotRoutes(rows);
    forall t | t in rows && RouteOf(t).Some? ensures exists i :: 0 <= i < |r| && r[i].key == RouteOf(t).value {
      TopRowsComplete(rows, RouteOf, PandasProcessor.TotalCount, None, None, RouteFaresOf, t);
    }
  }

  /** Each hot_routes row's label names its route, and its mean fare times
      its count is its total fare; a route whose totals are all missing keeps
      its row with count 0 and no mean. */
  lemma HotRouteFares(rows: seq<Trip>, i: nat)
    requires i < |HotRoutes(rows)|
    ensures var row := HotRoutes(rows)[i];
      && row.stats.route == RouteLabel(row.key)
      && ParseRouteLabel(row.stats.route) == Some(row.key)
      && (row.stats.avgFare.Some? <==> row.count > 0)
      && SumIsMeanTimesCount(row.stats, row.count)
  {
    var r := HotRoutes(rows);
    HotRoutesRanked(rows);
    var k := r[i].key;
    var s := Select(rows, RouteOf, k);
    assert r[i].count == PandasProcessor.TotalCount(s) && r[i].stats == RouteFaresOf(s);
    assert s != [] by {
      TopRows(rows, RouteOf, PandasProcessor.TotalCount, None, None, RouteFaresOf);
    }
    RouteFaresOfGroup(s, k);
  }

  /** pickup_hotspots: every pickup zone once, busiest first, with the count
      of non-null totals and the mean distance of exactly that zone's trips. */
  lemma PickupHotspotsRanked(rows: seq<Trip>)
    ensures var r := PickupHotspots(rows);
      && (forall i, j :: 0 <= i < j < |r| ==> r[i].key != r[j].key && r[i].count >= r[j].count)
      && (forall i :: 0 <= i < |r| ==>
            && r[i].count == PandasProcessor.TotalCount(Select(rows, PickupZone, r[i].key))
            && r[i].stats == DistancesOf(Select(rows, PickupZone, r[i].key)))
      && (forall t :: t in rows && t.pickupId.Some? ==> exists i :: 0 <= i < |r| && r[i].key == t.pickupId.value)
  {
    TopRows(rows, PickupZone, PandasProcessor.TotalCount, None, None, DistancesOf);
    var r := PickupHotspots(rows);
    forall t | t in rows && t.pickupId.Some? ensures exists i :: 0 <= i < |r| && r[i].key == t.pickupId.value {
      TopRowsComplete(rows, PickupZone, PandasProcessor.TotalCount, None, None, DistancesOf, t);
    }
  }

  /** hourly_traffic: hours strictly ascending, all within 0..23, one row
      for each hour some trip was picked up in. */
  lemma HourlyTrafficOrdered(rows: seq<Trip>)
    ensures var r := HourlyTraffic(rows);
      && (forall i, j :: 0 <= i < j < |r| ==> r[i].key < r[j].key)
      && (forall i :: 0 <= i < |r| ==>
            && 0 <= r[i].key < 24
            && r[i].count == PandasProcessor.TotalCount(Select(rows, PandasProcessor.PickupHour, r[i].key))
            && r[i].stats == DistancesOf(Select(rows, PandasProcessor.PickupHour, r[i].key)))
      && (forall t :: t in rows && t.pickupTime.Some? ==>
            exists i :: 0 <= i < |r| && r[i].key == Calendar.Hour(t.pickupTime.value))
  {
    ByKeyRows(rows, PandasProcessor.PickupHour, PandasProcessor.TotalCount, DistancesOf);
    var r := HourlyTraffic(rows);
    forall i | 0 <= i < |r| ensures 0 <= r[i].key < 24 {
      var s := Select(rows, PandasProcessor.PickupHour, r[i].key);
      assert PandasProcessor.PickupHour(s[0]) == Some(r[i].key);
    }
  }
}
