/** A worked example of the pandas hot-routes table: ten trips, six on
    route 5 -> 10 and four on route 7 -> 9, of which only the first route
    clears the minimum of more than 5 trips. */
module HotRouteScenario {
  import opened Stats
  import opened Trips
  import opened Grouping
  import opened Sequences
  import opened PandasProcessor

  /** The key of row i, when every row carries key k. */
  lemma RowKey<K, S>(r: seq<Row<K, S>>, k: K, i: nat)
    requires i < |r| && forall j :: 0 <= j < |r| ==> r[j].key == k
    ensures r[i].key == k
  {
  }

  /** Rows with distinct keys that all carry one key are at most one row. */
  lemma OneKeyOneRow<K, S>(r: seq<Row<K, S>>, k: K)
    requires forall i :: 0 <= i < |r| ==> r[i].key == k
    requires forall i, j :: 0 <= i < j < |r| ==> r[i].key != r[j].key
    ensures |r| <= 1
  {
    if |r| >= 2 {
      RowKey(r, k, 0);
      RowKey(r, k, 1);
      assert false;
    }
  }

  const ShortTrip := Trip(Some(5), Some(10), None, None, Some(1), Some(2.0), None, None, Some(12.0))
  const LongTrip := Trip(Some(7), Some(9), None, None, Some(1), Some(5.0), None, None, Some(20.0))

  /** Six trips 5 -> 10 at 12.0 over 2.0 miles, then four trips 7 -> 9 at
      20.0 over 5.0 miles. */
  function ScenarioTrips(): seq<Trip>
  {
    Repeat(ShortTrip, 6) + Repeat(LongTrip, 4)
  }

  /** The scenario's trips of route 5 -> 10 are the six short ones. */
  lemma ScenarioShortRoute()
    ensures Select(ScenarioTrips(), RouteOf, Route(5, 10)) == Repeat(ShortTrip, 6)
  {
    var k := Route(5, 10);
    SelectAppend(Repeat(ShortTrip, 6), Repeat(LongTrip, 4), RouteOf, k);
    SelectUniform(Repeat(ShortTrip, 6), RouteOf, k);
    SelectAbsent(Repeat(LongTrip, 4), RouteOf, k);
  }

  /** The scenario's trips of route 7 -> 9 are the four long ones. */
  lemma ScenarioLongRoute()
    ensures Select(ScenarioTrips(), RouteOf, Route(7, 9)) == Repeat(LongTrip, 4)
  {
    var k := Route(7, 9);
    SelectAppend(Repeat(ShortTrip, 6), Repeat(LongTrip, 4), RouteOf, k);
    SelectAbsent(Repeat(ShortTrip, 6), RouteOf, k);
    SelectUniform(Repeat(LongTrip, 4), RouteOf, k);
  }

  /** Every counted route of the scenario is one of its two routes, and
      every scenario trip has its total, so counts are numbers of trips. */
  lemma ScenarioRouteCount(k: Route)
    ensures var s := Select(ScenarioTrips(), RouteOf, k);
      TotalCount(s) == |s| && (s != [] ==> k == Route(5, 10) || k == Route(7, 9))
  {
    var s := Select(ScenarioTrips(), RouteOf, k);
    TotalCountOfComplete(s);
    if s != [] {
      assert s[0] in ScenarioTrips();
    }
  }

  /** The averages of the six short trips. */
  lemma ScenarioShortFares()
    ensures RouteFaresOf(Repeat(ShortTrip, 6)) == RouteFares(Some(12.0), Some(2.0))
  {
    var s := Repeat(ShortTrip, 6);
    assert Column(s, TotalOf) == AllPresent([12.0, 12.0, 12.0, 12.0, 12.0, 12.0]);
    assert Column(s, DistanceOf) == AllPresent([2.0, 2.0, 2.0, 2.0, 2.0, 2.0]);
    AvgOfPresent([12.0, 12.0, 12.0, 12.0, 12.0, 12.0]);
    AvgOfPresent([2.0, 2.0, 2.0, 2.0, 2.0, 2.0]);
  }

  /** Every hot route of the scenario is 5 -> 10: 7 -> 9 is seen only four
      times, and no other route is seen at all. */
  lemma ScenarioHotKeys()
    ensures var r := HotRoutes(ScenarioTrips());
      forall i :: 0 <= i < |r| ==> r[i].key == Route(5, 10)
  {
    var r := HotRoutes(ScenarioTrips());
    HotRoutesRanked(ScenarioTrips());
    forall i | 0 <= i < |r| ensures r[i].key == Route(5, 10) {
      ScenarioRouteCount(r[i].key);
      ScenarioLongRoute();
    }
  }

  /** The scenario's hot routes are the one row of route 5 -> 10. */
  lemma ScenarioOneHotRoute()
    ensures var r := HotRoutes(ScenarioTrips());
      |r| == 1 && r[0].key == Route(5, 10)
  {
    var rows := ScenarioTrips();
    var r := HotRoutes(rows);
    HotRoutesRanked(rows);
    ScenarioHotKeys();
    OneKeyOneRow(r, Route(5, 10));
    ScenarioShortRoute();
    ScenarioRouteCount(Route(5, 10));
    assert ShortTrip in rows by {
      assert rows[0] == ShortTrip;
    }
    TopRowsComplete(rows, RouteOf, TotalCount, Some(5), Some(100), RouteFaresOf, ShortTrip);
  }

  /** Only the route seen six times clears the minimum of more than 5; the
      one seen four times is excluded. */
  lemma ScenarioHotRoutes()
    ensures HotRoutes(ScenarioTrips()) == [Row(Route(5, 10), 6, RouteFares(Some(12.0), Some(2.0)))]
  {
    var r := HotRoutes(ScenarioTrips());
    ScenarioOneHotRoute();
    HotRoutesRanked(ScenarioTrips());
    var short := Select(ScenarioTrips(), RouteOf, Route(5, 10));
    ScenarioShortRoute();
    ScenarioRouteCount(Route(5, 10));
    assert r[0].count == TotalCount(short) == 6;
    ScenarioShortFares();
    assert r[0].stats == RouteFaresOf(short) == RouteFares(Some(12.0), Some(2.0));
    assert r == [r[0]];
  }
}
