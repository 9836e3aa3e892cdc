/** The plain Spark processor: `clean_data` keeps trips with both zones, a
    pickup time and a plausible total, and adds hour, day-of-week and month
    columns; `analyze_hot_routes` returns four tables. */
module SparkProcessor {
  import opened Stats
  import opened Trips
  import opened Calendar
  import opened Grouping
  import opened Sequences

  /** The filter of clean_data; distance and passenger count are not checked. */
  predicate CleanRow(t: Trip)
  {
    t.pickupId.Some? && t.dropoffId.Some? && t.pickupTime.Some? && Within(t.total, 0.0, 1000.0)
  }

  /** A cleaned trip with its calendar columns. */
  datatype TimedTrip = TimedTrip(trip: Trip, hour: int, dayOfWeek: int, month: int)

  function AddTime(t: Trip): TimedTrip
    requires t.pickupTime.Some?
  {
    var p := t.pickupTime.value;
    TimedTrip(t, Hour(p), DayOfWeek(p), Month(p))
  }

  /** clean_data, keeping row order. */
  function CleanData(rows: seq<Trip>): (r: seq<TimedTrip>)
    ensures |r| <= |rows|
  {
    if rows == [] then []
    else if CleanRow(rows[0]) then [AddTime(rows[0])] + CleanData(rows[1..])
    else CleanData(rows[1..])
  }

  /** The trip a cleaned row was made from. */
  function Untimed(c: TimedTrip): Trip { c.trip }

  /** clean_data keeps exactly the trips passing its filter, in their order,
      every copy of such a trip and nothing else; every kept row has both
      zones and a pickup time, a total in (0, 1000), and calendar columns
      that depend on the pickup time alone. */
  lemma {:induction false} CleanDataExact(rows: seq<Trip>)
    ensures forall c :: c in CleanData(rows) ==>
      && c.trip in rows && CleanRow(c.trip)
      && c.hour == Hour(c.trip.pickupTime.value) && 0 <= c.hour < 24
      && c.dayOfWeek == DayOfWeek(c.trip.pickupTime.value) && 1 <= c.dayOfWeek <= 7
      && c.month == Month(c.trip.pickupTime.value) && 1 <= c.month <= 12
    ensures forall t :: t in rows && CleanRow(t) ==> AddTime(t) in CleanData(rows)
    ensures var kept := Column(CleanData(rows), Untimed);
      && Subsequence(kept, rows)
      && forall t :: multiset(kept)[t] == if CleanRow(t) then multiset(rows)[t] else 0
  {
    if rows != [] {
      CleanDataExact(rows[1..]);
    }
    CleanDataFilters(rows);
    FilterExact(rows, CleanRow);
  }

  /** The trips behind the cleaned rows are the in-order filter of the input. */
  lemma {:induction false} CleanDataFilters(rows: seq<Trip>)
    ensures Column(CleanData(rows), Untimed) == Filter(rows, CleanRow)
  {
    if rows != [] {
      CleanDataFilters(rows[1..]);
      if CleanRow(rows[0]) {
        var rest := CleanData(rows[1..]);
        assert Column([AddTime(rows[0])] + rest, Untimed) == [rows[0]] + Column(rest, Untimed);
      }
    }
  }

  function RouteKey(c: TimedTrip): Option<Route> { RouteOf(c.trip) }
  function PickupKey(c: TimedTrip): Option<int> { c.trip.pickupId }
  function DropoffKey(c: TimedTrip): Option<int> { c.trip.dropoffId }
  function HourKey(c: TimedTrip): Option<int> { Some(c.hour) }

  function TimedDistance(c: TimedTrip): Option<real> { c.trip.distance }
  function TimedTotal(c: TimedTrip): Option<real> { c.trip.total }
  function TimedTip(c: TimedTrip): Option<real> { c.trip.tip }

  datatype RouteAverages = RouteAverages(avgDistance: Option<real>, avgFare: Option<real>, avgTip: Option<real>)

  /** Spark's `avg`, which skips nulls, of distance, total and tip. */
  function RouteAveragesOf(ts: seq<TimedTrip>): RouteAverages
  {
    RouteAverages(Avg(Column(ts, TimedDistance)), Avg(Column(ts, TimedTotal)), Avg(Column(ts, TimedTip)))
  }

  /** The count-only tables carry no other aggregate. */
  function NoStats(ts: seq<TimedTrip>): () { () }

  /** The four tables, in the order analyze_hot_routes returns them. */
  datatype Tables = Tables(
    hotRoutes: seq<Row<Route, RouteAverages>>,
    pickupHotspots: seq<Row<int, ()>>,
    dropoffHotspots: seq<Row<int, ()>>,
    hourlyTraffic: seq<Row<int, ()>>)

  /** Busiest routes first, at most 100, no minimum count. */
  function HotRoutes(ts: seq<TimedTrip>): seq<Row<Route, RouteAverages>>
  {
    Summarize(Top(ts, RouteKey, Size, None, Some(100)), Size, RouteAveragesOf)
  }

  /** Every pickup zone, busiest first. */
  function PickupHotspots(ts: seq<TimedTrip>): seq<Row<int, ()>>
  {
    Summarize(Top(ts, PickupKey, Size, None, None), Size, NoStats)
  }

  /** Every dropoff zone, busiest first. */
  function DropoffHotspots(ts: seq<TimedTrip>): seq<Row<int, ()>>
  {
    Summarize(Top(ts, DropoffKey, Size, None, None), Size, NoStats)
  }

  function HourlyTraffic(ts: seq<TimedTrip>): seq<Row<int, ()>>
  {
    Summarize(ByKey(ts, HourKey), Size, NoStats)
  }

  /** analyze_hot_routes. */
  function AnalyzeHotRoutes(ts: seq<TimedTrip>): Tables
  {
    Tables(HotRoutes(ts), PickupHotspots(ts), DropoffHotspots(ts), HourlyTraffic(ts))
  }

  /** hot_routes: at most 100 rows, each route once, busiest first, with
      exact counts and averages. */
  lemma HotRoutesRanked(ts: seq<TimedTrip>)
    ensures var r := HotRoutes(ts);
      && |r| <= 100
      && (forall i, j :: 0 <= i < j < |r| ==> r[i].key != r[j].key && r[i].count >= r[j].count)
      && (forall i :: 0 <= i < |r| ==>
            r[i].count == |Select(ts, RouteKey, r[i].key)| > 0 &&
            r[i].stats == RouteAveragesOf(Select(ts, RouteKey, r[i].key)))
  {
    TopRows(ts, RouteKey, Size, None, Some(100), RouteAveragesOf);
  }

  /** With no minimum count, any route of a cleaned trip, even one seen
      once, is listed unless 100 routes at least as busy fill the table. */
  lemma HotRoutesHaveNoMinimum(rows: seq<Trip>, t: Trip)
    requires t in rows && CleanRow(t)
    ensures var ts := CleanData(rows);
      var r := HotRoutes(ts);
      var k := Route(t.pickupId.value, t.dropoffId.value);
      || (exists i :: 0 <= i < |r| && r[i].key == k)
      || (|r| == 100 && forall i :: 0 <= i < |r| ==> r[i].count >= |Select(ts, RouteKey, k)|)
  {
    var ts := CleanData(rows);
    CleanDataExact(rows);
    TopRowsComplete(ts, RouteKey, Size, None, Some(100), RouteAveragesOf, AddTime(t));
  }

  /** pickup_hotspots is not truncated: one row per pickup zone present, each
      zone once, busiest first, and the counts add up to the rows. */
  lemma PickupHotspotsComplete(ts: seq<TimedTrip>)
    requires forall c :: c in ts ==> c.trip.pickupId.Some?
    ensures var r := PickupHotspots(ts);
      && (forall i, j :: 0 <= i < j < |r| ==> r[i].key != r[j].key && r[i].count >= r[j].count)
      && (forall i :: 0 <= i < |r| ==> r[i].count == |Select(ts, PickupKey, r[i].key)| > 0)
      && (forall c :: c in ts ==> exists i :: 0 <= i < |r| && r[i].key == c.trip.pickupId.value)
      && Counts(r) == |ts|
  {
    TopRows(ts, PickupKey, Size, None, None, NoStats);
    var r := PickupHotspots(ts);
    forall c | c in ts ensures exists i :: 0 <= i < |r| && r[i].key == c.trip.pickupId.value {
      TopRowsComplete(ts, PickupKey, Size, None, None, NoStats, c);
    }
    TopRowsTotal(ts, PickupKey, Size, NoStats);
    KeyedAll(ts, PickupKey);
  }

  /** dropoff_hotspots is not truncated either. */
  lemma DropoffHotspotsComplete(ts: seq<TimedTrip>)
    requires forall c :: c in ts ==> c.trip.dropoffId.Some?
    ensures var r := DropoffHotspots(ts);
      && (forall i, j :: 0 <= i < j < |r| ==> r[i].key != r[j].key && r[i].count >= r[j].count)
      && (forall i :: 0 <= i < |r| ==> r[i].count == |Select(ts, DropoffKey, r[i].key)| > 0)
      && (forall c :: c in ts ==> exists i :: 0 <= i < |r| && r[i].key == c.trip.dropoffId.value)
      && Counts(r) == |ts|
  {
    TopRows(ts, DropoffKey, Size, None, None, NoStats);
    var r := DropoffHotspots(ts);
    forall c | c in ts ensures exists i :: 0 <= i < |r| && r[i].key == c.trip.dropoffId.value {
      TopRowsComplete(ts, DropoffKey, Size, None, None, NoStats, c);
    }
    TopRowsTotal(ts, DropoffKey, Size, NoStats);
    KeyedAll(ts, DropoffKey);
  }

  /** Cleaned rows always have both zones, so both hotspot tables are complete. */
  lemma CleanRowsHaveZones(rows: seq<Trip>)
    ensures forall c :: c in CleanData(rows) ==> c.trip.pickupId.Some? && c.trip.dropoffId.Some?
  {
    CleanDataExact(rows);
  }

  /** hourly_traffic: one row per hour present, ascending, with exact counts
      adding up to the rows. */
  lemma HourlyTrafficOrdered(ts: seq<TimedTrip>)
    ensures var r := HourlyTraffic(ts);
      && (forall i, j :: 0 <= i < j < |r| ==> r[i].key < r[j].key)
      && (forall i :: 0 <= i < |r| ==> r[i].count == |Select(ts, HourKey, r[i].key)| > 0)
      && (forall c :: c in ts ==> exists i :: 0 <= i < |r| && r[i].key == c.hour)
      && Counts(r) == |ts|
  {
    ByKeyRows(ts, HourKey, Size, NoStats);
    ByKeyRowsTotal(ts, HourKey, Size, NoStats);
    KeyedAll(ts, HourKey);
  }
}
