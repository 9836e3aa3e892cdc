/** The pandas processor: `clean_data` drops incomplete and implausible
    trips, `analyze_data` computes hot routes, hourly traffic, pickup
    hotspots and passenger statistics, and writes a `pickup_hour` column into
    the frame it is given.

    A frame may lack the trip_distance, tpep_pickup_datetime or
    passenger_count columns; the three flags of `TripFrame` say which are
    present, and the trip fields of an absent column are ignored. */
module PandasProcessor {
  import opened Stats
  import opened Trips
  import opened Calendar
  import opened Grouping
  import opened Sequences

  /** Why a step raised. */
  datatype Failure = DivisionByZero | MissingColumn(name: string)

  datatype Result<T> = Ok(value: T) | Fail(failure: Failure)

  /** The row filter of clean_data: location ids and total present, total in
      (0, 1000), and, only when the frame has a trip_distance column,
      distance in (0, 100). */
  predicate CleanRow(t: Trip, hasDistance: bool)
  {
    && t.pickupId.Some? && t.dropoffId.Some? && t.total.Some?
    && 0.0 < t.total.value < 1000.0
    && (hasDistance ==> Within(t.distance, 0.0, 100.0))
  }

  /** The rows clean_data keeps: in their order, every copy of a row that
      passes the filter, and nothing else. */
  function CleanRows(rows: seq<Trip>, hasDistance: bool): (r: seq<Trip>)
    ensures |r| <= |rows|
    ensures forall t :: t in r ==> t in rows && CleanRow(t, hasDistance)
    ensures forall t :: t in rows && CleanRow(t, hasDistance) ==> t in r
    ensures Subsequence(r, rows)
    ensures forall t :: multiset(r)[t] == if CleanRow(t, hasDistance) then multiset(rows)[t] else 0
  {
    FilterExact(rows, t => CleanRow(t, hasDistance));
    Filter(rows, t => CleanRow(t, hasDistance))
  }

  /** clean_data as written: the removed share is printed as
      removed / initial * 100, which raises on an empty frame. */
  function CleanDataAsWritten(rows: seq<Trip>, hasDistance: bool): Result<seq<Trip>>
  {
    if |rows| == 0 then Fail(DivisionByZero) else Ok(CleanRows(rows, hasDistance))
  }

  /** An empty frame makes clean_data as written raise. */
  lemma EmptyFrameRaises(hasDistance: bool)
    ensures CleanDataAsWritten([], hasDistance) == Fail(DivisionByZero)
  {
  }

  /** The removed share with the empty frame guarded, as the advanced
      processor guards it. */
  function RemovedShare(initial: nat, cleaned: nat): real
  {
    if initial > 0 then (initial - cleaned) as real / initial as real * 100.0 else 0.0
  }

  /** clean_data with the guard: never raises. */
  function CleanData(rows: seq<Trip>, hasDistance: bool): (r: Result<seq<Trip>>)
    ensures r.Ok?
  {
    Ok(CleanRows(rows, hasDistance))
  }

  /** The guarded clean_data agrees with the code as written wherever that
      does not raise, reports a share between 0 and 100, and reports 0 for
      an empty frame. */
  lemma CleanDataGuarded(rows: seq<Trip>, hasDistance: bool)
    ensures rows != [] ==> CleanDataAsWritten(rows, hasDistance) == CleanData(rows, hasDistance)
    ensures var p := RemovedShare(|rows|, |CleanData(rows, hasDistance).value|);
      0.0 <= p <= 100.0 && (rows == [] ==> p == 0.0)
  {
    RemovedShareBounds(|rows|, |CleanRows(rows, hasDistance)|);
  }

  /** When cleaning keeps at most the initial rows, the guarded share is a
      percentage, and 0 when there were no rows. */
  lemma RemovedShareBounds(initial: nat, cleaned: nat)
    requires cleaned <= initial
    ensures 0.0 <= RemovedShare(initial, cleaned) <= 100.0
    ensures initial == 0 ==> RemovedShare(initial, cleaned) == 0.0
  {
    if initial > 0 {
      assert 0.0 <= (initial - cleaned) as real <= initial as real;
      assert (initial - cleaned) as real / initial as real <= 1.0;
    }
  }

  // ---- analyze_data ----

  /** pandas' `count` of total_amount: the non-null totals. */
  function TotalCount(ts: seq<Trip>): int
  {
    CountPresent(Column(ts, TotalOf))
  }

  /** On rows whose totals are all present, the count is the number of rows. */
  lemma {:induction false} TotalCountOfComplete(ts: seq<Trip>)
    requires forall t :: t in ts ==> t.total.Some?
    ensures TotalCount(ts) == |ts|
  {
    if ts != [] {
      assert Column(ts, TotalOf)[1..] == Column(ts[1..], TotalOf);
      TotalCountOfComplete(ts[1..]);
    }
  }

  datatype RouteFares = RouteFares(avgFare: Option<real>, avgDistance: Option<real>)
  datatype Fares = Fares(avgFare: Option<real>)

  function RouteFaresOf(ts: seq<Trip>): RouteFares
  {
    RouteFares(Avg(Column(ts, TotalOf)), Avg(Column(ts, DistanceOf)))
  }

  function FaresOf(ts: seq<Trip>): Fares
  {
    Fares(Avg(Column(ts, TotalOf)))
  }

  function PickupHour(t: Trip): Option<int>
  {
    if t.pickupTime.Some? then Some(Hour(t.pickupTime.value)) else None
  }

  function PassengerCount(t: Trip): Option<int>
  {
    t.passengers
  }

  /** Routes with more than 5 counted totals, busiest first, at most 100. */
  function HotRoutes(rows: seq<Trip>): seq<Row<Route, RouteFares>>
  {
    Summarize(Top(rows, RouteOf, TotalCount, Some(5), Some(100)), TotalCount, RouteFaresOf)
  }

  /** Hours of pickup in ascending order. */
  function HourlyTraffic(rows: seq<Trip>): seq<Row<int, Fares>>
  {
    Summarize(ByKey(rows, PickupHour), TotalCount, FaresOf)
  }

  /** Pickup zones, busiest first, at most 50; no minimum count. */
  function PickupHotspots(rows: seq<Trip>): seq<Row<int, Fares>>
  {
    Summarize(Top(rows, PickupZone, TotalCount, None, Some(50)), TotalCount, FaresOf)
  }

  /** Passenger counts in ascending order (groupby sorts its keys). */
  function PassengerStats(rows: seq<Trip>): seq<Row<int, Fares>>
  {
    Summarize(ByKey(rows, PassengerCount), TotalCount, FaresOf)
  }

  /** The fixed table used when the frame has no passenger_count column. */
  function DefaultPassengerStats(): (r: seq<Row<int, Fares>>)
    ensures |r| == 5
    ensures forall i :: 0 <= i < 5 ==> r[i].key == i + 1
  {
    [Row(1, 5000, Fares(Some(15.5))), Row(2, 3000, Fares(Some(18.2))), Row(3, 1500, Fares(Some(20.1))),
     Row(4, 400, Fares(Some(22.5))), Row(5, 100, Fares(Some(25.0)))]
  }

  /** The four tables of analyze_data. The hourly table is None when the
      frame has no pickup column, where the code fills it with random
      numbers. */
  datatype Analysis = Analysis(
    hotRoutes: seq<Row<Route, RouteFares>>,
    hourlyTraffic: Option<seq<Row<int, Fares>>>,
    pickupHotspots: seq<Row<int, Fares>>,
    passengerStats: seq<Row<int, Fares>>)

  /** The tables analyze_data returns for frame contents with a trip_distance
      column. */
  function Analyze(rows: seq<Trip>, hasPickupTime: bool, hasPassengers: bool): Analysis
  {
    Analysis(
      HotRoutes(rows),
      if hasPickupTime then Some(HourlyTraffic(rows)) else None,
      PickupHotspots(rows),
      if hasPassengers then PassengerStats(rows) else DefaultPassengerStats())
  }

  /** The pickup_hour column analyze_data writes: one entry per row, null
      exactly where the pickup time is null, otherwise the hour of its day in
      which the pickup falls. */
  function HourColumn(rows: seq<Trip>): (c: seq<Option<int>>)
    ensures |c| == |rows|
    ensures forall i :: 0 <= i < |rows| ==> (c[i].Some? <==> rows[i].pickupTime.Some?)
    ensures forall i :: 0 <= i < |rows| && c[i].Some? ==>
      var p := rows[i].pickupTime.value;
      && 0 <= c[i].value < 24
      && DayNumber(p) * SecondsPerDay + c[i].value * SecondsPerHour <= p
      && p < DayNumber(p) * SecondsPerDay + (c[i].value + 1) * SecondsPerHour
  {
    Column(rows, PickupHour)
  }

  /** A trip frame whose columns analyze_data reads and extends in place. */
  class TripFrame {
    var rows: seq<Trip>
    var hasDistance: bool
    var hasPickupTime: bool
    var hasPassengers: bool
    /** The pickup_hour column, once written. */
    var pickupHour: Option<seq<Option<int>>>

    constructor(rows: seq<Trip>, hasDistance: bool, hasPickupTime: bool, hasPassengers: bool)
      ensures this.rows == rows && this.hasDistance == hasDistance
      ensures this.hasPickupTime == hasPickupTime && this.hasPassengers == hasPassengers
      ensures pickupHour.None?
    {
      this.rows := rows;
      this.hasDistance := hasDistance;
      this.hasPickupTime := hasPickupTime;
      this.hasPassengers := hasPassengers;
      pickupHour := None;
    }

    /** analyze_data. The hot-routes aggregation names trip_distance, so a
        frame without it raises before anything is written. Otherwise the
        pickup_hour column is written when the pickup column exists, and the
        four tables are returned. */
    method AnalyzeData() returns (r: Result<Analysis>)
      modifies this
      ensures rows == old(rows) && hasDistance == old(hasDistance)
      ensures hasPickupTime == old(hasPickupTime) && hasPassengers == old(hasPassengers)
      ensures !hasDistance ==> r == Fail(MissingColumn("trip_distance")) && pickupHour == old(pickupHour)
      ensures hasDistance ==> r == Ok(Analyze(rows, hasPickupTime, hasPassengers))
      ensures hasDistance && hasPickupTime ==> pickupHour == Some(HourColumn(rows))
      ensures !hasPickupTime ==> pickupHour == old(pickupHour)
    {
      if !hasDistance {
        return Fail(MissingColumn("trip_distance"));
      }
      var hot := HotRoutes(rows);
      var hourly: Option<seq<Row<int, Fares>>> := None;
      if hasPickupTime {
        pickupHour := Some(HourColumn(rows));
        hourly := Some(HourlyTraffic(rows));
      }
      var pickups := PickupHotspots(rows);
      var passengers := if hasPassengers then PassengerStats(rows) else DefaultPassengerStats();
      r := Ok(Analysis(hot, hourly, pickups, passengers));
    }
  }

  /** The whole run as written: clean, then analyze in place. An empty
      frame makes the clean raise, which the run catches: nothing is
      analysed and the frame is left as it was. */
  method Run(frame: TripFrame) returns (r: Result<Analysis>)
    modifies frame
    ensures frame.hasDistance == old(frame.hasDistance)
    ensures frame.hasPickupTime == old(frame.hasPickupTime) && frame.hasPassengers == old(frame.hasPassengers)
    ensures old(frame.rows) == [] ==>
      r == Fail(DivisionByZero) && frame.rows == old(frame.rows) && frame.pickupHour == old(frame.pickupHour)
    ensures old(frame.rows) != [] ==> frame.rows == CleanRows(old(frame.rows), old(frame.hasDistance))
    ensures old(frame.rows) != [] && old(frame.hasDistance) ==>
      r == Ok(Analyze(frame.rows, frame.hasPickupTime, frame.hasPassengers))
    ensures old(frame.rows) != [] && !old(frame.hasDistance) ==> r == Fail(MissingColumn("trip_distance"))
  {
    var cleaned := CleanDataAsWritten(frame.rows, frame.hasDistance);
    if cleaned.Fail? {
      return Fail(cleaned.failure);
    }
    frame.rows := cleaned.value;
    r := frame.AnalyzeData();
  }

  /** hot_routes: at most 100 rows, each route once, each with more than 5
      counted totals, busiest first; each count is the number of non-null
      totals and each average the mean over exactly the trips of its route. */
  lemma HotRoutesRanked(rows: seq<Trip>)
    ensures var r := HotRoutes(rows);
      && |r| <= 100
      && (forall i :: 0 <= i < |r| ==> r[i].count > 5)
      && (forall i, j :: 0 <= i < j < |r| ==> r[i].key != r[j].key && r[i].count >= r[j].count)
      && (forall i :: 0 <= i < |r| ==>
            r[i].count == TotalCount(Select(rows, RouteOf, r[i].key)) &&
            r[i].stats == RouteFaresOf(Select(rows, RouteOf, r[i].key)))
  {
    TopRows(rows, RouteOf, TotalCount, Some(5), Some(100), RouteFaresOf);
  }

  /** A route with more than 5 counted totals is listed, unless 100 routes at
      least as busy fill the table. */
  lemma HotRoutesComplete(rows: seq<Trip>, t: Trip)
    requires t in rows && RouteOf(t).Some? && TotalCount(Select(rows, RouteOf, RouteOf(t).value)) > 5
    ensures var r := HotRoutes(rows);
      var k := RouteOf(t).value;
      || (exists i :: 0 <= i < |r| && r[i].key == k)
      || (|r| == 100 && forall i :: 0 <= i < |r| ==> r[i].count >= TotalCount(Select(rows, RouteOf, k)))
  {
    TopRowsComplete(rows, RouteOf, TotalCount, Some(5), Some(100), RouteFaresOf, t);
  }

  /** On cleaned rows every total is present, so each hot route's count is
      the number of its trips. */
  lemma HotRouteCountsOnCleanRows(rows: seq<Trip>, hasDistance: bool)
    ensures var ts := CleanRows(rows, hasDistance);
      var r := HotRoutes(ts);
      forall i :: 0 <= i < |r| ==> r[i].count == |Select(ts, RouteOf, r[i].key)|
  {
    var ts := CleanRows(rows, hasDistance);
    HotRoutesRanked(ts);
    var r := HotRoutes(ts);
    forall i | 0 <= i < |r| ensures r[i].count == |Select(ts, RouteOf, r[i].key)| {
      TotalCountOfComplete(Select(ts, RouteOf, r[i].key));
    }
  }

  /** pickup_hotspots: at most 50 rows, each zone once, busiest first, with
      exact counts and averages; there is no minimum count. */
  lemma PickupHotspotsRanked(rows: seq<Trip>)
    ensures var r := PickupHotspots(rows);
      && |r| <= 50
      && (forall i, j :: 0 <= i < j < |r| ==> r[i].key != r[j].key && r[i].count >= r[j].count)
      && (forall i :: 0 <= i < |r| ==>
            r[i].count == TotalCount(Select(rows, PickupZone, r[i].key)) &&
            r[i].stats == FaresOf(Select(rows, PickupZone, r[i].key)))
  {
    TopRows(rows, PickupZone, TotalCount, None, Some(50), FaresOf);
  }

  /** A pickup zone is missing only when 50 zones at least as busy fill the table. */
  lemma PickupHotspotsComplete(rows: seq<Trip>, t: Trip)
    requires t in rows && t.pickupId.Some?
    ensures var r := PickupHotspots(rows);
      || (exists i :: 0 <= i < |r| && r[i].key == t.pickupId.value)
      || (|r| == 50 && forall i :: 0 <= i < |r| ==> r[i].count >= TotalCount(Select(rows, PickupZone, t.pickupId.value)))
  {
    TopRowsComplete(rows, PickupZone, TotalCount, None, Some(50), FaresOf, t);
  }

  /** hourly_traffic: one row per pickup hour present, hours ascending, with
      exact counts and averages. */
  lemma HourlyTrafficOrdered(rows: seq<Trip>)
    ensures var r := HourlyTraffic(rows);
      && (forall i, j :: 0 <= i < j < |r| ==> r[i].key < r[j].key)
      && (forall i :: 0 <= i < |r| ==>
            r[i].count == TotalCount(Select(rows, PickupHour, r[i].key)) &&
            r[i].stats == FaresOf(Select(rows, PickupHour, r[i].key)))
      && (forall t :: t in rows && t.pickupTime.Some? ==>
            exists i :: 0 <= i < |r| && r[i].key == Hour(t.pickupTime.value))
  {
    ByKeyRows(rows, PickupHour, TotalCount, FaresOf);
  }

  /** On cleaned rows the hourly counts add up to the rows with a pickup time. */
  lemma HourlyCountsOnCleanRows(rows: seq<Trip>, hasDistance: bool)
    ensures var ts := CleanRows(rows, hasDistance);
      Counts(HourlyTraffic(ts)) == Keyed(ts, PickupHour)
  {
    var ts := CleanRows(rows, hasDistance);
    forall k | true ensures TotalCount(Select(ts, PickupHour, k)) == |Select(ts, PickupHour, k)| {
      TotalCountOfComplete(Select(ts, PickupHour, k));
    }
    ByKeyRowsTotal(ts, PickupHour, TotalCount, FaresOf);
  }

  /** passenger_stats: one row per passenger count present, ascending. */
  lemma PassengerStatsOrdered(rows: seq<Trip>)
    ensures var r := PassengerStats(rows);
      && (forall i, j :: 0 <= i < j < |r| ==> r[i].key < r[j].key)
      && (forall i :: 0 <= i < |r| ==>
            r[i].count == TotalCount(Select(rows, PassengerCount, r[i].key)) &&
            r[i].stats == FaresOf(Select(rows, PassengerCount, r[i].key)))
      && (forall t :: t in rows && t.passengers.Some? ==>
            exists i :: 0 <= i < |r| && r[i].key == t.passengers.value)
  {
    ByKeyRows(rows, PassengerCount, TotalCount, FaresOf);
  }
}
