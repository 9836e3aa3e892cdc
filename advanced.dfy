/** The advanced Spark processor: `preprocess_data` cleans the raw trips and
    derives time, duration, speed and tip-percentage columns;
    `analyze_basic_metrics` computes six aggregate views of the cleaned rows. */
module AdvancedProcessor {
  import opened Stats
  import opened Trips
  import opened Calendar
  import opened Grouping
  import opened Sequences

  /** The first filter: every key column present, total in (0, 1000),
      distance in (0, 100), passenger count in 1..6. A null makes its
      comparison null, which the filter drops. */
  predicate BasicValid(t: Trip)
  {
    && t.pickupId.Some?
    && t.dropoffId.Some?
    && t.pickupTime.Some?
    && t.dropoffTime.Some?
    && Within(t.total, 0.0, 1000.0)
    && Within(t.distance, 0.0, 100.0)
    && t.passengers.Some? && 0 < t.passengers.value <= 6
  }

  /** A trip after the first filter, with its derived columns. Fare and tip
      may still be null; the tip percentage is null when the fare is positive
      and the tip is null. */
  datatype CleanTrip = CleanTrip(
    pickupId: int, dropoffId: int,
    pickupTime: int, dropoffTime: int,
    passengers: int, distance: real, total: real,
    fare: Option<real>, tip: Option<real>,
    hour: int, day: int, dayOfWeek: int, month: int,
    duration: real,           // trip_duration_minutes
    speed: real,              // speed_mph
    tipPercent: Option<real>) // tip_percentage

  /** Duration in minutes between two timestamps in seconds. */
  function Minutes(pickup: int, dropoff: int): real
  {
    (dropoff - pickup) as real / 60.0
  }

  /** speed_mph: miles per hour when the duration is positive, otherwise 0. */
  function Speed(distance: real, duration: real): real
  {
    if duration > 0.0 then distance / (duration / 60.0) else 0.0
  }

  /** tip_percentage: tip over fare in percent when the fare is positive;
      0 when the fare is not positive or is null (a null condition takes the
      `otherwise` branch); null when the fare is positive and the tip null. */
  function TipPercent(fare: Option<real>, tip: Option<real>): Option<real>
  {
    if fare.Some? && fare.value > 0.0 then
      (if tip.Some? then Some(tip.value / fare.value * 100.0) else None)
    else Some(0.0)
  }

  /** The derived columns of a trip that passed the first filter. */
  function Enrich(t: Trip): CleanTrip
    requires BasicValid(t)
  {
    var p := t.pickupTime.value;
    var d := t.dropoffTime.value;
    var duration := Minutes(p, d);
    CleanTrip(
      t.pickupId.value, t.dropoffId.value, p, d,
      t.passengers.value, t.distance.value, t.total.value,
      t.fare, t.tip,
      Hour(p), DayOfMonth(p), DayOfWeek(p), Month(p),
      duration, Speed(t.distance.value, duration), TipPercent(t.fare, t.tip))
  }

  /** The outlier filter: duration in (0, 180) minutes, speed under 100 mph,
      tip percentage under 100 (a null tip percentage fails). */
  predicate Plausible(c: CleanTrip)
  {
    0.0 < c.duration < 180.0 && c.speed < 100.0 && c.tipPercent.Some? && c.tipPercent.value < 100.0
  }

  /** A raw trip that survives both filters. */
  predicate Kept(t: Trip)
  {
    BasicValid(t) && Plausible(Enrich(t))
  }

  /** preprocess_data: filter, derive, filter again; order is kept. */
  function Preprocess(trips: seq<Trip>): (r: seq<CleanTrip>)
    ensures |r| <= |trips|
  {
    if trips == [] then []
    else if Kept(trips[0]) then [Enrich(trips[0])] + Preprocess(trips[1..])
    else Preprocess(trips[1..])
  }

  /** The two divisions are guarded, and the derived columns mean what their
      names say: minutes between pickup and dropoff, miles per hour, and the
      tip as a percentage of a positive fare. */
  lemma DerivedColumns(t: Trip)
    requires BasicValid(t)
    ensures var c := Enrich(t);
      && c.duration * 60.0 == (c.dropoffTime - c.pickupTime) as real
      && (c.duration > 0.0 ==> c.speed * (c.duration / 60.0) == c.distance)
      && (c.duration <= 0.0 ==> c.speed == 0.0)
      && (c.fare.Some? && c.fare.value > 0.0 && c.tip.Some? ==>
            c.tipPercent.Some? && c.tipPercent.value * c.fare.value == c.tip.value * 100.0)
      && (c.fare.Some? && c.fare.value > 0.0 && c.tip.None? ==> c.tipPercent.None?)
      && (c.fare.None? || c.fare.value <= 0.0 ==> c.tipPercent == Some(0.0))
      && 0 <= c.hour < 24 && 1 <= c.dayOfWeek <= 7 && 1 <= c.month <= 12 && 1 <= c.day <= 31
  {
    var c := Enrich(t);
    if c.fare.Some? && c.fare.value > 0.0 && c.tip.Some? {
      assert c.tipPercent.value == c.tip.value / c.fare.value * 100.0;
    }
  }

  /** Every row preprocessing returns satisfies all the bounds of both filters. */
  lemma {:induction false} PreprocessBounds(trips: seq<Trip>)
    ensures forall c :: c in Preprocess(trips) ==>
      && 0.0 < c.total < 1000.0
      && 0.0 < c.distance < 100.0
      && 0 < c.passengers <= 6
      && 0.0 < c.duration < 180.0
      && c.speed < 100.0
      && c.tipPercent.Some? && c.tipPercent.value < 100.0
      && c.pickupTime < c.dropoffTime
      && 0 <= c.hour < 24 && 1 <= c.dayOfWeek <= 7
  {
    if trips != [] {
      PreprocessBounds(trips[1..]);
    }
  }

  /** The raw columns of a cleaned trip: the trip it was derived from. */
  function Raw(c: CleanTrip): Trip
  {
    Trip(Some(c.pickupId), Some(c.dropoffId), Some(c.pickupTime), Some(c.dropoffTime),
         Some(c.passengers), Some(c.distance), c.fare, c.tip, Some(c.total))
  }

  /** Deriving the columns loses none of the raw ones. */
  lemma RawOfEnrich(t: Trip)
    requires BasicValid(t)
    ensures Raw(Enrich(t)) == t
  {
  }

  /** Preprocessing keeps exactly the trips that pass both filters, each with
      its derived columns: in their order, every copy of such a trip, and
      nothing else. */
  lemma PreprocessKeepsExactly(trips: seq<Trip>)
    ensures forall t :: t in trips && Kept(t) ==> Enrich(t) in Preprocess(trips)
    ensures forall c :: c in Preprocess(trips) ==> Raw(c) in trips && Kept(Raw(c)) && c == Enrich(Raw(c))
    ensures var kept := Column(Preprocess(trips), Raw);
      && Subsequence(kept, trips)
      && forall t :: multiset(kept)[t] == if Kept(t) then multiset(trips)[t] else 0
  {
    PreprocessMembers(trips);
    forall c | c in Preprocess(trips) ensures Raw(c) in trips && Kept(Raw(c)) && c == Enrich(Raw(c)) {
      var t :| t in trips && Kept(t) && c == Enrich(t);
      RawOfEnrich(t);
    }
    PreprocessFilters(trips);
    FilterExact(trips, Kept);
  }

  /** Every kept trip's enriched row is in the output, and every output row
      is the enriched row of a kept trip. */
  lemma {:induction false} PreprocessMembers(trips: seq<Trip>)
    ensures forall t :: t in trips && Kept(t) ==> Enrich(t) in Preprocess(trips)
    ensures forall c :: c in Preprocess(trips) ==> exists t :: t in trips && Kept(t) && c == Enrich(t)
  {
    if trips != [] {
      PreprocessMembers(trips[1..]);
      assert forall t :: t in trips ==> t == trips[0] || t in trips[1..];
    }
  }

  /** The trips behind the preprocessed rows are the in-order filter of the input. */
  lemma {:induction false} PreprocessFilters(trips: seq<Trip>)
    ensures Column(Preprocess(trips), Raw) == Filter(trips, Kept)
  {
    if trips != [] {
      PreprocessFilters(trips[1..]);
      if Kept(trips[0]) {
        var rest := Preprocess(trips[1..]);
        RawOfEnrich(trips[0]);
        assert Column([Enrich(trips[0])] + rest, Raw) == [trips[0]] + Column(rest, Raw);
      }
    }
  }

  /** A trip whose dropoff is not after its pickup never survives. */
  lemma ZeroLengthTripDropped(t: Trip)
    requires t.pickupTime.Some? && t.dropoffTime.Some? && t.dropoffTime.value <= t.pickupTime.value
    ensures !Kept(t)
  {
    if BasicValid(t) {
      assert Enrich(t).duration <= 0.0;
    }
  }

  /** The removed share reported after cleaning, in percent. */
  function RemovedPercent(initial: nat, cleaned: nat): real
  {
    if initial > 0 then (initial - cleaned) as real / initial as real * 100.0 else 0.0
  }

  /** Preprocessing only removes rows: the reported share is between 0 and
      100, and 0 for an empty input. */
  lemma RemovedPercentBounds(trips: seq<Trip>)
    ensures var p := RemovedPercent(|trips|, |Preprocess(trips)|);
      0.0 <= p <= 100.0 && (trips == [] ==> p == 0.0)
  {
    var n := |trips|;
    var m := |Preprocess(trips)|;
    if n > 0 {
      assert 0.0 <= (n - m) as real <= n as real;
      assert (n - m) as real / n as real <= 1.0;
    }
  }

  // ---- group keys and columns of the views ----

  function RouteKey(c: CleanTrip): Option<Route> { Some(Route(c.pickupId, c.dropoffId)) }
  function PickupKey(c: CleanTrip): Option<int> { Some(c.pickupId) }
  function DropoffKey(c: CleanTrip): Option<int> { Some(c.dropoffId) }
  function HourKey(c: CleanTrip): Option<int> { Some(c.hour) }
  function DayKey(c: CleanTrip): Option<int> { Some(c.dayOfWeek) }
  function PassengerKey(c: CleanTrip): Option<int> { Some(c.passengers) }

  function TotalAmount(c: CleanTrip): real { c.total }
  function Distance(c: CleanTrip): real { c.distance }
  function Duration(c: CleanTrip): real { c.duration }
  function Tip(c: CleanTrip): Option<real> { c.tip }
  function TipShare(c: CleanTrip): Option<real> { c.tipPercent }

  /** Spark's `avg` of a column without nulls. */
  function AvgOf(ts: seq<CleanTrip>, f: CleanTrip -> real): Option<real>
  {
    Avg(AllPresent(Column(ts, f)))
  }

  /** On a non-empty group the average of a column without nulls is its mean. */
  lemma AvgOfIsMean(ts: seq<CleanTrip>, f: CleanTrip -> real)
    requires ts != []
    ensures AvgOf(ts, f) == Some(Mean(Column(ts, f)))
  {
    AvgOfPresent(Column(ts, f));
  }

  datatype RouteAverages = RouteAverages(avgDistance: Option<real>, avgFare: Option<real>,
                                         avgDuration: Option<real>, avgTip: Option<real>)
  datatype PickupAverages = PickupAverages(avgFare: Option<real>, avgDistance: Option<real>, avgDuration: Option<real>)
  datatype DropoffAverages = DropoffAverages(avgFare: Option<real>)
  datatype HourAverages = HourAverages(avgFare: Option<real>, avgDistance: Option<real>, avgTipPercent: Option<real>)
  datatype DayAverages = DayAverages(avgFare: Option<real>, avgTip: Option<real>)
  datatype PassengerAverages = PassengerAverages(avgFare: Option<real>, avgDistance: Option<real>)

  function RouteAveragesOf(ts: seq<CleanTrip>): RouteAverages
  {
    RouteAverages(AvgOf(ts, Distance), AvgOf(ts, TotalAmount), AvgOf(ts, Duration), Avg(Column(ts, Tip)))
  }

  function PickupAveragesOf(ts: seq<CleanTrip>): PickupAverages
  {
    PickupAverages(AvgOf(ts, TotalAmount), AvgOf(ts, Distance), AvgOf(ts, Duration))
  }

  function DropoffAveragesOf(ts: seq<CleanTrip>): DropoffAverages
  {
    DropoffAverages(AvgOf(ts, TotalAmount))
  }

  function HourAveragesOf(ts: seq<CleanTrip>): HourAverages
  {
    HourAverages(AvgOf(ts, TotalAmount), AvgOf(ts, Distance), Avg(Column(ts, TipShare)))
  }

  function DayAveragesOf(ts: seq<CleanTrip>): DayAverages
  {
    DayAverages(AvgOf(ts, TotalAmount), Avg(Column(ts, Tip)))
  }

  function PassengerAveragesOf(ts: seq<CleanTrip>): PassengerAverages
  {
    PassengerAverages(AvgOf(ts, TotalAmount), AvgOf(ts, Distance))
  }

  /** The averages of a route are the means of its trips' distances, totals
      and durations; the tip average skips null tips. */
  lemma RouteAveragesAreMeans(ts: seq<CleanTrip>)
    requires ts != []
    ensures RouteAveragesOf(ts).avgDistance == Some(Mean(Column(ts, Distance)))
    ensures RouteAveragesOf(ts).avgFare == Some(Mean(Column(ts, TotalAmount)))
    ensures RouteAveragesOf(ts).avgDuration == Some(Mean(Column(ts, Duration)))
  {
    AvgOfIsMean(ts, Distance);
    AvgOfIsMean(ts, TotalAmount);
    AvgOfIsMean(ts, Duration);
  }

  // ---- the six views ----

  const HotRouteMinimum := 5
  const HotRouteLimit := 100
  const HotspotLimit := 50

  datatype Metrics = Metrics(
    hotRoutes: seq<Row<Route, RouteAverages>>,
    pickupHotspots: seq<Row<int, PickupAverages>>,
    dropoffHotspots: seq<Row<int, DropoffAverages>>,
    hourlyTraffic: seq<Row<int, HourAverages>>,
    dailyTraffic: seq<Row<int, DayAverages>>,
    passengerStats: seq<Row<int, PassengerAverages>>)

  /** Routes seen more than 5 times, busiest first, at most 100. */
  function HotRoutes(ts: seq<CleanTrip>): seq<Row<Route, RouteAverages>>
  {
    Summarize(Top(ts, RouteKey, Size, Some(HotRouteMinimum), Some(HotRouteLimit)), Size, RouteAveragesOf)
  }

  /** Pickup zones, busiest first, at most 50. */
  function PickupHotspots(ts: seq<CleanTrip>): seq<Row<int, PickupAverages>>
  {
    Summarize(Top(ts, PickupKey, Size, None, Some(HotspotLimit)), Size, PickupAveragesOf)
  }

  /** Dropoff zones, busiest first, at most 50. */
  function DropoffHotspots(ts: seq<CleanTrip>): seq<Row<int, DropoffAverages>>
  {
    Summarize(Top(ts, DropoffKey, Size, None, Some(HotspotLimit)), Size, DropoffAveragesOf)
  }

  function HourlyTraffic(ts: seq<CleanTrip>): seq<Row<int, HourAverages>>
  {
    Summarize(ByKey(ts, HourKey), Size, HourAveragesOf)
  }

  function DailyTraffic(ts: seq<CleanTrip>): seq<Row<int, DayAverages>>
  {
    Summarize(ByKey(ts, DayKey), Size, DayAveragesOf)
  }

  /** Passenger counts are never null after cleaning, so the null filter
      applied after grouping removes nothing. */
  function PassengerStats(ts: seq<CleanTrip>): seq<Row<int, PassengerAverages>>
  {
    Summarize(ByKey(ts, PassengerKey), Size, PassengerAveragesOf)
  }

  /** analyze_basic_metrics. */
  function BasicMetrics(ts: seq<CleanTrip>): Metrics
  {
    Metrics(HotRoutes(ts), PickupHotspots(ts), DropoffHotspots(ts),
            HourlyTraffic(ts), DailyTraffic(ts), PassengerStats(ts))
  }

  /** The whole basic pipeline: preprocess, then aggregate. */
  function Run(trips: seq<Trip>): Metrics
  {
    BasicMetrics(Preprocess(trips))
  }

  /** hot_routes: at most 100 rows, each route once, each seen more than 5
      times, busiest first; each count and average is that of exactly the
      trips of its route. */
  lemma HotRoutesRanked(ts: seq<CleanTrip>)
    ensures var r := HotRoutes(ts);
      && |r| <= 100
      && (forall i :: 0 <= i < |r| ==> r[i].count > 5)
      && (forall i, j :: 0 <= i < j < |r| ==> r[i].key != r[j].key && r[i].count >= r[j].count)
      && (forall i :: 0 <= i < |r| ==>
            r[i].count == |Select(ts, RouteKey, r[i].key)| &&
            r[i].stats == RouteAveragesOf(Select(ts, RouteKey, r[i].key)))
  {
    TopRows(ts, RouteKey, Size, Some(HotRouteMinimum), Some(HotRouteLimit), RouteAveragesOf);
  }

  /** A route seen more than 5 times is listed, unless 100 routes seen at
      least as often fill the table. */
  lemma HotRoutesComplete(ts: seq<CleanTrip>, c: CleanTrip)
    requires c in ts && |Select(ts, RouteKey, RouteKey(c).value)| > HotRouteMinimum
    ensures var r := HotRoutes(ts);
      || (exists i :: 0 <= i < |r| && r[i].key == RouteKey(c).value)
      || (|r| == HotRouteLimit && forall i :: 0 <= i < |r| ==> r[i].count >= |Select(ts, RouteKey, RouteKey(c).value)|)
  {
    var k := RouteKey(c).value;
    assert Passes(Size(Select(ts, RouteKey, k)), Some(HotRouteMinimum));
    TopRowsComplete(ts, RouteKey, Size, Some(HotRouteMinimum), Some(HotRouteLimit), RouteAveragesOf, c);
  }

  /** pickup_hotspots: at most 50 rows, each zone once, busiest first, with
      exact counts and averages. */
  lemma PickupHotspotsRanked(ts: seq<CleanTrip>)
    ensures var r := PickupHotspots(ts);
      && |r| <= 50
      && (forall i, j :: 0 <= i < j < |r| ==> r[i].key != r[j].key && r[i].count >= r[j].count)
      && (forall i :: 0 <= i < |r| ==>
            r[i].count == |Select(ts, PickupKey, r[i].key)| > 0 &&
            r[i].stats == PickupAveragesOf(Select(ts, PickupKey, r[i].key)))
  {
    TopRows(ts, PickupKey, Size, None, Some(HotspotLimit), PickupAveragesOf);
  }

  /** A pickup zone is missing only when 50 zones at least as busy fill the table. */
  lemma PickupHotspotsComplete(ts: seq<CleanTrip>, c: CleanTrip)
    requires c in ts
    ensures var r := PickupHotspots(ts);
      || (exists i :: 0 <= i < |r| && r[i].key == c.pickupId)
      || (|r| == 50 && forall i :: 0 <= i < |r| ==> r[i].count >= |Select(ts, PickupKey, c.pickupId)|)
  {
    TopRowsComplete(ts, PickupKey, Size, None, Some(HotspotLimit), PickupAveragesOf, c);
  }

  /** dropoff_hotspots: at most 50 rows, each zone once, busiest first, with
      exact counts and averages. */
  lemma DropoffHotspotsRanked(ts: seq<CleanTrip>)
    ensures var r := DropoffHotspots(ts);
      && |r| <= 50
      && (forall i, j :: 0 <= i < j < |r| ==> r[i].key != r[j].key && r[i].count >= r[j].count)
      && (forall i :: 0 <= i < |r| ==>
            r[i].count == |Select(ts, DropoffKey, r[i].key)| > 0 &&
            r[i].stats == DropoffAveragesOf(Select(ts, DropoffKey, r[i].key)))
  {
    TopRows(ts, DropoffKey, Size, None, Some(HotspotLimit), DropoffAveragesOf);
  }

  /** A dropoff zone is missing only when 50 zones at least as busy fill the table. */
  lemma DropoffHotspotsComplete(ts: seq<CleanTrip>, c: CleanTrip)
    requires c in ts
    ensures var r := DropoffHotspots(ts);
      || (exists i :: 0 <= i < |r| && r[i].key == c.dropoffId)
      || (|r| == 50 && forall i :: 0 <= i < |r| ==> r[i].count >= |Select(ts, DropoffKey, c.dropoffId)|)
  {
    TopRowsComplete(ts, DropoffKey, Size, None, Some(HotspotLimit), DropoffAveragesOf, c);
  }

  /** hourly_traffic: one row per hour present, ascending, with exact counts
      and averages; the counts add up to the number of rows. */
  lemma HourlyTrafficOrdered(ts: seq<CleanTrip>)
    ensures var r := HourlyTraffic(ts);
      && (forall i, j :: 0 <= i < j < |r| ==> r[i].key < r[j].key)
      && (forall i :: 0 <= i < |r| ==>
            r[i].count == |Select(ts, HourKey, r[i].key)| > 0 &&
            r[i].stats == HourAveragesOf(Select(ts, HourKey, r[i].key)))
      && (forall c :: c in ts ==> exists i :: 0 <= i < |r| && r[i].key == c.hour)
      && Counts(r) == |ts|
  {
    ByKeyRows(ts, HourKey, Size, HourAveragesOf);
    ByKeyRowsTotal(ts, HourKey, Size, HourAveragesOf);
    KeyedAll(ts, HourKey);
  }

  /** daily_traffic: one row per day of the week present, ascending, with
      exact counts and averages; the counts add up to the number of rows. */
  lemma DailyTrafficOrdered(ts: seq<CleanTrip>)
    ensures var r := DailyTraffic(ts);
      && (forall i, j :: 0 <= i < j < |r| ==> r[i].key < r[j].key)
      && (forall i :: 0 <= i < |r| ==>
            r[i].count == |Select(ts, DayKey, r[i].key)| > 0 &&
            r[i].stats == DayAveragesOf(Select(ts, DayKey, r[i].key)))
      && (forall c :: c in ts ==> exists i :: 0 <= i < |r| && r[i].key == c.dayOfWeek)
      && Counts(r) == |ts|
  {
    ByKeyRows(ts, DayKey, Size, DayAveragesOf);
    ByKeyRowsTotal(ts, DayKey, Size, DayAveragesOf);
    KeyedAll(ts, DayKey);
  }

  /** passenger_stats: one row per passenger count present, ascending, with
      exact counts and averages; the counts add up to the number of rows. */
  lemma PassengerStatsOrdered(ts: seq<CleanTrip>)
    ensures var r := PassengerStats(ts);
      && (forall i, j :: 0 <= i < j < |r| ==> r[i].key < r[j].key)
      && (forall i :: 0 <= i < |r| ==>
            r[i].count == |Select(ts, PassengerKey, r[i].key)| > 0 &&
            r[i].stats == PassengerAveragesOf(Select(ts, PassengerKey, r[i].key)))
      && (forall c :: c in ts ==> exists i :: 0 <= i < |r| && r[i].key == c.passengers)
      && Counts(r) == |ts|
  {
    ByKeyRows(ts, PassengerKey, Size, PassengerAveragesOf);
    ByKeyRowsTotal(ts, PassengerKey, Size, PassengerAveragesOf);
    KeyedAll(ts, PassengerKey);
  }

  /** On preprocessed rows the hourly keys are hours of the day. */
  lemma HourlyKeysAreHours(trips: seq<Trip>)
    ensures var r := HourlyTraffic(Preprocess(trips));
      forall i :: 0 <= i < |r| ==> 0 <= r[i].key < 24
  {
    var ts := Preprocess(trips);
    PreprocessBounds(trips);
    ByKeyRows(ts, HourKey, Size, HourAveragesOf);
    var r := HourlyTraffic(ts);
    forall i | 0 <= i < |r| ensures 0 <= r[i].key < 24 {
      var s := Select(ts, HourKey, r[i].key);
      assert s[0] in s;
    }
  }

  /** On preprocessed rows the daily keys are days of the week. */
  lemma DailyKeysAreWeekdays(trips: seq<Trip>)
    ensures var r := DailyTraffic(Preprocess(trips));
      forall i :: 0 <= i < |r| ==> 1 <= r[i].key <= 7
  {
    var ts := Preprocess(trips);
    PreprocessBounds(trips);
    ByKeyRows(ts, DayKey, Size, DayAveragesOf);
    var r := DailyTraffic(ts);
    forall i | 0 <= i < |r| ensures 1 <= r[i].key <= 7 {
      var s := Select(ts, DayKey, r[i].key);
      assert s[0] in s;
    }
  }

  /** On preprocessed rows the passenger keys are 1..6. */
  lemma PassengerKeysInRange(trips: seq<Trip>)
    ensures var r := PassengerStats(Preprocess(trips));
      forall i :: 0 <= i < |r| ==> 1 <= r[i].key <= 6
  {
    var ts := Preprocess(trips);
    PreprocessBounds(trips);
    ByKeyRows(ts, PassengerKey, Size, PassengerAveragesOf);
    var r := PassengerStats(ts);
    forall i | 0 <= i < |r| ensures 1 <= r[i].key <= 6 {
      var s := Select(ts, PassengerKey, r[i].key);
      assert s[0] in s;
    }
  }
}
