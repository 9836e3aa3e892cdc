/** The trip record of the NYC yellow-taxi data, as every processor reads
    it. Every column may be null. Timestamps are whole seconds since the
    epoch; money and distance are reals. */
module Trips {
  import opened Stats

  datatype Trip = Trip(
    pickupId: Option<int>,      // PULocationID
    dropoffId: Option<int>,     // DOLocationID
    pickupTime: Option<int>,    // tpep_pickup_datetime
    dropoffTime: Option<int>,   // tpep_dropoff_datetime
    passengers: Option<int>,    // passenger_count
    distance: Option<real>,     // trip_distance
    fare: Option<real>,         // fare_amount
    tip: Option<real>,          // tip_amount
    total: Option<real>)        // total_amount

  /** A (pickup zone, dropoff zone) pair. */
  datatype Route = Route(pickupId: int, dropoffId: int)

  /** The route of a trip; null when either zone is null. */
  function RouteOf(t: Trip): Option<Route>
  {
    if t.pickupId.Some? && t.dropoffId.Some? then Some(Route(t.pickupId.value, t.dropoffId.value)) else None
  }

  function PickupZone(t: Trip): Option<int>
  {
    t.pickupId
  }

  function DropoffZone(t: Trip): Option<int>
  {
    t.dropoffId
  }

  function TotalOf(t: Trip): Option<real>
  {
    t.total
  }

  function DistanceOf(t: Trip): Option<real>
  {
    t.distance
  }

  function TipOf(t: Trip): Option<real>
  {
    t.tip
  }

  /** A value strictly between lo and hi; null fails, as a null comparison
      does in a Spark filter and a NaN comparison does in pandas. */
  predicate Within(v: Option<real>, lo: real, hi: real)
  {
    v.Some? && lo < v.value < hi
  }
}
