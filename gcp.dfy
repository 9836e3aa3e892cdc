/** The cluster job: `process_on_gcp` reads trips, keeps those with both
    zones and a plausible total, writes the 1000 busiest routes, and reports
    success; `main` turns the report into the process exit status. Reading
    and writing storage are parameters: the trips read, or None when the
    read raised, and whether the write went through. */
module GcpProcessor {
  import opened Stats
  import opened Trips
  import opened Grouping
  import opened Sequences

  /** The cleaning filter; unlike the other processors it does not look at
      the pickup time. */
  predicate CleanRow(t: Trip)
  {
    t.pickupId.Some? && t.dropoffId.Some? && Within(t.total, 0.0, 1000.0)
  }

  /** The trips kept, in their order. */
  function CleanData(rows: seq<Trip>): (r: seq<Trip>)
    ensures |r| <= |rows|
  {
    Filter(rows, CleanRow)
  }

  /** The filter keeps exactly the trips that pass it: in their order, every
      copy of such a trip, and nothing else. */
  lemma CleanDataExact(rows: seq<Trip>)
    ensures forall t :: t in CleanData(rows) <==> t in rows && CleanRow(t)
    ensures Subsequence(CleanData(rows), rows)
    ensures forall t :: multiset(CleanData(rows))[t] == if CleanRow(t) then multiset(rows)[t] else 0
  {
    FilterExact(rows, CleanRow);
  }

  const RouteLimit := 1000

  datatype RouteAverages = RouteAverages(avgDistance: Option<real>, avgFare: Option<real>, avgTip: Option<real>)

  function RouteAveragesOf(ts: seq<Trip>): RouteAverages
  {
    RouteAverages(Avg(Column(ts, DistanceOf)), Avg(Column(ts, TotalOf)), Avg(Column(ts, TipOf)))
  }

  /** The 1000 busiest routes, busiest first, with null-skipping averages. */
  function HotRoutes(ts: seq<Trip>): seq<Row<Route, RouteAverages>>
  {
    Summarize(Top(ts, RouteOf, Size, None, Some(RouteLimit)), Size, RouteAveragesOf)
  }

  /** What one run leaves behind: the reported status and the table written. */
  datatype Outcome = Outcome(success: bool, written: Option<seq<Row<Route, RouteAverages>>>)

  /** process_on_gcp: a failed read or a failed write is caught and reported
      as failure, and so is a failure of the steps after the write (counting
      and showing the table, stopping the session), which leaves the table
      written. Nothing is written unless the read and the write went through. */
  function ProcessOnGcp(input: Option<seq<Trip>>, writeSucceeds: bool, finishSucceeds: bool): (o: Outcome)
    ensures o.success <==> input.Some? && writeSucceeds && finishSucceeds
    ensures o.written.Some? <==> input.Some? && writeSucceeds
    ensures o.success ==> o.written.Some?
  {
    match input
    case None => Outcome(false, None)
    case Some(rows) =>
      if writeSucceeds then Outcome(finishSucceeds, Some(HotRoutes(CleanData(rows)))) else Outcome(false, None)
  }

  /** main's exit status. */
  function ExitCode(success: bool): (code: int)
    ensures code == 0 <==> success
    ensures code == 0 || code == 1
  {
    if success then 0 else 1
  }

  /** A run exits 0 exactly when it read, wrote and finished; whenever it
      wrote, even if it then exits 1, what it wrote holds at most 1000 cleaned
      routes, each once, busiest first, with the exact trip count and averages
      of that route's cleaned trips. */
  lemma SuccessfulRunWritesHotRoutes(input: Option<seq<Trip>>, writeSucceeds: bool, finishSucceeds: bool)
    ensures var o := ProcessOnGcp(input, writeSucceeds, finishSucceeds);
      ExitCode(o.success) == 0 <==> input.Some? && writeSucceeds && finishSucceeds
    ensures var o := ProcessOnGcp(input, writeSucceeds, finishSucceeds);
      o.written.Some? ==>
        var ts := CleanData(input.value);
        var r := o.written.value;
        && |r| <= RouteLimit
        && (forall i, j :: 0 <= i < j < |r| ==> r[i].key != r[j].key && r[i].count >= r[j].count)
        && (forall i :: 0 <= i < |r| ==>
              r[i].count == |Select(ts, RouteOf, r[i].key)| > 0 &&
              r[i].stats == RouteAveragesOf(Select(ts, RouteOf, r[i].key)))
  {
    if input.Some? {
      TopRows(CleanData(input.value), RouteOf, Size, None, Some(RouteLimit), RouteAveragesOf);
    }
  }

  /** Every trip that passes the filter has its route in the written table,
      unless 1000 routes at least as busy filled it. */
  lemma HotRoutesComplete(rows: seq<Trip>, t: Trip)
    requires t in rows && CleanRow(t)
    ensures var ts := CleanData(rows);
      var r := HotRoutes(ts);
      var k := Route(t.pickupId.value, t.dropoffId.value);
      || (exists i :: 0 <= i < |r| && r[i].key == k)
      || (|r| == RouteLimit && forall i :: 0 <= i < |r| ==> r[i].count >= |Select(ts, RouteOf, k)|)
  {
    CleanDataExact(rows);
    TopRowsComplete(CleanData(rows), RouteOf, Size, None, Some(RouteLimit), RouteAveragesOf, t);
  }
}
