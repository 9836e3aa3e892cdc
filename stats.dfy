/** Nullable values and the aggregate functions the dataframe libraries apply
    to a column: count, sum and mean, all of which skip null entries. */
module Stats {

  datatype Option<+T> = None | Some(value: T)

  /** Sum of a column of reals. */
  function Sum(xs: seq<real>): real
  {
    if xs == [] then 0.0 else xs[0] + Sum(xs[1..])
  }

  /** Arithmetic mean of a non-empty column. */
  function Mean(xs: seq<real>): (m: real)
    requires |xs| > 0
    ensures m * (|xs| as real) == Sum(xs)
  {
    Sum(xs) / (|xs| as real)
  }

  /** Number of non-null entries (`count(col)` in Spark, `'count'` in pandas). */
  function CountPresent(xs: seq<Option<real>>): (n: nat)
    ensures n <= |xs|
  {
    if xs == [] then 0 else (if xs[0].Some? then 1 else 0) + CountPresent(xs[1..])
  }

  /** Sum of the non-null entries; 0 when there are none (pandas `'sum'`). */
  function SumPresent(xs: seq<Option<real>>): real
  {
    if xs == [] then 0.0 else (if xs[0].Some? then xs[0].value else 0.0) + SumPresent(xs[1..])
  }

  /** Mean of the non-null entries, null when there are none (Spark `avg`,
      pandas `'mean'`, where null is NaN). */
  function Avg(xs: seq<Option<real>>): (a: Option<real>)
    ensures a.Some? <==> CountPresent(xs) > 0
    ensures a.Some? ==> a.value * (CountPresent(xs) as real) == SumPresent(xs)
  {
    var n := CountPresent(xs);
    if n == 0 then None else Some(SumPresent(xs) / (n as real))
  }

  /** Wraps every value of a column as non-null. */
  function AllPresent(xs: seq<real>): (ys: seq<Option<real>>)
    ensures |ys| == |xs|
    ensures forall i :: 0 <= i < |xs| ==> ys[i] == Some(xs[i])
  {
    seq(|xs|, i requires 0 <= i < |xs| => Some(xs[i]))
  }

  /** A column read off a sequence of records, one entry per record. */
  function Column<R, V>(rs: seq<R>, f: R -> V): (c: seq<V>)
    ensures |c| == |rs|
    ensures forall i :: 0 <= i < |rs| ==> c[i] == f(rs[i])
  {
    seq(|rs|, i requires 0 <= i < |rs| => f(rs[i]))
  }

  /** On a column without nulls, the null-skipping mean is the ordinary mean. */
  lemma {:induction false} AvgOfPresent(xs: seq<real>)
    requires |xs| > 0
    ensures Avg(AllPresent(xs)) == Some(Mean(xs))
  {
    PresentCountAndSum(xs);
  }

  lemma {:induction false} PresentCountAndSum(xs: seq<real>)
    ensures CountPresent(AllPresent(xs)) == |xs|
    ensures SumPresent(AllPresent(xs)) == Sum(xs)
  {
    if xs != [] {
      assert AllPresent(xs)[1..] == AllPresent(xs[1..]);
      PresentCountAndSum(xs[1..]);
    }
  }
}
