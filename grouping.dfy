/** The shape every aggregate view of the pipeline shares: group the rows by
    a key, keep the groups whose count passes a minimum, order them (by count
    descending, or by key ascending) and keep the first N.

    A key function returns None for a row whose key is null. pandas' groupby
    drops such rows; the Spark views only ever group rows whose keys were
    checked non-null while cleaning, so for them every key is present. */
module Grouping {
  import opened Stats

  /** One group of a group-by: its key and its rows, in input order. */
  datatype Group<K, R> = Group(key: K, members: seq<R>)

  /** The rows whose key is k, in input order. */
  function Select<R, K(==)>(rows: seq<R>, key: R -> Option<K>, k: K): (s: seq<R>)
    ensures |s| <= |rows|
    ensures forall x :: x in s ==> x in rows && key(x) == Some(k)
    ensures forall x :: x in rows && key(x) == Some(k) ==> x in s
  {
    if rows == [] then []
    else if key(rows[0]) == Some(k) then [rows[0]] + Select(rows[1..], key, k)
    else Select(rows[1..], key, k)
  }

  /** Number of rows whose key is not null. */
  function Keyed<R, K>(rows: seq<R>, key: R -> Option<K>): (n: nat)
    ensures n <= |rows|
  {
    if rows == [] then 0 else (if key(rows[0]).Some? then 1 else 0) + Keyed(rows[1..], key)
  }

  /** When no key is null, the group-by keeps every row. */
  lemma {:induction false} KeyedAll<R, K>(rows: seq<R>, key: R -> Option<K>)
    requires forall x :: x in rows ==> key(x).Some?
    ensures Keyed(rows, key) == |rows|
  {
    if rows != [] {
      KeyedAll(rows[1..], key);
    }
  }

  ghost predicate KeysDistinct<K, R>(gs: seq<Group<K, R>>)
  {
    forall i, j :: 0 <= i < j < |gs| ==> gs[i].key != gs[j].key
  }

  /** Every group holds exactly the rows of its key, and at least one. */
  ghost predicate Faithful<R, K>(gs: seq<Group<K, R>>, rows: seq<R>, key: R -> Option<K>)
  {
    forall i :: 0 <= i < |gs| ==> gs[i].members == Select(rows, key, gs[i].key) && gs[i].members != []
  }

  /** Groups drawn from a faithful sequence of groups are faithful too. */
  lemma FaithfulSubset<R, K>(s: seq<Group<K, R>>, t: seq<Group<K, R>>, rows: seq<R>, key: R -> Option<K>)
    requires Faithful(s, rows, key)
    requires forall i :: 0 <= i < |t| ==> t[i] in s
    ensures Faithful(t, rows, key)
  {
  }

  /** The number of rows held by a sequence of groups. */
  function Total<K, R>(gs: seq<Group<K, R>>): nat
  {
    if gs == [] then 0 else |gs[0].members| + Total(gs[1..])
  }

  lemma {:induction false} TotalAppend<K, R>(gs: seq<Group<K, R>>, g: Group<K, R>)
    ensures Total(gs + [g]) == Total(gs) + |g.members|
  {
    if gs != [] {
      assert (gs + [g])[1..] == gs[1..] + [g];
      TotalAppend(gs[1..], g);
    }
  }

  lemma {:induction false} TotalUpdate<K, R>(gs: seq<Group<K, R>>, i: nat, g: Group<K, R>)
    requires i < |gs|
    ensures Total(gs[i := g]) == Total(gs) - |gs[i].members| + |g.members|
  {
    if i > 0 {
      assert gs[i := g][1..] == gs[1..][i - 1 := g];
      TotalUpdate(gs[1..], i - 1, g);
    }
  }

  /** Position of the group with key k, or |gs| when there is none. */
  function Find<K(==), R>(gs: seq<Group<K, R>>, k: K): (i: nat)
    ensures i <= |gs|
    ensures i < |gs| ==> gs[i].key == k
    ensures forall j :: 0 <= j < i ==> gs[j].key != k
  {
    if gs == [] then 0 else if gs[0].key == k then 0 else 1 + Find(gs[1..], k)
  }

  /** gs is the group-by of rows: distinct keys, each group exactly its key's
      rows, a group for every non-null key present, and every keyed row
      counted once. */
  ghost predicate GroupsOf<R, K>(gs: seq<Group<K, R>>, rows: seq<R>, key: R -> Option<K>)
  {
    && KeysDistinct(gs)
    && Faithful(gs, rows, key)
    && Covers(gs, rows, key)
    && Total(gs) == Keyed(rows, key)
  }

  /** Group-by: one group per distinct non-null key, holding exactly that
      key's rows; rows with a null key are dropped. The first row goes into
      the group of its key, which is opened at the end if it is new. */
  function GroupBy<R, K(==)>(rows: seq<R>, key: R -> Option<K>): (gs: seq<Group<K, R>>)
    ensures |gs| <= |rows|
  {
    if rows == [] then []
    else
      var rest := GroupBy(rows[1..], key);
      if key(rows[0]).None? then rest
      else
        var k := key(rows[0]).value;
        var i := Find(rest, k);
        if i < |rest| then rest[i := Group(k, [rows[0]] + rest[i].members)]
        else rest + [Group(k, [rows[0]])]
  }

  /** GroupBy is the group-by of its rows. */
  lemma {:induction false} GroupByGroups<R, K>(rows: seq<R>, key: R -> Option<K>)
    ensures GroupsOf(GroupBy(rows, key), rows, key)
  {
    if rows != [] {
      var rest := GroupBy(rows[1..], key);
      GroupByGroups(rows[1..], key);
      if key(rows[0]).None? {
        SkipNullKey(rest, rows, key);
      } else {
        var i := Find(rest, key(rows[0]).value);
        if i < |rest| {
          JoinGroup(rest, rows, key, i);
        } else {
          OpenGroup(rest, rows, key);
        }
      }
    }
  }

  lemma SkipNullKey<R, K>(gs: seq<Group<K, R>>, rows: seq<R>, key: R -> Option<K>)
    requires rows != [] && key(rows[0]).None?
    requires GroupsOf(gs, rows[1..], key)
    ensures GroupsOf(gs, rows, key)
  {
    assert forall x :: x in rows ==> x == rows[0] || x in rows[1..];
  }

  /** The first row goes to the group of its key; every other group keeps its rows. */
  lemma {:induction false} SelectHead<R, K>(rows: seq<R>, key: R -> Option<K>, k: K)
    requires rows != []
    ensures key(rows[0]) == Some(k) ==> Select(rows, key, k) == [rows[0]] + Select(rows[1..], key, k)
    ensures key(rows[0]) != Some(k) ==> Select(rows, key, k) == Select(rows[1..], key, k)
  {
  }

  /** Selecting from two runs of rows selects from each, in order. */
  lemma {:induction false} SelectAppend<R, K>(a: seq<R>, b: seq<R>, key: R -> Option<K>, k: K)
    ensures Select(a + b, key, k) == Select(a, key, k) + Select(b, key, k)
  {
    if a == [] {
      assert a + b == b;
    } else {
      assert (a + b)[1..] == a[1..] + b;
      SelectAppend(a[1..], b, key, k);
    }
  }

  /** Rows that all have key k are all selected. */
  lemma {:induction false} SelectUniform<R, K>(rows: seq<R>, key: R -> Option<K>, k: K)
    requires forall i :: 0 <= i < |rows| ==> key(rows[i]) == Some(k)
    ensures Select(rows, key, k) == rows
  {
    if rows != [] {
      SelectUniform(rows[1..], key, k);
    }
  }

  /** No row has key k: nothing is selected. */
  lemma SelectAbsent<R, K>(rows: seq<R>, key: R -> Option<K>, k: K)
    requires forall x :: x in rows ==> key(x) != Some(k)
    ensures Select(rows, key, k) == []
  {
  }

  /** Every non-null key of rows has a group in gs. */
  ghost predicate Covers<R, K>(gs: seq<Group<K, R>>, rows: seq<R>, key: R -> Option<K>)
  {
    forall x :: x in rows && key(x).Some? ==> Find(gs, key(x).value) < |gs|
  }

  lemma JoinGroup<R, K>(gs: seq<Group<K, R>>, rows: seq<R>, key: R -> Option<K>, i: nat)
    requires rows != [] && key(rows[0]).Some?
    requires GroupsOf(gs, rows[1..], key)
    requires i == Find(gs, key(rows[0]).value) && i < |gs|
    ensures GroupsOf(gs[i := Group(key(rows[0]).value, [rows[0]] + gs[i].members)], rows, key)
  {
    var k := key(rows[0]).value;
    var g := Group(k, [rows[0]] + gs[i].members);
    JoinFaithful(gs, rows, key, i);
    JoinCovers(gs, rows, key, i, g);
    TotalUpdate(gs, i, g);
  }

  lemma JoinFaithful<R, K>(gs: seq<Group<K, R>>, rows: seq<R>, key: R -> Option<K>, i: nat)
    requires rows != [] && key(rows[0]).Some?
    requires KeysDistinct(gs) && Faithful(gs, rows[1..], key)
    requires i < |gs| && gs[i].key == key(rows[0]).value
    ensures KeysDistinct(gs[i := Group(key(rows[0]).value, [rows[0]] + gs[i].members)])
    ensures Faithful(gs[i := Group(key(rows[0]).value, [rows[0]] + gs[i].members)], rows, key)
  {
    var gs' := gs[i := Group(key(rows[0]).value, [rows[0]] + gs[i].members)];
    forall j | 0 <= j < |gs'|
      ensures gs'[j].key == gs[j].key
      ensures gs'[j].members == Select(rows, key, gs'[j].key) && gs'[j].members != []
    {
      SelectHead(rows, key, gs[j].key);
    }
  }

  lemma JoinCovers<R, K>(gs: seq<Group<K, R>>, rows: seq<R>, key: R -> Option<K>, i: nat, g: Group<K, R>)
    requires rows != [] && key(rows[0]).Some?
    requires Covers(gs, rows[1..], key)
    requires i < |gs| && gs[i].key == key(rows[0]).value && g.key == gs[i].key
    ensures Covers(gs[i := g], rows, key)
  {
    var gs' := gs[i := g];
    forall x | x in rows && key(x).Some? ensures Find(gs', key(x).value) < |gs'| {
      if x == rows[0] {
        FindPresent(gs', i, key(x).value);
      } else {
        assert x in rows[1..];
        var j := Find(gs, key(x).value);
        FindPresent(gs', j, key(x).value);
      }
    }
  }

  /** A key present at some position is found. */
  lemma {:induction false} FindPresent<K, R>(gs: seq<Group<K, R>>, j: nat, k: K)
    requires j < |gs| && gs[j].key == k
    ensures Find(gs, k) <= j
  {
    if gs[0].key != k {
      FindPresent(gs[1..], j - 1, k);
    }
  }

  lemma OpenGroup<R, K>(gs: seq<Group<K, R>>, rows: seq<R>, key: R -> Option<K>)
    requires rows != [] && key(rows[0]).Some?
    requires GroupsOf(gs, rows[1..], key)
    requires Find(gs, key(rows[0]).value) == |gs|
    ensures GroupsOf(gs + [Group(key(rows[0]).value, [rows[0]])], rows, key)
  {
    var k := key(rows[0]).value;
    OpenDistinct(gs, Group(k, [rows[0]]));
    OpenFaithful(gs, rows, key);
    OpenCovers(gs, rows, key);
    TotalAppend(gs, Group(k, [rows[0]]));
  }

  lemma OpenDistinct<K, R>(gs: seq<Group<K, R>>, g: Group<K, R>)
    requires KeysDistinct(gs) && Find(gs, g.key) == |gs|
    ensures KeysDistinct(gs + [g])
  {
    var gs' := gs + [g];
    forall i, j | 0 <= i < j < |gs'| ensures gs'[i].key != gs'[j].key {
      assert gs'[i] == gs[i];
      if j < |gs| {
        assert gs'[j] == gs[j];
      }
    }
  }

  lemma OpenFaithful<R, K>(gs: seq<Group<K, R>>, rows: seq<R>, key: R -> Option<K>)
    requires rows != [] && key(rows[0]).Some?
    requires Faithful(gs, rows[1..], key) && Covers(gs, rows[1..], key)
    requires Find(gs, key(rows[0]).value) == |gs|
    ensures Faithful(gs + [Group(key(rows[0]).value, [rows[0]])], rows, key)
  {
    var k := key(rows[0]).value;
    var gs' := gs + [Group(k, [rows[0]])];
    KeyWithRowsIsFound(gs, rows[1..], key, k);
    forall j | 0 <= j < |gs'|
      ensures gs'[j].members == Select(rows, key, gs'[j].key) && gs'[j].members != []
    {
      SelectHead(rows, key, gs'[j].key);
      if j < |gs| {
        assert gs'[j] == gs[j] && gs[j].key != k;
      } else {
        assert Select(rows[1..], key, k) == [];
      }
    }
  }

  /** A key that some row carries has a group. */
  lemma KeyWithRowsIsFound<R, K>(gs: seq<Group<K, R>>, rows: seq<R>, key: R -> Option<K>, k: K)
    requires Covers(gs, rows, key)
    ensures Select(rows, key, k) != [] ==> Find(gs, k) < |gs|
  {
    if Select(rows, key, k) != [] {
      var y := Select(rows, key, k)[0];
      assert y in Select(rows, key, k);
    }
  }

  lemma OpenCovers<R, K>(gs: seq<Group<K, R>>, rows: seq<R>, key: R -> Option<K>)
    requires rows != [] && key(rows[0]).Some?
    requires Covers(gs, rows[1..], key)
    ensures Covers(gs + [Group(key(rows[0]).value, [rows[0]])], rows, key)
  {
    var gs' := gs + [Group(key(rows[0]).value, [rows[0]])];
    forall x | x in rows && key(x).Some? ensures Find(gs', key(x).value) < |gs'| {
      if x == rows[0] {
        FindPresent(gs', |gs|, key(x).value);
      } else {
        assert x in rows[1..];
        var j := Find(gs, key(x).value);
        FindPresent(gs', j, key(x).value);
      }
    }
  }

  /** Keeps the groups whose weight is above min, in order. */
  function MoreThan<K, R>(gs: seq<Group<K, R>>, weight: seq<R> -> int, min: int): (r: seq<Group<K, R>>)
    ensures |r| <= |gs|
  {
    if gs == [] then []
    else if weight(gs[0].members) > min then [gs[0]] + MoreThan(gs[1..], weight, min)
    else MoreThan(gs[1..], weight, min)
  }

  /** Every group kept is one of the input's and weighs more than min. */
  lemma {:induction false} MoreThanSound<K, R>(gs: seq<Group<K, R>>, weight: seq<R> -> int, min: int)
    ensures forall i :: 0 <= i < |MoreThan(gs, weight, min)| ==>
      MoreThan(gs, weight, min)[i] in gs && weight(MoreThan(gs, weight, min)[i].members) > min
  {
    if gs != [] {
      var rest := MoreThan(gs[1..], weight, min);
      MoreThanSound(gs[1..], weight, min);
      if weight(gs[0].members) > min {
        var r := [gs[0]] + rest;
        assert MoreThan(gs, weight, min) == r;
        forall i | 1 <= i < |r| ensures r[i] in gs && weight(r[i].members) > min {
          assert r[i] == rest[i - 1] && rest[i - 1] in gs[1..];
          var k :| 0 <= k < |gs[1..]| && gs[1..][k] == r[i];
          assert gs[k + 1] == r[i];
        }
      }
    }
  }

  /** Every input group weighing more than min is kept. */
  lemma {:induction false} MoreThanComplete<K, R>(gs: seq<Group<K, R>>, weight: seq<R> -> int, min: int)
    ensures forall g :: g in gs && weight(g.members) > min ==> g in MoreThan(gs, weight, min)
  {
    if gs != [] {
      MoreThanComplete(gs[1..], weight, min);
      assert forall g :: g in gs ==> g == gs[0] || g in gs[1..];
    }
  }

  /** Keeping some groups keeps their keys distinct. */
  lemma {:induction false} MoreThanDistinct<K, R>(gs: seq<Group<K, R>>, weight: seq<R> -> int, min: int)
    ensures KeysDistinct(gs) ==> KeysDistinct(MoreThan(gs, weight, min))
  {
    if gs != [] && KeysDistinct(gs) {
      var rest := MoreThan(gs[1..], weight, min);
      MoreThanDistinct(gs[1..], weight, min);
      if weight(gs[0].members) > min {
        MoreThanSound(gs[1..], weight, min);
        var r := [gs[0]] + rest;
        assert MoreThan(gs, weight, min) == r;
        forall i, j | 0 <= i < j < |r| ensures r[i].key != r[j].key {
          assert r[j] == rest[j - 1];
          if i == 0 {
            assert r[j] in gs[1..];
            var k :| 0 <= k < |gs[1..]| && gs[1..][k] == r[j];
            assert gs[k + 1] == r[j];
          } else {
            assert r[i] == rest[i - 1];
          }
        }
      }
    }
  }

  /** Non-increasing by rank. */
  ghost predicate SortedBy<K, R>(gs: seq<Group<K, R>>, rank: Group<K, R> -> int)
  {
    forall i, j :: 0 <= i < j < |gs| ==> rank(gs[i]) >= rank(gs[j])
  }

  /** Puts g before the first group of lower rank. */
  function Insert<K(==), R(==)>(g: Group<K, R>, gs: seq<Group<K, R>>, rank: Group<K, R> -> int): (r: seq<Group<K, R>>)
    ensures |r| == |gs| + 1
    ensures multiset(r) == multiset(gs) + multiset{g}
  {
    if gs == [] then [g]
    else if rank(g) >= rank(gs[0]) then [g] + gs
    else
      assert gs == [gs[0]] + gs[1..];
      [gs[0]] + Insert(g, gs[1..], rank)
  }

  /** A group ranked at least as high as the head of a sorted sequence can go in front. */
  lemma SortedCons<K, R>(x: Group<K, R>, gs: seq<Group<K, R>>, rank: Group<K, R> -> int)
    requires SortedBy(gs, rank)
    requires gs != [] ==> rank(x) >= rank(gs[0])
    ensures SortedBy([x] + gs, rank)
  {
    var r := [x] + gs;
    forall i, j | 0 <= i < j < |r| ensures rank(r[i]) >= rank(r[j]) {
      assert r[j] == gs[j - 1];
      if i > 0 {
        assert r[i] == gs[i - 1];
      }
    }
  }

  /** Inserting into a sorted sequence keeps it sorted; the head is g or the old head. */
  lemma {:induction false} InsertSorted<K, R>(g: Group<K, R>, gs: seq<Group<K, R>>, rank: Group<K, R> -> int)
    requires SortedBy(gs, rank)
    ensures Insert(g, gs, rank)[0] == g || (gs != [] && Insert(g, gs, rank)[0] == gs[0])
    ensures SortedBy(Insert(g, gs, rank), rank)
  {
    if gs == [] {
      assert Insert(g, gs, rank) == [g];
    } else if rank(g) >= rank(gs[0]) {
      SortedCons(g, gs, rank);
    } else {
      assert SortedBy(gs[1..], rank);
      InsertSorted(g, gs[1..], rank);
      var rest := Insert(g, gs[1..], rank);
      assert rank(gs[0]) >= rank(rest[0]);
      SortedCons(gs[0], rest, rank);
    }
  }

  lemma {:induction false} InsertTotal<K, R>(g: Group<K, R>, gs: seq<Group<K, R>>, rank: Group<K, R> -> int)
    ensures Total(Insert(g, gs, rank)) == Total(gs) + |g.members|
  {
    if gs != [] && rank(g) < rank(gs[0]) {
      InsertTotal(g, gs[1..], rank);
      assert ([gs[0]] + Insert(g, gs[1..], rank))[1..] == Insert(g, gs[1..], rank);
    }
  }

  /** A group whose key is new can go in front of groups with distinct keys. */
  lemma DistinctCons<K, R>(x: Group<K, R>, gs: seq<Group<K, R>>)
    requires KeysDistinct(gs)
    requires forall i :: 0 <= i < |gs| ==> gs[i].key != x.key
    ensures KeysDistinct([x] + gs)
  {
    var r := [x] + gs;
    forall i, j | 0 <= i < j < |r| ensures r[i].key != r[j].key {
      assert r[j] == gs[j - 1];
      if i > 0 {
        assert r[i] == gs[i - 1];
      }
    }
  }

  lemma {:induction false} InsertDistinct<K, R>(g: Group<K, R>, gs: seq<Group<K, R>>, rank: Group<K, R> -> int)
    requires KeysDistinct(gs)
    requires forall i :: 0 <= i < |gs| ==> gs[i].key != g.key
    ensures KeysDistinct(Insert(g, gs, rank))
  {
    if gs == [] {
      assert Insert(g, gs, rank) == [g];
    } else if rank(g) >= rank(gs[0]) {
      DistinctCons(g, gs);
    } else {
      var tail := gs[1..];
      assert KeysDistinct(tail);
      assert forall i :: 0 <= i < |tail| ==> tail[i] == gs[i + 1];
      InsertDistinct(g, tail, rank);
      var rest := Insert(g, tail, rank);
      forall i | 0 <= i < |rest| ensures rest[i].key != gs[0].key {
        assert rest[i] in multiset(rest);
        if rest[i] != g {
          assert rest[i] in multiset(tail);
          var j :| 0 <= j < |tail| && tail[j] == rest[i];
          assert gs[j + 1] == rest[i];
        }
      }
      DistinctCons(gs[0], rest);
    }
  }

  /** Insertion sort of groups, largest rank first; a permutation of its input. */
  function Sort<K(==), R(==)>(gs: seq<Group<K, R>>, rank: Group<K, R> -> int): (r: seq<Group<K, R>>)
    ensures |r| == |gs|
    ensures multiset(r) == multiset(gs)
  {
    if gs == [] then []
    else
      assert gs == [gs[0]] + gs[1..];
      Insert(gs[0], Sort(gs[1..], rank), rank)
  }

  /** Sorting puts the groups in non-increasing order of rank. */
  lemma {:induction false} SortSorted<K, R>(gs: seq<Group<K, R>>, rank: Group<K, R> -> int)
    ensures SortedBy(Sort(gs, rank), rank)
  {
    if gs != [] {
      SortSorted(gs[1..], rank);
      InsertSorted(gs[0], Sort(gs[1..], rank), rank);
    }
  }

  /** Sorting keeps the groups. */
  lemma SortKeepsGroups<K, R>(gs: seq<Group<K, R>>, rank: Group<K, R> -> int)
    ensures forall g :: g in gs ==> g in Sort(gs, rank)
    ensures forall i :: 0 <= i < |gs| ==> Sort(gs, rank)[i] in gs
  {
    var r := Sort(gs, rank);
    forall g | g in gs ensures g in r {
      assert g in multiset(gs);
    }
    forall i | 0 <= i < |r| ensures r[i] in gs {
      assert r[i] in multiset(r);
    }
  }

  /** Sorting keeps the number of rows held. */
  lemma {:induction false} SortTotal<K, R>(gs: seq<Group<K, R>>, rank: Group<K, R> -> int)
    ensures Total(Sort(gs, rank)) == Total(gs)
  {
    if gs != [] {
      SortTotal(gs[1..], rank);
      InsertTotal(gs[0], Sort(gs[1..], rank), rank);
    }
  }

  /** Sorting keeps the keys distinct. */
  lemma {:induction false} SortDistinct<K, R>(gs: seq<Group<K, R>>, rank: Group<K, R> -> int)
    requires KeysDistinct(gs)
    ensures KeysDistinct(Sort(gs, rank))
  {
    if gs != [] {
      var rest := Sort(gs[1..], rank);
      SortDistinct(gs[1..], rank);
      SortKeepsGroups(gs[1..], rank);
      forall i | 0 <= i < |rest| ensures rest[i].key != gs[0].key {
        var j :| 0 <= j < |gs[1..]| && gs[1..][j] == rest[i];
        assert gs[j + 1] == rest[i];
      }
      InsertDistinct(gs[0], rest, rank);
    }
  }

  /** The first n groups (all of them when there are fewer). */
  function Take<K, R>(gs: seq<Group<K, R>>, n: nat): (r: seq<Group<K, R>>)
    ensures |r| <= n && |r| <= |gs|
    ensures |gs| <= n ==> r == gs
    ensures forall i :: 0 <= i < |r| ==> r[i] == gs[i]
  {
    if |gs| <= n then gs else gs[..n]
  }

  /** A group left out by Take ranks no higher than every group kept, and it
      was left out because all n places were taken. */
  lemma TakeDropsOnlyLower<K, R>(gs: seq<Group<K, R>>, n: nat, rank: Group<K, R> -> int, g: Group<K, R>)
    requires SortedBy(gs, rank)
    requires g in gs && g !in Take(gs, n)
    ensures |Take(gs, n)| == n
    ensures forall i :: 0 <= i < n ==> rank(Take(gs, n)[i]) >= rank(g)
  {
    var j :| 0 <= j < |gs| && gs[j] == g;
    assert forall i :: 0 <= i < |Take(gs, n)| ==> Take(gs, n)[i] != g;
  }

  /** A kept group: no threshold, or a weight above it. */
  predicate Passes(w: int, threshold: Option<int>)
  {
    threshold.None? || w > threshold.value
  }

  /** The groups whose weight passes the threshold (all of them without one). */
  function Kept<K, R>(gs: seq<Group<K, R>>, weight: seq<R> -> int, threshold: Option<int>): (r: seq<Group<K, R>>)
    ensures |r| <= |gs|
    ensures threshold.None? ==> r == gs
  {
    if threshold.Some? then MoreThan(gs, weight, threshold.value) else gs
  }

  /** The groups kept are exactly the input's groups that pass, with their
      keys still distinct. */
  lemma KeptGroups<K, R>(gs: seq<Group<K, R>>, weight: seq<R> -> int, threshold: Option<int>)
    ensures var r := Kept(gs, weight, threshold);
      && (forall i :: 0 <= i < |r| ==> r[i] in gs && Passes(weight(r[i].members), threshold))
      && (forall g :: g in gs && Passes(weight(g.members), threshold) ==> g in r)
      && (KeysDistinct(gs) ==> KeysDistinct(r))
  {
    if threshold.Some? {
      MoreThanSound(gs, weight, threshold.value);
      MoreThanComplete(gs, weight, threshold.value);
      MoreThanDistinct(gs, weight, threshold.value);
    }
  }

  /** Orders groups by the weight of their rows. */
  function ByWeight<K, R>(weight: seq<R> -> int): Group<K, R> -> int
  {
    (g: Group<K, R>) => weight(g.members)
  }

  /** The count-ranked view: group, keep the groups whose weight passes the
      threshold, sort by weight descending and keep the first `limit`. */
  function Top<R(==), K(==)>(rows: seq<R>, key: R -> Option<K>, weight: seq<R> -> int,
                             threshold: Option<int>, limit: Option<nat>): seq<Group<K, R>>
  {
    Cut(Ranked(rows, key, weight, threshold), limit)
  }

  /** The qualifying groups, heaviest first. */
  function Ranked<R(==), K(==)>(rows: seq<R>, key: R -> Option<K>, weight: seq<R> -> int,
                                threshold: Option<int>): seq<Group<K, R>>
  {
    Sort(Kept(GroupBy(rows, key), weight, threshold), ByWeight(weight))
  }

  /** The first `limit` groups, or all of them without a limit. */
  function Cut<K, R>(gs: seq<Group<K, R>>, limit: Option<nat>): seq<Group<K, R>>
  {
    if limit.Some? then Take(gs, limit.value) else gs
  }

  /** The ranked view before the cut: distinct keys, faithful groups, and the
      groups are exactly the qualifying ones. */
  lemma RankedGroups<R, K>(rows: seq<R>, key: R -> Option<K>, weight: seq<R> -> int, threshold: Option<int>)
    ensures var s := Ranked(rows, key, weight, threshold);
      && KeysDistinct(s)
      && Faithful(s, rows, key)
      && (forall i :: 0 <= i < |s| ==> Passes(weight(s[i].members), threshold))
      && (threshold.None? ==> Total(s) == Keyed(rows, key))
      && SortedBy(s, ByWeight(weight))
  {
    var gs := GroupBy(rows, key);
    GroupByGroups(rows, key);
    var kept := Kept(gs, weight, threshold);
    KeptGroups(gs, weight, threshold);
    SortSorted(kept, ByWeight(weight));
    FaithfulSubset(gs, kept, rows, key);
    SortKeepsGroups(kept, ByWeight(weight));
    SortDistinct(kept, ByWeight(weight));
    SortTotal(kept, ByWeight(weight));
    FaithfulSubset(kept, Sort(kept, ByWeight(weight)), rows, key);
  }

  /** A count-ranked view has distinct keys, and each of its groups holds
      exactly the rows of its key. */
  lemma TopGroups<R, K>(rows: seq<R>, key: R -> Option<K>, weight: seq<R> -> int,
                        threshold: Option<int>, limit: Option<nat>)
    ensures KeysDistinct(Top(rows, key, weight, threshold, limit))
    ensures Faithful(Top(rows, key, weight, threshold, limit), rows, key)
    ensures threshold.None? && limit.None? ==> Total(Top(rows, key, weight, threshold, limit)) == Keyed(rows, key)
  {
    RankedGroups(rows, key, weight, threshold);
  }

  /** A count-ranked view keeps only groups past the threshold, at most
      `limit` of them, in non-increasing order of weight. */
  lemma TopOrder<R, K>(rows: seq<R>, key: R -> Option<K>, weight: seq<R> -> int,
                       threshold: Option<int>, limit: Option<nat>)
    ensures var r := Top(rows, key, weight, threshold, limit);
      && (forall i :: 0 <= i < |r| ==> Passes(weight(r[i].members), threshold))
      && (limit.Some? ==> |r| <= limit.value)
      && (forall i, j :: 0 <= i < j < |r| ==> weight(r[i].members) >= weight(r[j].members))
  {
    RankedGroups(rows, key, weight, threshold);
  }

  /** No qualifying key is missing from a count-ranked view unless all
      `limit` places went to keys of at least its weight. */
  lemma TopIsComplete<R, K>(rows: seq<R>, key: R -> Option<K>, weight: seq<R> -> int,
                            threshold: Option<int>, limit: Option<nat>, x: R)
    requires x in rows && key(x).Some?
    requires Passes(weight(Select(rows, key, key(x).value)), threshold)
    ensures var r := Top(rows, key, weight, threshold, limit);
      || (exists i :: 0 <= i < |r| && r[i].key == key(x).value)
      || (limit.Some? && |r| == limit.value &&
          forall i :: 0 <= i < |r| ==> weight(r[i].members) >= weight(Select(rows, key, key(x).value)))
  {
    var g := Group(key(x).value, Select(rows, key, key(x).value));
    RankedHasQualifying(rows, key, weight, threshold, x);
    assert Top(rows, key, weight, threshold, limit) == Cut(Ranked(rows, key, weight, threshold), limit);
    CutKeepsOrLimits(Ranked(rows, key, weight, threshold), limit, weight, g);
  }

  /** The group of a key that passes the threshold is among the ranked groups. */
  lemma RankedHasQualifying<R, K>(rows: seq<R>, key: R -> Option<K>, weight: seq<R> -> int,
                                  threshold: Option<int>, x: R)
    requires x in rows && key(x).Some?
    requires Passes(weight(Select(rows, key, key(x).value)), threshold)
    ensures Group(key(x).value, Select(rows, key, key(x).value)) in Ranked(rows, key, weight, threshold)
    ensures SortedBy(Ranked(rows, key, weight, threshold), ByWeight(weight))
  {
    var gs := GroupBy(rows, key);
    GroupByGroups(rows, key);
    var kept := Kept(gs, weight, threshold);
    KeptGroups(gs, weight, threshold);
    SortKeepsGroups(kept, ByWeight(weight));
    var g := Group(key(x).value, Select(rows, key, key(x).value));
    assert gs[Find(gs, key(x).value)] == g;
    assert g in kept;
    SortSorted(kept, ByWeight(weight));
  }

  /** A group of a sorted sequence is kept by the cut, or the cut is full of
      groups at least as heavy. */
  lemma CutKeepsOrLimits<K, R>(sorted: seq<Group<K, R>>, limit: Option<nat>, weight: seq<R> -> int, g: Group<K, R>)
    requires g in sorted && SortedBy(sorted, ByWeight(weight))
    ensures var r := Cut(sorted, limit);
      || (exists i :: 0 <= i < |r| && r[i].key == g.key)
      || (limit.Some? && |r| == limit.value &&
          forall i :: 0 <= i < |r| ==> weight(r[i].members) >= weight(g.members))
  {
    var r := Cut(sorted, limit);
    if g in r {
      var i :| 0 <= i < |r| && r[i] == g;
      assert r[i].key == g.key;
    } else {
      TakeDropsOnlyLower(sorted, limit.value, ByWeight(weight), g);
      forall i | 0 <= i < |r| ensures weight(r[i].members) >= weight(g.members) {
        assert ByWeight(weight)(r[i]) >= ByWeight(weight)(g);
      }
    }
  }

  /** Orders groups by ascending key. */
  function KeyAscending<R>(): Group<int, R> -> int
  {
    (g: Group<int, R>) => -g.key
  }

  /** The key-ordered view: one group per distinct non-null key, ascending by key. */
  function ByKey<R(==)>(rows: seq<R>, key: R -> Option<int>): seq<Group<int, R>>
  {
    Sort(GroupBy(rows, key), KeyAscending())
  }

  /** Each group of a key-ordered view holds exactly the rows of its key. */
  lemma ByKeyFaithful<R>(rows: seq<R>, key: R -> Option<int>)
    ensures Faithful(ByKey(rows, key), rows, key)
  {
    var gs := GroupBy(rows, key);
    GroupByGroups(rows, key);
    SortKeepsGroups(gs, KeyAscending());
    FaithfulSubset(gs, ByKey(rows, key), rows, key);
  }

  /** A key-ordered view lists its keys strictly ascending, and each group
      holds exactly the rows of its key. */
  lemma ByKeyOrdered<R>(rows: seq<R>, key: R -> Option<int>)
    ensures var r := ByKey(rows, key);
      && (forall i, j :: 0 <= i < j < |r| ==> r[i].key < r[j].key)
      && Faithful(r, rows, key)
  {
    var gs := GroupBy(rows, key);
    GroupByGroups(rows, key);
    SortKeepsGroups(gs, KeyAscending());
    SortDistinct(gs, KeyAscending());
    SortSorted(gs, KeyAscending());
    var r := ByKey(rows, key);
    forall i, j | 0 <= i < j < |r| ensures r[i].key < r[j].key {
      assert KeyAscending()(r[i]) >= KeyAscending()(r[j]);
      assert r[i].key != r[j].key;
    }
    FaithfulSubset(gs, r, rows, key);
  }

  /** A key-ordered view has a group for every non-null key. */
  lemma ByKeyComplete<R>(rows: seq<R>, key: R -> Option<int>)
    ensures var r := ByKey(rows, key);
      forall x :: x in rows && key(x).Some? ==> exists i :: 0 <= i < |r| && r[i].key == key(x).value
  {
    var gs := GroupBy(rows, key);
    GroupByGroups(rows, key);
    var r := ByKey(rows, key);
    SortKeepsGroups(gs, KeyAscending());
    forall x | x in rows && key(x).Some? ensures exists i :: 0 <= i < |r| && r[i].key == key(x).value {
      assert gs[Find(gs, key(x).value)] in r;
    }
  }

  /** The groups of a key-ordered view together hold every keyed row. */
  lemma ByKeyTotal<R>(rows: seq<R>, key: R -> Option<int>)
    ensures Total(ByKey(rows, key)) == Keyed(rows, key)
  {
    GroupByGroups(rows, key);
    SortTotal(GroupBy(rows, key), KeyAscending());
  }

  /** One output row of a view: the group's key, its count and its other aggregates. */
  datatype Row<K, S> = Row(key: K, count: int, stats: S)

  /** The aggregate row of every group, in the groups' order. */
  function Summarize<K, R, S>(gs: seq<Group<K, R>>, count: seq<R> -> int, stats: seq<R> -> S): (r: seq<Row<K, S>>)
    ensures |r| == |gs|
    ensures forall i :: 0 <= i < |r| ==> r[i] == Row(gs[i].key, count(gs[i].members), stats(gs[i].members))
  {
    seq(|gs|, i requires 0 <= i < |gs| => Row(gs[i].key, count(gs[i].members), stats(gs[i].members)))
  }

  /** Spark's `count("*")`: the number of rows of a group. */
  function Size<R>(xs: seq<R>): int
  {
    |xs|
  }

  /** Sum of a view's counts. */
  function Counts<K, S>(r: seq<Row<K, S>>): int
  {
    if r == [] then 0 else r[0].count + Counts(r[1..])
  }

  /** When a view counts rows, its counts add up to the rows its groups hold. */
  lemma {:induction false} CountsAreTotal<K, R, S>(gs: seq<Group<K, R>>, count: seq<R> -> int, stats: seq<R> -> S)
    requires forall i :: 0 <= i < |gs| ==> count(gs[i].members) == |gs[i].members|
    ensures Counts(Summarize(gs, count, stats)) == Total(gs)
  {
    if gs != [] {
      assert Summarize(gs, count, stats)[1..] == Summarize(gs[1..], count, stats);
      CountsAreTotal(gs[1..], count, stats);
    }
  }

  /** Faithful groups counted by a function that counts the rows of every
      key count exactly their rows. */
  lemma CountsOfFaithful<K, R>(gs: seq<Group<K, R>>, rows: seq<R>, key: R -> Option<K>, count: seq<R> -> int)
    requires Faithful(gs, rows, key)
    requires forall k :: count(Select(rows, key, k)) == |Select(rows, key, k)|
    ensures forall i :: 0 <= i < |gs| ==> count(gs[i].members) == |gs[i].members|
  {
    forall i | 0 <= i < |gs| ensures count(gs[i].members) == |gs[i].members| {
      var k := gs[i].key;
      assert gs[i].members == Select(rows, key, k);
      assert count(Select(rows, key, k)) == |Select(rows, key, k)|;
    }
  }

  /** The rows of a count-ranked view: distinct keys; each count and each
      aggregate is that of exactly the rows with the key; every count passes
      the threshold; at most `limit` rows; counts non-increasing. */
  lemma TopRows<R, K, S>(rows: seq<R>, key: R -> Option<K>, count: seq<R> -> int,
                         threshold: Option<int>, limit: Option<nat>, stats: seq<R> -> S)
    ensures var r := Summarize(Top(rows, key, count, threshold, limit), count, stats);
      && (forall i, j :: 0 <= i < j < |r| ==> r[i].key != r[j].key)
      && (forall i :: 0 <= i < |r| ==>
            && Select(rows, key, r[i].key) != []
            && r[i].count == count(Select(rows, key, r[i].key))
            && r[i].stats == stats(Select(rows, key, r[i].key)))
      && (forall i :: 0 <= i < |r| ==> Passes(r[i].count, threshold))
      && (limit.Some? ==> |r| <= limit.value)
      && (forall i, j :: 0 <= i < j < |r| ==> r[i].count >= r[j].count)
  {
    TopGroups(rows, key, count, threshold, limit);
    TopOrder(rows, key, count, threshold, limit);
  }

  /** A count-ranked view misses a key that passes the threshold only when
      all `limit` rows went to keys counted at least as high. */
  lemma TopRowsComplete<R, K, S>(rows: seq<R>, key: R -> Option<K>, count: seq<R> -> int,
                                 threshold: Option<int>, limit: Option<nat>, stats: seq<R> -> S, x: R)
    requires x in rows && key(x).Some?
    requires Passes(count(Select(rows, key, key(x).value)), threshold)
    ensures var r := Summarize(Top(rows, key, count, threshold, limit), count, stats);
      || (exists i :: 0 <= i < |r| && r[i].key == key(x).value)
      || (limit.Some? && |r| == limit.value &&
          forall i :: 0 <= i < |r| ==> r[i].count >= count(Select(rows, key, key(x).value)))
  {
    TopIsComplete(rows, key, count, threshold, limit, x);
    var gs := Top(rows, key, count, threshold, limit);
    var r := Summarize(gs, count, stats);
    if i :| 0 <= i < |gs| && gs[i].key == key(x).value {
      assert r[i].key == key(x).value;
    }
  }

  /** An uncut count-ranked view that counts rows accounts for every keyed row. */
  lemma TopRowsTotal<R, K, S>(rows: seq<R>, key: R -> Option<K>, count: seq<R> -> int, stats: seq<R> -> S)
    requires forall k :: count(Select(rows, key, k)) == |Select(rows, key, k)|
    ensures Counts(Summarize(Top(rows, key, count, None, None), count, stats)) == Keyed(rows, key)
  {
    var gs := Top(rows, key, count, None, None);
    TopGroups(rows, key, count, None, None);
    CountsOfFaithful(gs, rows, key, count);
    CountsAreTotal(gs, count, stats);
  }

  /** The rows of a key-ordered view: keys strictly ascending, each count and
      aggregate that of exactly the rows with the key, and a row for every
      non-null key present. */
  lemma ByKeyRows<R, S>(rows: seq<R>, key: R -> Option<int>, count: seq<R> -> int, stats: seq<R> -> S)
    ensures var r := Summarize(ByKey(rows, key), count, stats);
      && (forall i, j :: 0 <= i < j < |r| ==> r[i].key < r[j].key)
      && (forall i :: 0 <= i < |r| ==>
            && Select(rows, key, r[i].key) != []
            && r[i].count == count(Select(rows, key, r[i].key))
            && r[i].stats == stats(Select(rows, key, r[i].key)))
      && (forall x :: x in rows && key(x).Some? ==> exists i :: 0 <= i < |r| && r[i].key == key(x).value)
  {
    var gs := ByKey(rows, key);
    var r := Summarize(gs, count, stats);
    ByKeyOrdered(rows, key);
    forall i, j | 0 <= i < j < |r| ensures r[i].key < r[j].key {
      assert r[i].key == gs[i].key && r[j].key == gs[j].key;
    }
    forall i | 0 <= i < |r|
      ensures && Select(rows, key, r[i].key) != []
              && r[i].count == count(Select(rows, key, r[i].key))
              && r[i].stats == stats(Select(rows, key, r[i].key))
    {
      assert r[i] == Row(gs[i].key, count(gs[i].members), stats(gs[i].members));
      assert gs[i].members == Select(rows, key, gs[i].key) != [];
    }
    ByKeyComplete(rows, key);
    forall x | x in rows && key(x).Some? ensures exists i :: 0 <= i < |r| && r[i].key == key(x).value {
      var i :| 0 <= i < |gs| && gs[i].key == key(x).value;
      assert r[i].key == key(x).value;
    }
  }

  /** A key-ordered view that counts rows accounts for every keyed row. */
  lemma ByKeyRowsTotal<R, S>(rows: seq<R>, key: R -> Option<int>, count: seq<R> -> int, stats: seq<R> -> S)
    requires forall k :: count(Select(rows, key, k)) == |Select(rows, key, k)|
    ensures Counts(Summarize(ByKey(rows, key), count, stats)) == Keyed(rows, key)
  {
    var gs := ByKey(rows, key);
    ByKeyTotal(rows, key);
    ByKeyFaithful(rows, key);
    forall i | 0 <= i < |gs| ensures count(gs[i].members) == |gs[i].members| {
      assert gs[i].members == Select(rows, key, gs[i].key);
    }
    CountsAreTotal(gs, count, stats);
  }
}
