/** The taxi-zone table: normalising the columns of a zone file, building
    the id-to-zone mapping the dashboard reads, the simulated table used
    when no usable file exists, and the order in which files are tried.
    A table is a sequence of named columns of equal height; a cell holds an
    integer, a float (with its spelling in the file), text, or nothing. */
module LocationUtils {
  import opened Stats
  import opened Text
  import opened Sequences

  datatype Cell = IntCell(i: int) | RealCell(r: real, spelling: string) | TextCell(s: string) | Missing
  datatype Column = Column(name: string, cells: seq<Cell>)
  datatype Table = Table(cols: seq<Column>, height: nat)

  /** Every column has one cell per row. */
  predicate WellFormed(t: Table)
  {
    forall i :: 0 <= i < |t.cols| ==> |t.cols[i].cells| == t.height
  }

  function Names(t: Table): (ns: seq<string>)
    ensures |ns| == |t.cols|
    ensures forall i :: 0 <= i < |ns| ==> ns[i] == t.cols[i].name
  {
    seq(|t.cols|, i requires 0 <= i < |t.cols| => t.cols[i].name)
  }

  /** Index of the first column with the given name, or the column count. */
  function ColumnIndex(cols: seq<Column>, name: string): (i: nat)
    ensures i <= |cols|
    ensures i < |cols| ==> cols[i].name == name
    ensures forall j :: 0 <= j < i ==> cols[j].name != name
  {
    if cols == [] then 0 else if cols[0].name == name then 0 else 1 + ColumnIndex(cols[1..], name)
  }

  /** pandas' `name in df.columns`. */
  predicate Has(t: Table, name: string)
  {
    ColumnIndex(t.cols, name) < |t.cols|
  }

  /** Appending a column leaves the first column of every name already
      present where it was. */
  lemma {:induction false} IndexAppend(cols: seq<Column>, c: Column, name: string)
    ensures ColumnIndex(cols + [c], name) ==
      if ColumnIndex(cols, name) < |cols| then ColumnIndex(cols, name)
      else if c.name == name then |cols| else |cols| + 1
  {
    if cols != [] {
      assert (cols + [c])[1..] == cols[1..] + [c];
      IndexAppend(cols[1..], c, name);
    }
  }

  /** Tables whose columns carry the same names find every name at the same place. */
  lemma {:induction false} IndexOfSameNames(a: seq<Column>, b: seq<Column>, name: string)
    requires |a| == |b| && forall i :: 0 <= i < |a| ==> a[i].name == b[i].name
    ensures ColumnIndex(a, name) == ColumnIndex(b, name)
  {
    if a != [] {
      IndexOfSameNames(a[1..], b[1..], name);
    }
  }

  /** pandas' `empty`: no rows or no columns. */
  predicate IsEmpty(t: Table)
  {
    t.height == 0 || |t.cols| == 0
  }

  /** The canonical columns, in output order. */
  const Required: seq<string> := ["location_id", "borough", "zone_name", "latitude", "longitude"]

  // ---- _process_zones_data ----

  /** The canonical name of a raw header, by the first test it passes:
      "location", then "borough", then "zone" without "service", then
      "lat", then "lon". */
  function Classify(name: string): (r: Option<string>)
    ensures r.Some? ==> r.value in Required
  {
    var n := Lower(name);
    if Contains(n, "location") then Some("location_id")
    else if Contains(n, "borough") then Some("borough")
    else if Contains(n, "zone") && !Contains(n, "service") then Some("zone_name")
    else if Contains(n, "lat") || Contains(n, "latitude") then Some("latitude")
    else if Contains(n, "lon") || Contains(n, "longitude") then Some("longitude")
    else None
  }

  /** The order of the tests decides: "LocationID" is the id whatever
      else it says, and a "service_zone" header is left alone although it
      mentions "zone". */
  lemma ClassifyIdFirst()
    ensures Classify("LocationID") == Some("location_id")
  {
    assert Lower("LocationID") == "locationid";
    assert OccursAt("locationid", "location", 0);
  }

  lemma ClassifyServiceZone()
    ensures Classify("service_zone") == None
  {
    ServiceZoneLower();
    ServiceZoneWords();
  }

  lemma ServiceZoneLower()
    ensures Lower("service_zone") == "service_zone"
  {
  }

  /** What the tests of Classify find in "service_zone": it names a
      service, and neither an id, a borough nor a coordinate. */
  lemma ServiceZoneWords()
    ensures var sz := "service_zone";
      && Contains(sz, "service")
      && !Contains(sz, "location") && !Contains(sz, "borough")
      && !Contains(sz, "lat") && !Contains(sz, "latitude")
      && !Contains(sz, "lon") && !Contains(sz, "longitude")
  {
    var sz := "service_zone";
    assert OccursAt(sz, "service", 0);
    assert 'l' !in sz && 'b' !in sz;
    FirstCharAbsent(sz, "location");
    FirstCharAbsent(sz, "borough");
    FirstCharAbsent(sz, "lat");
    FirstCharAbsent(sz, "latitude");
    FirstCharAbsent(sz, "lon");
    FirstCharAbsent(sz, "longitude");
  }

  /** The headers of the published lookup file: "Zone" is the zone name and
      "Borough" the borough. */
  lemma ClassifyLookupHeaders()
    ensures Classify("Zone") == Some("zone_name")
    ensures Classify("Borough") == Some("borough")
  {
    assert Lower("Zone") == "zone";
    assert OccursAt("zone", "zone", 0);
    FirstCharAbsent("zone", "location");
    FirstCharAbsent("zone", "borough");
    FirstCharAbsent("zone", "service");
    assert Lower("Borough") == "borough";
    assert OccursAt("borough", "borough", 0);
    FirstCharAbsent("borough", "location");
  }

  /** The rename map: every classified header to its canonical name. */
  function ColumnMapping(names: seq<string>): map<string, string>
  {
    map n | n in names && Classify(n).Some? :: Classify(n).value
  }

  function Lowercased(t: Table): (r: Table)
    ensures r.height == t.height && |r.cols| == |t.cols|
    ensures forall i :: 0 <= i < |t.cols| ==> r.cols[i] == Column(Lower(t.cols[i].name), t.cols[i].cells)
  {
    Table(seq(|t.cols|, i requires 0 <= i < |t.cols| => Column(Lower(t.cols[i].name), t.cols[i].cells)), t.height)
  }

  function Renamed(t: Table, m: map<string, string>): (r: Table)
    ensures r.height == t.height && |r.cols| == |t.cols|
    ensures forall i :: 0 <= i < |t.cols| ==>
      r.cols[i].cells == t.cols[i].cells &&
      r.cols[i].name == (if t.cols[i].name in m then m[t.cols[i].name] else t.cols[i].name)
  {
    Table(seq(|t.cols|, i requires 0 <= i < |t.cols| =>
      Column(if t.cols[i].name in m then m[t.cols[i].name] else t.cols[i].name, t.cols[i].cells)), t.height)
  }

  /** pandas' `df[name] = cells`: every column so named gets the cells, or a
      new column goes at the end. */
  function WithColumn(t: Table, name: string, cells: seq<Cell>): (r: Table)
    ensures r.height == t.height
    ensures forall m :: Has(r, m) <==> m == name || Has(t, m)
    ensures forall c :: c in r.cols && c.name == name ==> c.cells == cells
    ensures forall c :: c in r.cols && c.name != name ==> c in t.cols
    ensures WellFormed(t) && |cells| == t.height ==> WellFormed(r)
  {
    if Has(t, name) then
      var r := Table(seq(|t.cols|, i requires 0 <= i < |t.cols| =>
        if t.cols[i].name == name then Column(name, cells) else t.cols[i]), t.height);
      assert forall m :: ColumnIndex(r.cols, m) == ColumnIndex(t.cols, m) by {
        forall m ensures ColumnIndex(r.cols, m) == ColumnIndex(t.cols, m) {
          IndexOfSameNames(r.cols, t.cols, m);
        }
      }
      r
    else
      var r := Table(t.cols + [Column(name, cells)], t.height);
      assert forall m :: Has(r, m) <==> m == name || Has(t, m) by {
        forall m ensures Has(r, m) <==> m == name || Has(t, m) {
          IndexAppend(t.cols, Column(name, cells), m);
        }
      }
      r
  }

  /** The default ids 1..n. */
  function Ids(n: nat): (c: seq<Cell>)
    ensures |c| == n && forall i :: 0 <= i < n ==> c[i] == IntCell(i + 1)
  {
    seq(n, i => IntCell(i + 1))
  }

  /** Headers lower-cased and classified; an empty frame keeps its headers. */
  function RenamedHeaders(t: Table): (r: Table)
    ensures WellFormed(t) ==> WellFormed(r)
    ensures r.height == t.height
  {
    if IsEmpty(t) then t else Renamed(Lowercased(t), ColumnMapping(Names(Lowercased(t))))
  }

  /** The ids 1..n when no location_id column exists or the frame is empty. */
  function WithIds(t: Table): (r: Table)
    ensures r.height == t.height && Has(r, "location_id")
    ensures forall m :: m != "location_id" ==> (Has(r, m) <==> Has(t, m))
    ensures WellFormed(t) ==> WellFormed(r)
    ensures !Has(t, "location_id") || IsEmpty(t) ==>
      forall c :: c in r.cols && c.name == "location_id" ==> c.cells == Ids(t.height)
  {
    if !Has(t, "location_id") || IsEmpty(t) then WithColumn(t, "location_id", Ids(t.height)) else t
  }

  /** Coordinates computed per zone id: `simulate` gives the latitude and
      longitude cells that the generator, seeded with an id, yields for it. */
  function WithCoordinates(t: Table, simulate: Cell -> (Cell, Cell)): (r: Table)
    requires WellFormed(t) && Has(t, "location_id")
    ensures r.height == t.height && WellFormed(r)
    ensures Has(r, "latitude") && Has(r, "longitude")
    ensures forall m :: m != "latitude" && m != "longitude" ==> (Has(r, m) <==> Has(t, m))
    ensures forall c :: c in r.cols && c.name != "latitude" && c.name != "longitude" ==> c in t.cols
  {
    var ids := t.cols[ColumnIndex(t.cols, "location_id")].cells;
    var t1 := WithColumn(t, "latitude", Latitudes(ids, simulate));
    WithColumn(t1, "longitude", Longitudes(ids, simulate))
  }

  /** The simulated latitude of each id, in order. */
  function Latitudes(ids: seq<Cell>, simulate: Cell -> (Cell, Cell)): (r: seq<Cell>)
    ensures |r| == |ids| && forall i :: 0 <= i < |ids| ==> r[i] == simulate(ids[i]).0
  {
    seq(|ids|, i requires 0 <= i < |ids| => simulate(ids[i]).0)
  }

  /** The simulated longitude of each id, in order. */
  function Longitudes(ids: seq<Cell>, simulate: Cell -> (Cell, Cell)): (r: seq<Cell>)
    ensures |r| == |ids| && forall i :: 0 <= i < |ids| ==> r[i] == simulate(ids[i]).1
  {
    seq(|ids|, i requires 0 <= i < |ids| => simulate(ids[i]).1)
  }

  /** Simulated coordinates when either coordinate column is missing. */
  function WithCoords(t: Table, simulate: Cell -> (Cell, Cell)): (r: Table)
    requires WellFormed(t) && Has(t, "location_id")
    ensures r.height == t.height && WellFormed(r)
    ensures Has(r, "location_id") && Has(r, "latitude") && Has(r, "longitude")
    ensures forall c :: c in r.cols && c.name == "location_id" ==> c in t.cols
  {
    if !Has(t, "latitude") || !Has(t, "longitude") then WithCoordinates(t, simulate) else t
  }

  /** The columns named `name`, in table order. */
  function Named(cols: seq<Column>, name: string): (r: seq<Column>)
    ensures forall c :: c in r <==> c in cols && c.name == name
  {
    if cols == [] then []
    else if cols[0].name == name then [cols[0]] + Named(cols[1..], name)
    else Named(cols[1..], name)
  }

  /** The columns named in `keep`, grouped in the order of `keep`. */
  function Projection(cols: seq<Column>, keep: seq<string>): seq<Column>
  {
    if keep == [] then [] else Named(cols, keep[0]) + Projection(cols, keep[1..])
  }

  /** The projection keeps exactly the columns whose name it lists. */
  lemma {:induction false} ProjectionKeepsListed(cols: seq<Column>, keep: seq<string>)
    ensures forall c :: c in Projection(cols, keep) <==> c in cols && c.name in keep
  {
    if keep != [] {
      ProjectionKeepsListed(cols, keep[1..]);
    }
  }

  /** Position of a name in a list of names. */
  function Rank(keep: seq<string>, name: string): nat
  {
    if keep == [] || keep[0] == name then 0 else 1 + Rank(keep[1..], name)
  }

  predicate Distinct(keep: seq<string>)
  {
    forall i, j :: 0 <= i < j < |keep| ==> keep[i] != keep[j]
  }

  /** Columns whose names follow the order of `keep`. */
  predicate InOrder(p: seq<Column>, keep: seq<string>)
  {
    forall i, j :: 0 <= i < j < |p| ==> Rank(keep, p[i].name) <= Rank(keep, p[j].name)
  }

  /** The projection follows the order of the (distinct) names it keeps. */
  lemma {:induction false} ProjectionOrdered(cols: seq<Column>, keep: seq<string>)
    requires Distinct(keep)
    ensures InOrder(Projection(cols, keep), keep)
  {
    if keep != [] {
      var a := Named(cols, keep[0]);
      var b := Projection(cols, keep[1..]);
      ProjectionOrdered(cols, keep[1..]);
      ProjectionKeepsListed(cols, keep[1..]);
      var p := a + b;
      forall i, j | 0 <= i < j < |p| ensures Rank(keep, p[i].name) <= Rank(keep, p[j].name) {
        if i < |a| {
          assert p[i] in a;
        } else {
          assert p[i] == b[i - |a|] && p[j] == b[j - |a|];
          assert p[i] in b && p[j] in b;
          assert p[i].name in keep[1..] && p[j].name in keep[1..];
          assert p[i].name != keep[0] && p[j].name != keep[0] by {
            var u :| 0 <= u < |keep[1..]| && keep[1..][u] == p[i].name;
            var v :| 0 <= v < |keep[1..]| && keep[1..][v] == p[j].name;
            assert keep[0] != keep[u + 1] && keep[0] != keep[v + 1];
          }
          assert Rank(keep[1..], p[i].name) <= Rank(keep[1..], p[j].name) by {
            var u, v := i - |a|, j - |a|;
            assert 0 <= u < v < |b|;
            assert Rank(keep[1..], b[u].name) <= Rank(keep[1..], b[v].name);
          }
        }
      }
    }
  }

  /** A projection holds only listed columns, each with one cell per row,
      and every listed name the table had. */
  lemma ProjectionShape(t: Table, keep: seq<string>)
    requires WellFormed(t)
    ensures var p := Table(Projection(t.cols, keep), t.height);
      && WellFormed(p)
      && (forall i :: 0 <= i < |p.cols| ==> p.cols[i].name in keep)
      && (forall n :: n in keep && Has(t, n) ==> Has(p, n))
  {
    var p := Table(Projection(t.cols, keep), t.height);
    ProjectionKeepsListed(t.cols, keep);
    assert forall i :: 0 <= i < |p.cols| ==> p.cols[i] in t.cols;
    forall n | n in keep && Has(t, n) ensures Has(p, n) {
      var c := t.cols[ColumnIndex(t.cols, n)];
      assert c in p.cols;
      var k :| 0 <= k < |p.cols| && p.cols[k] == c;
      assert ColumnIndex(p.cols, n) <= k;
    }
  }

  /** The header classification, renaming and projection of a zone file,
      as one function of the table read. */
  function Processed(t: Table, simulate: Cell -> (Cell, Cell)): (r: Table)
    requires WellFormed(t)
    ensures r.height == t.height
  {
    var t3 := WithCoords(WithIds(RenamedHeaders(t)), simulate);
    Table(Projection(t3.cols, Required), t3.height)
  }

  /** The canonical projection of a table with the key columns keeps them,
      and holds only canonical columns in canonical order. */
  lemma CanonicalProjection(t: Table)
    requires WellFormed(t) && HasKeyColumns(t)
    ensures var r := Table(Projection(t.cols, Required), t.height);
      && WellFormed(r) && HasKeyColumns(r)
      && (forall i :: 0 <= i < |r.cols| ==> r.cols[i].name in Required)
      && InOrder(r.cols, Required)
  {
    assert Required[0] == "location_id" && Required[3] == "latitude" && Required[4] == "longitude";
    ProjectionShape(t, Required);
    RequiredDistinct();
    ProjectionOrdered(t.cols, Required);
  }

  /** The canonical names are pairwise different: all but two differ in
      length, and those two in their first letter. */
  lemma RequiredDistinct()
    ensures Distinct(Required)
  {
    assert |Required[0]| == 11 && |Required[1]| == 7 && |Required[2]| == 9;
    assert |Required[3]| == 8 && |Required[4]| == 9;
    assert Required[2][0] != Required[4][0];
  }

  /** The result keeps every row, has all the key columns, and holds only
      canonical columns in canonical order. */
  lemma ProcessedShape(t: Table, simulate: Cell -> (Cell, Cell))
    requires WellFormed(t)
    ensures var r := Processed(t, simulate);
      && r.height == t.height && WellFormed(r) && HasKeyColumns(r)
      && (forall i :: 0 <= i < |r.cols| ==> r.cols[i].name in Required)
      && InOrder(r.cols, Required)
  {
    var t3 := WithCoords(WithIds(RenamedHeaders(t)), simulate);
    CanonicalProjection(t3);
  }

  /** A header becomes location_id only if it mentions "location". */
  lemma OnlyLocationIsId(n: string)
    requires !Contains(Lower(n), "location")
    ensures Classify(n) != Some("location_id")
    ensures n != "location_id"
  {
    assert OccursAt("location_id", "location", 0);
    assert Lower("location_id") == "location_id";
  }

  /** Lower-cased headers without "location" never become location_id. */
  lemma {:induction false} NoLocationHeader(t: Table)
    requires !IsEmpty(t) && forall i :: 0 <= i < |t.cols| ==> !Contains(Lower(t.cols[i].name), "location")
    ensures !Has(RenamedHeaders(t), "location_id")
  {
    var l := Lowercased(t);
    var r := RenamedHeaders(t);
    assert Contains("location_id", "location") by { assert OccursAt("location_id", "location", 0); }
    var m := ColumnMapping(Names(l));
    assert r == Renamed(l, m);
    forall i | 0 <= i < |r.cols| ensures r.cols[i].name != "location_id" {
      var n := l.cols[i].name;
      LowerIdempotent(t.cols[i].name);
      OnlyLocationIsId(n);
    }
  }

  /** A file with no header mentioning "location", and an empty file, get the
      ids 1..n in row order. */
  lemma ProcessedDefaultIds(t: Table, simulate: Cell -> (Cell, Cell))
    requires WellFormed(t)
    requires IsEmpty(t) || forall i :: 0 <= i < |t.cols| ==> !Contains(Lower(t.cols[i].name), "location")
    ensures var r := Processed(t, simulate);
      forall c :: c in r.cols && c.name == "location_id" ==> c.cells == Ids(t.height)
  {
    var t1 := RenamedHeaders(t);
    if !IsEmpty(t) {
      NoLocationHeader(t);
    }
    var t3 := WithCoords(WithIds(t1), simulate);
    ProjectionKeepsListed(t3.cols, Required);
  }

  // ---- create_location_mapping ----

  /** A float as Python holds it: NaN is what float() makes of a missing cell. */
  datatype Float = Finite(value: real) | NaN

  /** One entry of the mapping. */
  datatype Zone = Zone(lat: Float, lon: Float, borough: string, zone: string)

  /** Python's int() of a float: toward zero. */
  function Truncate(r: real): (n: int)
    ensures r >= 0.0 ==> n as real <= r < n as real + 1.0
    ensures r < 0.0 ==> n as real - 1.0 < r <= n as real
  {
    if r >= 0.0 then r.Floor else -((-r).Floor)
  }

  /** int() of a cell; None where Python raises (NaN, or text that is not an integer). */
  function IntOf(c: Cell): Option<int>
  {
    match c
    case IntCell(i) => Some(i)
    case RealCell(r, _) => Some(Truncate(r))
    case TextCell(s) => ParseInt(s)
    case Missing => None
  }

  /** float() of a cell; a missing cell is NaN, text must spell an integer. */
  function FloatOf(c: Cell): Option<Float>
  {
    match c
    case IntCell(i) => Some(Finite(i as real))
    case RealCell(r, _) => Some(Finite(r))
    case TextCell(s) => if ParseInt(s).Some? then Some(Finite(ParseInt(s).value as real)) else None
    case Missing => Some(NaN)
  }

  /** str() of a cell. */
  function TextOf(c: Cell): string
  {
    match c
    case IntCell(i) => IntToString(i)
    case RealCell(_, spelling) => spelling
    case TextCell(s) => s
    case Missing => "nan"
  }

  const DefaultLatitude := 40.7128
  const DefaultLongitude := -74.0060

  predicate HasKeyColumns(t: Table)
  {
    Has(t, "location_id") && Has(t, "latitude") && Has(t, "longitude")
  }

  /** A column added only when none of that name exists. */
  function FillColumn(t: Table, name: string, cells: seq<Cell>): (r: Table)
    ensures r.height == t.height && Has(r, name)
    ensures forall m :: m != name ==> (Has(r, m) <==> Has(t, m))
    ensures forall m :: Has(t, m) ==> Has(r, m) && r.cols[ColumnIndex(r.cols, m)] == t.cols[ColumnIndex(t.cols, m)]
    ensures !Has(t, name) ==> r.cols[ColumnIndex(r.cols, name)].cells == cells
    ensures WellFormed(t) && |cells| == t.height ==> WellFormed(r)
  {
    if Has(t, name) then t
    else
      var r := WithColumn(t, name, cells);
      assert r.cols == t.cols + [Column(name, cells)];
      assert forall m :: ColumnIndex(r.cols, m) == (if Has(t, m) then ColumnIndex(t.cols, m) else if m == name then |t.cols| else |t.cols| + 1) by {
        forall m ensures ColumnIndex(r.cols, m) == (if Has(t, m) then ColumnIndex(t.cols, m) else if m == name then |t.cols| else |t.cols| + 1) {
          IndexAppend(t.cols, Column(name, cells), m);
        }
      }
      r
  }

  const DefaultLatitudeCell := RealCell(DefaultLatitude, "40.7128")
  const DefaultLongitudeCell := RealCell(DefaultLongitude, "-74.006")

  /** The repair of missing key columns: ids 1..n and the city-centre coordinates. */
  function Filled(t: Table): (r: Table)
    ensures r.height == t.height && HasKeyColumns(r)
    ensures WellFormed(t) ==> WellFormed(r)
  {
    var t1 := FillColumn(t, "location_id", Ids(t.height));
    var t2 := FillColumn(t1, "latitude", Repeat(DefaultLatitudeCell, t.height));
    FillColumn(t2, "longitude", Repeat(DefaultLongitudeCell, t.height))
  }

  /** The cell of row `row` in the first column named `name`. */
  function CellAt(t: Table, name: string, row: nat): Cell
    requires WellFormed(t) && Has(t, name) && row < t.height
  {
    t.cols[ColumnIndex(t.cols, name)].cells[row]
  }

  /** The entry row `row` contributes, or None when a conversion raises and
      the row is skipped. */
  function EntryOf(t: Table, row: nat): Option<(int, Zone)>
    requires WellFormed(t) && HasKeyColumns(t) && row < t.height
  {
    var id := IntOf(CellAt(t, "location_id", row));
    var lat := FloatOf(CellAt(t, "latitude", row));
    var lon := FloatOf(CellAt(t, "longitude", row));
    if id.None? || lat.None? || lon.None? then None
    else
      var borough := if Has(t, "borough") then TextOf(CellAt(t, "borough", row)) else "Unknown";
      var zone := if Has(t, "zone_name") then TextOf(CellAt(t, "zone_name", row)) else "Zone_" + IntToString(id.value);
      Some((id.value, Zone(lat.value, lon.value, borough, zone)))
  }

  /** The entries of all rows, in row order. */
  function Entries(t: Table): (es: seq<Option<(int, Zone)>>)
    requires WellFormed(t) && HasKeyColumns(t)
    ensures |es| == t.height && forall i :: 0 <= i < t.height ==> es[i] == EntryOf(t, i)
  {
    seq(t.height, i requires 0 <= i < t.height => EntryOf(t, i))
  }

  /** The dictionary filled entry by entry, each assignment replacing any
      earlier value of its key. */
  function Mapping(es: seq<Option<(int, Zone)>>): map<int, Zone>
  {
    if es == [] then map[]
    else match es[|es| - 1]
      case None => Mapping(es[..|es| - 1])
      case Some(e) => Mapping(es[..|es| - 1])[e.0 := e.1]
  }

  /** An id is mapped exactly when some row converted to it; rows that
      raise leave no trace. */
  lemma {:induction false} MappingKeys(es: seq<Option<(int, Zone)>>, id: int)
    ensures id in Mapping(es) <==> exists i :: 0 <= i < |es| && es[i].Some? && es[i].value.0 == id
  {
    if es != [] {
      var init := es[..|es| - 1];
      MappingKeys(init, id);
      assert forall i :: 0 <= i < |init| ==> init[i] == es[i];
    }
  }

  /** A later row with the same id overwrites an earlier one: the entry of
      an id is that of the last row converted to it. */
  lemma {:induction false} LastWriterWins(es: seq<Option<(int, Zone)>>, i: nat)
    requires i < |es| && es[i].Some?
    requires forall j :: i < j < |es| ==> es[j].None? || es[j].value.0 != es[i].value.0
    ensures es[i].value.0 in Mapping(es) && Mapping(es)[es[i].value.0] == es[i].value.1
  {
    if i < |es| - 1 {
      var init := es[..|es| - 1];
      assert init[i] == es[i];
      LastWriterWins(init, i);
    }
  }

  /** Without a location_id column, the repaired one holds the row numbers from 1. */
  lemma FilledIds(t: Table, row: nat)
    requires WellFormed(t) && row < t.height && !Has(t, "location_id")
    ensures CellAt(Filled(t), "location_id", row) == IntCell(row + 1)
  {
    var t1 := FillColumn(t, "location_id", Ids(t.height));
    var t2 := FillColumn(t1, "latitude", Repeat(DefaultLatitudeCell, t.height));
    var f := Filled(t);
    assert t1.cols[ColumnIndex(t1.cols, "location_id")].cells == Ids(t.height);
    assert t2.cols[ColumnIndex(t2.cols, "location_id")] == t1.cols[ColumnIndex(t1.cols, "location_id")];
    assert f.cols[ColumnIndex(f.cols, "location_id")] == t2.cols[ColumnIndex(t2.cols, "location_id")];
  }

  /** Without a latitude column, the repaired one holds the city-centre latitude. */
  lemma FilledLatitude(t: Table, row: nat)
    requires WellFormed(t) && row < t.height && !Has(t, "latitude")
    ensures CellAt(Filled(t), "latitude", row) == DefaultLatitudeCell
  {
    var t1 := FillColumn(t, "location_id", Ids(t.height));
    var t2 := FillColumn(t1, "latitude", Repeat(DefaultLatitudeCell, t.height));
    var f := Filled(t);
    assert !Has(t1, "latitude");
    assert t2.cols[ColumnIndex(t2.cols, "latitude")].cells == Repeat(DefaultLatitudeCell, t.height);
    assert f.cols[ColumnIndex(f.cols, "latitude")] == t2.cols[ColumnIndex(t2.cols, "latitude")];
  }

  /** Without a longitude column, the repaired one holds the city-centre longitude. */
  lemma FilledLongitude(t: Table, row: nat)
    requires WellFormed(t) && row < t.height && !Has(t, "longitude")
    ensures CellAt(Filled(t), "longitude", row) == DefaultLongitudeCell
  {
    var t1 := FillColumn(t, "location_id", Ids(t.height));
    var t2 := FillColumn(t1, "latitude", Repeat(DefaultLatitudeCell, t.height));
    assert !Has(t1, "longitude") && !Has(t2, "longitude");
  }

  /** The repair adds no column but the three it fills. */
  lemma FilledOthers(t: Table, m: string)
    requires m != "location_id" && m != "latitude" && m != "longitude"
    ensures Has(Filled(t), m) <==> Has(t, m)
  {
    var t1 := FillColumn(t, "location_id", Ids(t.height));
    var t2 := FillColumn(t1, "latitude", Repeat(DefaultLatitudeCell, t.height));
    assert Has(t1, m) <==> Has(t, m);
    assert Has(t2, m) <==> Has(t1, m);
  }

  /** In particular it adds no borough or zone_name column. */
  lemma FilledLabels(t: Table)
    ensures Has(Filled(t), "borough") <==> Has(t, "borough")
    ensures Has(Filled(t), "zone_name") <==> Has(t, "zone_name")
  {
    FilledOthers(t, "borough");
    FilledOthers(t, "zone_name");
  }

  /** Without a location_id column, converted rows are keyed by their row
      number from 1; without coordinates, they sit at the city centre. */
  lemma FilledDefaults(t: Table, row: nat)
    requires WellFormed(t) && row < t.height
    ensures var e := EntryOf(Filled(t), row);
      && (!Has(t, "location_id") ==> e.Some? ==> e.value.0 == row + 1)
      && (!Has(t, "latitude") ==> e.Some? ==> e.value.1.lat == Finite(DefaultLatitude))
      && (!Has(t, "longitude") ==> e.Some? ==> e.value.1.lon == Finite(DefaultLongitude))
  {
    if !Has(t, "location_id") { FilledIds(t, row); }
    if !Has(t, "latitude") { FilledLatitude(t, row); }
    if !Has(t, "longitude") { FilledLongitude(t, row); }
  }

  /** Without a borough or zone_name column, converted rows get "Unknown"
      and "Zone_<id>". */
  lemma FilledDefaultLabels(t: Table, row: nat)
    requires WellFormed(t) && row < t.height
    ensures var e := EntryOf(Filled(t), row);
      && (!Has(t, "borough") ==> e.Some? ==> e.value.1.borough == "Unknown")
      && (!Has(t, "zone_name") ==> e.Some? ==> e.value.1.zone == "Zone_" + IntToString(e.value.0))
  {
    FilledLabels(t);
  }

  // ---- _create_simulated_zones ----

  const ZoneCount := 263

  /** The borough of each simulated zone, in blocks. */
  function Boroughs(): (s: seq<string>)
    ensures |s| == ZoneCount
  {
    Repeat("Manhattan", 60) + Repeat("Brooklyn", 60) + Repeat("Queens", 60) +
    Repeat("Bronx", 40) + Repeat("Staten Island", 40) + Repeat("EWR", 3)
  }

  function BaseCoordinates(): map<string, (real, real)>
  {
    map["Manhattan" := (40.7831, -73.9712), "Brooklyn" := (40.6782, -73.9442),
        "Queens" := (40.7282, -73.7949), "Bronx" := (40.8448, -73.8648),
        "Staten Island" := (40.5795, -74.1502), "EWR" := (40.6895, -74.1745)]
  }

  /** A borough's centre, or the city centre for an unknown one. */
  function BaseOf(b: string): (real, real)
  {
    if b in BaseCoordinates() then BaseCoordinates()[b] else (DefaultLatitude, DefaultLongitude)
  }

  datatype ZoneRecord = ZoneRecord(id: int, borough: string, zoneName: string, lat: real, lon: real)

  /** Zone i (1..263): its block's borough, "Zone_i", and the borough centre
      moved by 0.03 times the two normal draws of its turn; `draws` is the
      stream the seeded generator yields. */
  function SimulatedRecord(i: nat, draws: nat -> real): ZoneRecord
    requires 1 <= i <= ZoneCount
  {
    var b := Boroughs()[i - 1];
    var base := BaseOf(b);
    ZoneRecord(i, b, "Zone_" + IntToString(i), base.0 + draws(2 * (i - 1)) * 0.03, base.1 + draws(2 * (i - 1) + 1) * 0.03)
  }

  /** _create_simulated_zones, appending one record per zone. */
  method SimulatedZones(draws: nat -> real) returns (zones: seq<ZoneRecord>)
    ensures |zones| == ZoneCount
    ensures forall k :: 0 <= k < ZoneCount ==> zones[k] == SimulatedRecord(k + 1, draws)
  {
    zones := [];
    var i := 1;
    while i <= ZoneCount
      invariant 1 <= i <= ZoneCount + 1
      invariant |zones| == i - 1
      invariant forall k :: 0 <= k < i - 1 ==> zones[k] == SimulatedRecord(k + 1, draws)
    {
      var b := Boroughs()[i - 1];
      var base := BaseOf(b);
      var lat := base.0 + draws(2 * (i - 1)) * 0.03;
      var lon := base.1 + draws(2 * (i - 1) + 1) * 0.03;
      var z := ZoneRecord(i, b, "Zone_" + IntToString(i), lat, lon);
      assert z == SimulatedRecord(i, draws);
      zones := zones + [z];
      i := i + 1;
    }
  }

  function Count(s: seq<string>, b: string): nat
  {
    if s == [] then 0 else (if s[0] == b then 1 else 0) + Count(s[1..], b)
  }

  lemma {:induction false} CountAppend(s: seq<string>, t: seq<string>, b: string)
    ensures Count(s + t, b) == Count(s, b) + Count(t, b)
  {
    if s != [] {
      assert (s + t)[1..] == s[1..] + t;
      CountAppend(s[1..], t, b);
    } else {
      assert s + t == t;
    }
  }

  lemma {:induction false} CountRepeat(a: string, n: nat, b: string)
    ensures Count(Repeat(a, n), b) == if a == b then n else 0
  {
    if n > 0 {
      assert Repeat(a, n)[1..] == Repeat(a, n - 1);
      CountRepeat(a, n - 1, b);
    }
  }

  /** The number of simulated zones in each borough. */
  function BlockSize(b: string): nat
  {
    if b == "Manhattan" || b == "Brooklyn" || b == "Queens" then 60
    else if b == "Bronx" || b == "Staten Island" then 40
    else if b == "EWR" then 3
    else 0
  }

  /** The blocks hold 60 Manhattan, 60 Brooklyn, 60 Queens, 40 Bronx, 40
      Staten Island and 3 EWR zones, and no other borough. */
  lemma BoroughCounts(b: string)
    ensures Count(Boroughs(), b) == BlockSize(b)
  {
    var m, k, q := Repeat("Manhattan", 60), Repeat("Brooklyn", 60), Repeat("Queens", 60);
    var x, s, e := Repeat("Bronx", 40), Repeat("Staten Island", 40), Repeat("EWR", 3);
    CountAppend(m, k, b);
    CountAppend(m + k, q, b);
    CountAppend(m + k + q, x, b);
    CountAppend(m + k + q + x, s, b);
    CountAppend(m + k + q + x + s, e, b);
    CountRepeat("Manhattan", 60, b);
    CountRepeat("Brooklyn", 60, b);
    CountRepeat("Queens", 60, b);
    CountRepeat("Bronx", 40, b);
    CountRepeat("Staten Island", 40, b);
    CountRepeat("EWR", 3, b);
  }

  /** Every simulated zone's borough has a centre, so the city-centre
      fallback is never used. */
  lemma EveryBoroughHasCentre(k: nat)
    requires k < ZoneCount
    ensures Boroughs()[k] in BaseCoordinates()
  {
    var m, kk, q := Repeat("Manhattan", 60), Repeat("Brooklyn", 60), Repeat("Queens", 60);
    var x, s, e := Repeat("Bronx", 40), Repeat("Staten Island", 40), Repeat("EWR", 3);
    assert Boroughs() == m + kk + q + x + s + e;
  }

  /** Simulated zones have distinct names. */
  lemma SimulatedNamesDistinct(draws: nat -> real, i: nat, j: nat)
    requires 1 <= i < j <= ZoneCount
    ensures SimulatedRecord(i, draws).zoneName != SimulatedRecord(j, draws).zoneName
  {
    if IntToString(i) == IntToString(j) {
      RenderingInjective(i, j);
    }
    var p := "Zone_";
    assert (p + IntToString(i))[|p|..] == IntToString(i);
    assert (p + IntToString(j))[|p|..] == IntToString(j);
  }

  /** The simulated records as a table. */
  function RecordsTable(zs: seq<ZoneRecord>): (t: Table)
    ensures WellFormed(t) && HasKeyColumns(t) && t.height == |zs|
  {
    var n := |zs|;
    var t := Table([
      Column("location_id", seq(n, i requires 0 <= i < n => IntCell(zs[i].id))),
      Column("borough", seq(n, i requires 0 <= i < n => TextCell(zs[i].borough))),
      Column("zone_name", seq(n, i requires 0 <= i < n => TextCell(zs[i].zoneName))),
      // computed floats have no spelling in a file
      Column("latitude", seq(n, i requires 0 <= i < n => RealCell(zs[i].lat, ""))),
      Column("longitude", seq(n, i requires 0 <= i < n => RealCell(zs[i].lon, "")))], n);
    assert t.cols[0].name == "location_id" && t.cols[3].name == "latitude" && t.cols[4].name == "longitude";
    t
  }

  // ---- load_taxi_zones ----

  /** A candidate file: absent, failing to read, or read into a table. */
  datatype FileState = Absent | Unreadable | Loaded(table: Table)

  /** Where the zones came from. */
  datatype Source = ProcessedFile(index: nat) | RawFile(index: nat) | Simulated

  /** What the processed files decide, from file i on: a table, a fall-back
      to simulated zones, or nothing (go on to the raw files). */
  datatype Choice = Take(index: nat, table: Table) | GiveUp | NotFound

  /** A file that is read and has rows and columns. */
  predicate Usable(f: FileState)
  {
    f.Loaded? && !IsEmpty(f.table)
  }

  function ProcessedChoice(files: seq<FileState>, i: nat): Choice
    decreases |files| - i
  {
    if i >= |files| then NotFound
    else if !Usable(files[i]) then ProcessedChoice(files, i + 1)
    else if HasKeyColumns(Lowercased(files[i].table)) then Take(i, Lowercased(files[i].table))
    else GiveUp
  }

  function RawChoice(files: seq<FileState>, i: nat): (r: Option<nat>)
    ensures r.Some? ==> i <= r.value < |files| && files[r.value].Loaded?
    decreases |files| - i
  {
    if i >= |files| then None
    else if files[i].Loaded? then Some(i)
    else RawChoice(files, i + 1)
  }

  predicate RawReadable(raw: seq<FileState>)
  {
    forall j :: 0 <= j < |raw| && raw[j].Loaded? ==> WellFormed(raw[j].table)
  }

  function SimulatedList(draws: nat -> real): (zs: seq<ZoneRecord>)
    ensures |zs| == ZoneCount
  {
    seq(ZoneCount, k requires 0 <= k < ZoneCount => SimulatedRecord(k + 1, draws))
  }

  /** The zones load_taxi_zones returns and where they come from. */
  function LoadedZones(processed: seq<FileState>, raw: seq<FileState>,
                       simulate: Cell -> (Cell, Cell), draws: nat -> real): (Source, Table)
    requires RawReadable(raw)
  {
    match ProcessedChoice(processed, 0)
    case Take(i, t) => (ProcessedFile(i), t)
    case GiveUp => (Simulated, RecordsTable(SimulatedList(draws)))
    case NotFound =>
      match RawChoice(raw, 0)
      case Some(j) => (RawFile(j), Processed(raw[j].table, simulate))
      case None => (Simulated, RecordsTable(SimulatedList(draws)))
  }

  /** A processed file is used only when every earlier one is absent,
      unreadable or empty, and it is used with its headers lower-cased. */
  lemma {:induction false} ProcessedChoiceIsFirstUsable(files: seq<FileState>, i: nat)
    ensures match ProcessedChoice(files, i)
      case Take(k, t) =>
        && i <= k < |files| && Usable(files[k])
        && t == Lowercased(files[k].table) && HasKeyColumns(t)
        && forall j :: i <= j < k ==> !Usable(files[j])
      case GiveUp =>
        exists k :: i <= k < |files| && Usable(files[k])
          && !HasKeyColumns(Lowercased(files[k].table))
          && forall j :: i <= j < k ==> !Usable(files[j])
      case NotFound =>
        forall j :: i <= j < |files| ==> !Usable(files[j])
    decreases |files| - i
  {
    if i < |files| && !Usable(files[i]) {
      ProcessedChoiceIsFirstUsable(files, i + 1);
      assert ProcessedChoice(files, i) == ProcessedChoice(files, i + 1);
      if ProcessedChoice(files, i + 1).GiveUp? {
        var k :| i + 1 <= k < |files| && Usable(files[k])
          && !HasKeyColumns(Lowercased(files[k].table))
          && forall j :: i + 1 <= j < k ==> !Usable(files[j]);
        assert forall j :: i <= j < k ==> !Usable(files[j]);
      }
    } else if i < |files| && !HasKeyColumns(Lowercased(files[i].table)) {
      assert ProcessedChoice(files, i) == GiveUp;
    }
  }

  /** The first usable processed file decides: when its headers lack a key
      column, simulated zones are returned, whatever the later files and
      the raw files hold. */
  lemma FirstFileLackingKeysGivesSimulated(processed: seq<FileState>, raw: seq<FileState>,
                                           simulate: Cell -> (Cell, Cell), draws: nat -> real, k: nat)
    requires RawReadable(raw)
    requires k < |processed| && Usable(processed[k])
    requires !HasKeyColumns(Lowercased(processed[k].table))
    requires forall j :: 0 <= j < k ==> !Usable(processed[j])
    ensures LoadedZones(processed, raw, simulate, draws).0 == Simulated
  {
    ProcessedChoiceIsFirstUsable(processed, 0);
  }

  /** The NYC lookup file's own header (LocationID, Borough, Zone,
      service_zone) lower-cases to no location_id column, so as a processed
      file it sends the loader to simulated zones. */
  lemma LookupHeaderLacksKeys(t: Table)
    requires |t.cols| == 4
    requires t.cols[0].name == "LocationID" && t.cols[1].name == "Borough"
    requires t.cols[2].name == "Zone" && t.cols[3].name == "service_zone"
    ensures !HasKeyColumns(Lowercased(t))
  {
    var l := Lowercased(t);
    assert Lower("LocationID") == "locationid";
    assert Lower("Borough") == "borough";
    assert Lower("Zone") == "zone";
    assert Lower("service_zone") == "service_zone";
    assert ColumnIndex(l.cols, "location_id") == 4;
  }

  lemma {:induction false} RawChoiceIsFirst(files: seq<FileState>, i: nat)
    ensures var r := RawChoice(files, i);
      r.Some? ==> forall j :: i <= j < r.value ==> !files[j].Loaded?
    decreases |files| - i
  {
    if i < |files| && !files[i].Loaded? {
      RawChoiceIsFirst(files, i + 1);
    }
  }

  /** Raw files are used only when no processed file is usable, the first
      readable one wins, and it is normalised first. */
  lemma RawFileIsProcessed(processed: seq<FileState>, raw: seq<FileState>,
                           simulate: Cell -> (Cell, Cell), draws: nat -> real)
    requires RawReadable(raw)
    ensures var (src, t) := LoadedZones(processed, raw, simulate, draws);
      src.RawFile? ==>
        && src.index < |raw| && raw[src.index].Loaded?
        && t == Processed(raw[src.index].table, simulate)
        && (forall j :: 0 <= j < |processed| ==> !Usable(processed[j]))
        && (forall j :: 0 <= j < src.index ==> !raw[j].Loaded?)
  {
    ProcessedChoiceIsFirstUsable(processed, 0);
    RawChoiceIsFirst(raw, 0);
  }

  // ---- the frame, changed in place ----

  class ZoneFrame {
    var cols: seq<Column>
    var height: nat

    function Contents(): Table
      reads this
    {
      Table(cols, height)
    }

    constructor(t: Table)
      ensures Contents() == t
    {
      cols := t.cols;
      height := t.height;
    }

    method LowerColumns()
      modifies this
      ensures Contents() == Lowercased(old(Contents()))
    {
      cols := Lowercased(Contents()).cols;
    }

    /** The rename map, one header at a time. */
    method BuildColumnMapping() returns (m: map<string, string>)
      ensures m == ColumnMapping(Names(Contents()))
    {
      var names := Names(Contents());
      m := map[];
      var i := 0;
      while i < |names|
        invariant 0 <= i <= |names|
        invariant m == ColumnMapping(names[..i])
      {
        var c := Classify(names[i]);
        if c.Some? {
          m := m[names[i] := c.value];
        }
        assert names[..i + 1] == names[..i] + [names[i]];
        i := i + 1;
      }
      assert names[..i] == names;
    }

    method Rename(m: map<string, string>)
      modifies this
      ensures Contents() == Renamed(old(Contents()), m)
    {
      cols := Renamed(Contents(), m).cols;
    }

    method SetColumn(name: string, cells: seq<Cell>)
      modifies this
      ensures Contents() == WithColumn(old(Contents()), name, cells)
    {
      cols := WithColumn(Contents(), name, cells).cols;
    }

    method KeepColumns(keep: seq<string>)
      modifies this
      ensures Contents() == Table(Projection(old(cols), keep), old(height))
    {
      cols := Projection(cols, keep);
    }

    /** _process_zones_data: the frame ends as Processed of what it held. */
    method ProcessZones(simulate: Cell -> (Cell, Cell))
      requires WellFormed(Contents())
      modifies this
      ensures Contents() == Processed(old(Contents()), simulate)
    {
      ghost var t := Contents();
      if !IsEmpty(Contents()) {
        LowerColumns();
        var m := BuildColumnMapping();
        Rename(m);
      }
      assert Contents() == RenamedHeaders(t);
      if !Has(Contents(), "location_id") || IsEmpty(Contents()) {
        SetColumn("location_id", Ids(height));
      }
      assert Contents() == WithIds(RenamedHeaders(t));
      if !Has(Contents(), "latitude") || !Has(Contents(), "longitude") {
        cols := WithCoordinates(Contents(), simulate).cols;
      }
      assert Contents() == WithCoords(WithIds(RenamedHeaders(t)), simulate);
      KeepColumns(Required);
    }

    /** The key-column repair of create_location_mapping, in place. */
    method FillKeyColumns()
      modifies this
      ensures Contents() == Filled(old(Contents()))
    {
      ghost var t := Contents();
      if !Has(Contents(), "location_id") {
        SetColumn("location_id", Ids(height));
      }
      assert Contents() == FillColumn(t, "location_id", Ids(t.height));
      ghost var t1 := Contents();
      if !Has(Contents(), "latitude") {
        SetColumn("latitude", Repeat(DefaultLatitudeCell, height));
      }
      assert Contents() == FillColumn(t1, "latitude", Repeat(DefaultLatitudeCell, t.height));
      ghost var t2 := Contents();
      if !Has(Contents(), "longitude") {
        SetColumn("longitude", Repeat(DefaultLongitudeCell, height));
      }
      assert Contents() == FillColumn(t2, "longitude", Repeat(DefaultLongitudeCell, t.height));
    }

    /** create_location_mapping: repairs the key columns in place, then maps
        each converted row's id to its zone, skipping rows that raise. */
    method CreateLocationMapping() returns (mapping: map<int, Zone>)
      requires WellFormed(Contents())
      modifies this
      ensures Contents() == Filled(old(Contents()))
      ensures WellFormed(Contents())
      ensures mapping == Mapping(Entries(Contents()))
    {
      FillKeyColumns();
      var f := Contents();
      ghost var es := Entries(f);
      mapping := map[];
      var i := 0;
      while i < f.height
        invariant 0 <= i <= f.height
        invariant mapping == Mapping(es[..i])
      {
        assert es[..i + 1][..i] == es[..i];
        match EntryOf(f, i) {
          case Some(e) => mapping := mapping[e.0 := e.1];
          case None =>
        }
        i := i + 1;
      }
      assert es[..i] == es;
    }
  }

  /** load_taxi_zones: processed files in order, then raw files, then
      simulated zones. */
  method LoadTaxiZones(processed: seq<FileState>, raw: seq<FileState>,
                       simulate: Cell -> (Cell, Cell), draws: nat -> real) returns (src: Source, zones: Table)
    requires RawReadable(raw)
    ensures (src, zones) == LoadedZones(processed, raw, simulate, draws)
  {
    var i := 0;
    while i < |processed|
      invariant 0 <= i <= |processed|
      invariant ProcessedChoice(processed, 0) == ProcessedChoice(processed, i)
    {
      if Usable(processed[i]) {
        var l := Lowercased(processed[i].table);
        if !HasKeyColumns(l) {
          var zs := SimulatedZones(draws);
          assert zs == SimulatedList(draws);
          return Simulated, RecordsTable(zs);
        }
        return ProcessedFile(i), l;
      }
      i := i + 1;
    }
    var j := 0;
    while j < |raw|
      invariant 0 <= j <= |raw|
      invariant RawChoice(raw, 0) == RawChoice(raw, j)
    {
      if raw[j].Loaded? {
        var frame := new ZoneFrame(raw[j].table);
        frame.ProcessZones(simulate);
        return RawFile(j), frame.Contents();
      }
      j := j + 1;
    }
    var zs := SimulatedZones(draws);
    assert zs == SimulatedList(draws);
    src, zones := Simulated, RecordsTable(zs);
  }
}
