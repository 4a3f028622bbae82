/**
 * The flood-damage read API (backend/routes/floodDamages.js): `GET /all`
 * lists every record newest first, and `GET /` reduces the records inside a
 * map viewport to one centroid per grid cell, the grid getting finer as the
 * zoom grows.
 */
module FloodDamageRoutes {
  import opened Wrappers
  import opened JsText
  import opened Ordering
  import opened FloodDamageModel

  // ---------------------------------------------------------------- GET /all

  function CreatedAt(d: FloodDamage): int {
    d.createdAt
  }

  /** `FloodDamage.find().sort({ createdAt: -1 })`; a storage failure becomes a 500 with its message. */
  function GetAll(db: Result<seq<FloodDamage>, string>): (r: Response<seq<FloodDamage>>)
    ensures db.Failure? ==> r == Err(500, db.error)
    ensures db.Success? ==> r.Ok? && r.status == 200
    ensures db.Success? ==> multiset(r.value) == multiset(db.value) && SortedDesc(r.value, CreatedAt)
  {
    match db
    case Failure(e) => Err(500, e)
    case Success(store) => Ok(200, SortDesc(store, CreatedAt))
  }

  // ------------------------------------------------------------ zoom and grid

  const DefaultZoom: int := 10

  /**
   * `parseInt(zoomStr, 10) || 10`: an absent or unparsable zoom (NaN) and a
   * zoom of 0 both fall back to 10; every other integer, negative ones
   * included, is kept.
   */
  function NormaliseZoom(zoom: Option<string>): (z: int)
    ensures z != 0
    ensures zoom.None? ==> z == DefaultZoom
    ensures zoom.Some? && ParseInt(zoom.value) in {None, Some(0)} ==> z == DefaultZoom
    ensures zoom.Some? && ParseInt(zoom.value) !in {None, Some(0)} ==> Some(z) == ParseInt(zoom.value)
  {
    match zoom
    case None => DefaultZoom
    case Some(s) =>
      match ParseInt(s)
      case None => DefaultZoom
      case Some(n) => if n == 0 then DefaultZoom else n
  }

  function Pow2Nat(n: nat): (r: real)
    ensures r >= 1.0
  {
    if n == 0 then 1.0 else 2.0 * Pow2Nat(n - 1)
  }

  /** `Math.pow(2, zoom)` on exact reals. */
  function Pow2(z: int): (r: real)
    ensures r > 0.0
  {
    if z >= 0 then Pow2Nat(z) else 1.0 / Pow2Nat(-z)
  }

  /** `1 / (Math.pow(2, zoom) * 0.1)`: the edge of a grid cell, in degrees. */
  function GridSize(zoom: int): (g: real)
    ensures g > 0.0
  {
    1.0 / (Pow2(zoom) * 0.1)
  }

  lemma Pow2Succ(z: int)
    ensures Pow2(z + 1) == 2.0 * Pow2(z)
  {
    if z < 0 {
      assert Pow2Nat(-z) == 2.0 * Pow2Nat(-z - 1);
    }
  }

  /** One more zoom level halves the cell edge. */
  lemma GridSizeHalves(zoom: int)
    ensures GridSize(zoom + 1) == GridSize(zoom) / 2.0
  {
    Pow2Succ(zoom);
  }

  /** The cell edge strictly decreases as the zoom grows. */
  lemma {:induction false} GridSizeDecreasing(z1: int, z2: int)
    requires z1 < z2
    ensures GridSize(z2) < GridSize(z1)
    decreases z2 - z1
  {
    GridSizeHalves(z2 - 1);
    if z1 < z2 - 1 {
      GridSizeDecreasing(z1, z2 - 1);
    }
  }

  // ------------------------------------------------------------ the viewport

  /** The raw query string of `GET /`: every parameter may be missing. */
  datatype Viewport = Viewport(
    zoom: Option<string>,
    north: Option<string>,
    south: Option<string>,
    east: Option<string>,
    west: Option<string>)

  datatype BBox = BBox(north: real, south: real, east: real, west: real)

  /** All four bounds are present and non-empty, so the query runs. */
  predicate HasBounds(q: Viewport) {
    Truthy(q.north) && Truthy(q.south) && Truthy(q.east) && Truthy(q.west)
  }

  function BoxOf(q: Viewport, parseFloat: string -> real): BBox
    requires HasBounds(q)
  {
    BBox(parseFloat(q.north.value), parseFloat(q.south.value),
         parseFloat(q.east.value), parseFloat(q.west.value))
  }

  /** The `$match` stage: both ends of both ranges are inclusive. */
  predicate InBox(d: FloodDamage, b: BBox) {
    b.south <= d.latitude <= b.north && b.west <= d.longitude <= b.east
  }

  function Match(store: seq<FloodDamage>, b: BBox): (r: seq<FloodDamage>)
    ensures forall d :: d in r <==> d in store && InBox(d, b)
    ensures |r| <= |store|
  {
    if |store| == 0 then []
    else
      var last := store[|store| - 1];
      assert store == store[..|store| - 1] + [last];
      var rest := Match(store[..|store| - 1], b);
      if InBox(last, b) then rest + [last] else rest
  }

  /**
   * The documents passing the `$match` stage from a concatenation are those
   * of each part in order, so (with `MatchOne`) order and repetitions are
   * preserved.
   */
  lemma {:induction false} MatchAppend(s: seq<FloodDamage>, t: seq<FloodDamage>, b: BBox)
    ensures Match(s + t, b) == Match(s, b) + Match(t, b)
  {
    if |t| > 0 {
      var n := |t| - 1;
      assert s + t == (s + t[..n]) + [t[n]];
      assert t == t[..n] + [t[n]];
      MatchSnoc(s + t[..n], t[n], b);
      MatchSnoc(t[..n], t[n], b);
      MatchAppend(s, t[..n], b);
    } else {
      assert s + t == s;
    }
  }

  /** One document passes exactly when it lies in the box. */
  lemma MatchOne(d: FloodDamage, b: BBox)
    ensures Match([d], b) == if InBox(d, b) then [d] else []
  {
    assert [d][..0] == [];
  }

  lemma MatchSnoc(s: seq<FloodDamage>, d: FloodDamage, b: BBox)
    ensures Match(s + [d], b) == Match(s, b) + (if InBox(d, b) then [d] else [])
  {
    assert (s + [d])[..|s|] == s;
  }

  // -------------------------------------------------------- cells and groups

  datatype Cell = Cell(latGrid: int, lngGrid: int)

  /** The `$project` stage: `floor(coordinate / gridSize)` on each axis. */
  function CellOf(d: FloodDamage, g: real): Cell
    requires g > 0.0
  {
    Cell((d.latitude / g).Floor, (d.longitude / g).Floor)
  }

  /** The points of `ps` that fall in cell `k`, in their order: the group a cluster summarises. */
  function Members(ps: seq<FloodDamage>, g: real, k: Cell): (r: seq<FloodDamage>)
    requires g > 0.0
    ensures forall d :: d in r <==> d in ps && CellOf(d, g) == k
    ensures |r| <= |ps|
  {
    if |ps| == 0 then []
    else
      var last := ps[|ps| - 1];
      assert ps == ps[..|ps| - 1] + [last];
      var rest := Members(ps[..|ps| - 1], g, k);
      if CellOf(last, g) == k then rest + [last] else rest
  }

  datatype Axis = Lat | Lng

  function Coord(d: FloodDamage, a: Axis): real {
    match a
    case Lat => d.latitude
    case Lng => d.longitude
  }

  function Sum(ps: seq<FloodDamage>, a: Axis): real {
    if |ps| == 0 then 0.0 else Sum(ps[..|ps| - 1], a) + Coord(ps[|ps| - 1], a)
  }

  /** The `$avg` accumulator. */
  function Mean(ps: seq<FloodDamage>, a: Axis): real
    requires |ps| > 0
  {
    Sum(ps, a) / (|ps| as real)
  }

  /** One element of the `$group` output: the cell key, the mean position and the count. */
  datatype Cluster = Cluster(cell: Cell, latitude: real, longitude: real, count: nat)

  // --------------------------------------------------- the grouping algorithm

  /** Running totals of one cell while the points stream through `$group`. */
  datatype Acc = Acc(cell: Cell, sumLat: real, sumLng: real, count: nat)

  function Bump(a: Acc, d: FloodDamage): Acc {
    a.(sumLat := a.sumLat + d.latitude, sumLng := a.sumLng + d.longitude, count := a.count + 1)
  }

  function Fresh(k: Cell, d: FloodDamage): Acc {
    Acc(k, d.latitude, d.longitude, 1)
  }

  /** Adds point `d` of cell `k` to the totals, opening a new cell at the end when `k` is new. */
  function AddPoint(acc: seq<Acc>, k: Cell, d: FloodDamage): seq<Acc>
    decreases |acc|
  {
    if |acc| == 0 then [Fresh(k, d)]
    else if acc[0].cell == k then [Bump(acc[0], d)] + acc[1..]
    else [acc[0]] + AddPoint(acc[1..], k, d)
  }

  /** The running totals after the points of `ps`, cells in order of first appearance. */
  function Accumulate(ps: seq<FloodDamage>, g: real): seq<Acc>
    requires g > 0.0
  {
    if |ps| == 0 then []
    else
      var last := ps[|ps| - 1];
      AddPoint(Accumulate(ps[..|ps| - 1], g), CellOf(last, g), last)
  }

  ghost predicate DistinctCells(acc: seq<Acc>) {
    forall i, j :: 0 <= i < j < |acc| ==> acc[i].cell != acc[j].cell
  }

  ghost predicate HasCell(acc: seq<Acc>, k: Cell) {
    exists j :: 0 <= j < |acc| && acc[j].cell == k
  }

  function TotalCount(acc: seq<Acc>): nat {
    if |acc| == 0 then 0 else acc[0].count + TotalCount(acc[1..])
  }

  lemma {:induction false} AddPointTotal(acc: seq<Acc>, k: Cell, d: FloodDamage)
    ensures TotalCount(AddPoint(acc, k, d)) == TotalCount(acc) + 1
    decreases |acc|
  {
    if |acc| > 0 {
      var r := AddPoint(acc, k, d);
      if acc[0].cell == k {
        assert r[1..] == acc[1..];
      } else {
        AddPointTotal(acc[1..], k, d);
        assert r[1..] == AddPoint(acc[1..], k, d);
      }
    }
  }

  /** A new cell is opened at the end, and nothing else changes. */
  lemma {:induction false} AddPointMiss(acc: seq<Acc>, k: Cell, d: FloodDamage)
    requires !HasCell(acc, k)
    ensures AddPoint(acc, k, d) == acc + [Fresh(k, d)]
    decreases |acc|
  {
    if |acc| > 0 {
      var rest := acc[1..];
      forall j | 0 <= j < |rest|
        ensures rest[j].cell != k
      {
        assert rest[j] == acc[j + 1];
      }
      AddPointMiss(rest, k, d);
      assert acc == [acc[0]] + rest;
    }
  }

  /** A known cell has its totals bumped in place, and nothing else changes. */
  lemma {:induction false} AddPointHit(acc: seq<Acc>, k: Cell, d: FloodDamage)
    requires DistinctCells(acc) && HasCell(acc, k)
    ensures var r := AddPoint(acc, k, d);
            |r| == |acc| &&
            forall j :: 0 <= j < |acc| ==> r[j] == (if acc[j].cell == k then Bump(acc[j], d) else acc[j])
    decreases |acc|
  {
    var r := AddPoint(acc, k, d);
    if acc[0].cell == k {
      forall j | 0 < j < |acc|
        ensures acc[j].cell != k
      {
        assert acc[0].cell != acc[j].cell;
      }
    } else {
      var rest := acc[1..];
      var j :| 0 <= j < |acc| && acc[j].cell == k;
      assert rest[j - 1].cell == k;
      AddPointHit(rest, k, d);
      assert r == [acc[0]] + AddPoint(rest, k, d);
    }
  }

  lemma AddPointDistinct(acc: seq<Acc>, k: Cell, d: FloodDamage)
    requires DistinctCells(acc)
    ensures DistinctCells(AddPoint(acc, k, d))
  {
    var r := AddPoint(acc, k, d);
    if HasCell(acc, k) {
      AddPointHit(acc, k, d);
      assert forall j :: 0 <= j < |r| ==> r[j].cell == acc[j].cell;
    } else {
      AddPointMiss(acc, k, d);
      assert forall j :: 0 <= j < |acc| ==> r[j] == acc[j];
    }
  }

  /** The running totals of `acc` are exactly the sizes and coordinate sums of the cells of `ps`. */
  ghost predicate Represents(acc: seq<Acc>, ps: seq<FloodDamage>, g: real)
    requires g > 0.0
  {
    && DistinctCells(acc)
    && TotalCount(acc) == |ps|
    && (forall i :: 0 <= i < |ps| ==> HasCell(acc, CellOf(ps[i], g)))
    && (forall j :: 0 <= j < |acc| ==> Summarises(acc[j], Members(ps, g, acc[j].cell)))
  }

  ghost predicate Summarises(a: Acc, ms: seq<FloodDamage>) {
    a.count == |ms| && a.count > 0 && a.sumLat == Sum(ms, Lat) && a.sumLng == Sum(ms, Lng)
  }

  lemma MembersSnoc(ps: seq<FloodDamage>, d: FloodDamage, g: real, k: Cell)
    requires g > 0.0
    ensures Members(ps + [d], g, k) == Members(ps, g, k) + (if CellOf(d, g) == k then [d] else [])
  {
    assert (ps + [d])[..|ps|] == ps;
  }

  lemma SumSnoc(ms: seq<FloodDamage>, d: FloodDamage, a: Axis)
    ensures Sum(ms + [d], a) == Sum(ms, a) + Coord(d, a)
  {
    assert (ms + [d])[..|ms|] == ms;
  }

  lemma {:induction false} MembersEmpty(ps: seq<FloodDamage>, g: real, k: Cell)
    requires g > 0.0
    requires forall i :: 0 <= i < |ps| ==> CellOf(ps[i], g) != k
    ensures Members(ps, g, k) == []
  {
    if |ps| > 0 {
      MembersEmpty(ps[..|ps| - 1], g, k);
    }
  }

  lemma StepSummaryAt(acc: seq<Acc>, ps: seq<FloodDamage>, d: FloodDamage, g: real, j: nat)
    requires g > 0.0
    requires Represents(acc, ps, g)
    requires j < |AddPoint(acc, CellOf(d, g), d)|
    ensures var r := AddPoint(acc, CellOf(d, g), d);
            Summarises(r[j], Members(ps + [d], g, r[j].cell))
  {
    var k := CellOf(d, g);
    var r := AddPoint(acc, k, d);
    var c := r[j].cell;
    MembersSnoc(ps, d, g, c);
    if HasCell(acc, k) {
      AddPointHit(acc, k, d);
      assert c == acc[j].cell;
      assert Summarises(acc[j], Members(ps, g, c));
      if c == k {
        SumSnoc(Members(ps, g, c), d, Lat);
        SumSnoc(Members(ps, g, c), d, Lng);
      }
    } else {
      AddPointMiss(acc, k, d);
      if j < |acc| {
        assert r[j] == acc[j];
        assert Summarises(acc[j], Members(ps, g, c));
      } else {
        assert r[j] == Fresh(k, d);
        forall i | 0 <= i < |ps|
          ensures CellOf(ps[i], g) != k
        {
          assert HasCell(acc, CellOf(ps[i], g));
        }
        MembersEmpty(ps, g, k);
        assert Members(ps + [d], g, k) == [d];
        SumSnoc([], d, Lat);
        SumSnoc([], d, Lng);
      }
    }
  }

  lemma StepCoverage(acc: seq<Acc>, ps: seq<FloodDamage>, d: FloodDamage, g: real)
    requires g > 0.0
    requires Represents(acc, ps, g)
    ensures var r := AddPoint(acc, CellOf(d, g), d);
            forall i :: 0 <= i < |ps + [d]| ==> HasCell(r, CellOf((ps + [d])[i], g))
  {
    var k := CellOf(d, g);
    var r := AddPoint(acc, k, d);
    var ps' := ps + [d];
    if HasCell(acc, k) {
      AddPointHit(acc, k, d);
    } else {
      AddPointMiss(acc, k, d);
      assert r[|acc|].cell == k;
    }
    forall i | 0 <= i < |ps'|
      ensures HasCell(r, CellOf(ps'[i], g))
    {
      var c := CellOf(ps'[i], g);
      if i < |ps| {
        assert ps'[i] == ps[i];
        assert HasCell(acc, c);
        var j :| 0 <= j < |acc| && acc[j].cell == c;
        assert r[j].cell == c;
      } else if HasCell(acc, k) {
        var j :| 0 <= j < |acc| && acc[j].cell == k;
        assert r[j].cell == k;
      }
    }
  }

  lemma RepresentsStep(acc: seq<Acc>, ps: seq<FloodDamage>, g: real)
    requires g > 0.0 && |ps| > 0
    requires Represents(acc, ps[..|ps| - 1], g)
    ensures Represents(AddPoint(acc, CellOf(ps[|ps| - 1], g), ps[|ps| - 1]), ps, g)
  {
    var init := ps[..|ps| - 1];
    var d := ps[|ps| - 1];
    assert init + [d] == ps;
    var r := AddPoint(acc, CellOf(d, g), d);
    AddPointDistinct(acc, CellOf(d, g), d);
    AddPointTotal(acc, CellOf(d, g), d);
    StepCoverage(acc, init, d, g);
    forall j | 0 <= j < |r|
      ensures Summarises(r[j], Members(ps, g, r[j].cell))
    {
      StepSummaryAt(acc, init, d, g, j);
    }
  }

  lemma {:induction false} AccumulateRepresents(ps: seq<FloodDamage>, g: real)
    requires g > 0.0
    ensures Represents(Accumulate(ps, g), ps, g)
  {
    if |ps| > 0 {
      AccumulateRepresents(ps[..|ps| - 1], g);
      RepresentsStep(Accumulate(ps[..|ps| - 1], g), ps, g);
    }
  }

  function ToCluster(a: Acc): Cluster
    requires a.count > 0
  {
    Cluster(a.cell, a.sumLat / (a.count as real), a.sumLng / (a.count as real), a.count)
  }

  function Finish(acc: seq<Acc>): (cs: seq<Cluster>)
    requires forall j :: 0 <= j < |acc| ==> acc[j].count > 0
    ensures |cs| == |acc|
    ensures forall j :: 0 <= j < |acc| ==> cs[j] == ToCluster(acc[j])
  {
    seq(|acc|, j requires 0 <= j < |acc| => ToCluster(acc[j]))
  }

  function ClusterTotal(cs: seq<Cluster>): nat {
    if |cs| == 0 then 0 else cs[0].count + ClusterTotal(cs[1..])
  }

  lemma {:induction false} FinishTotal(acc: seq<Acc>)
    requires forall j :: 0 <= j < |acc| ==> acc[j].count > 0
    ensures ClusterTotal(Finish(acc)) == TotalCount(acc)
  {
    if |acc| > 0 {
      FinishTotal(acc[1..]);
      assert Finish(acc)[1..] == Finish(acc[1..]);
    }
  }

  ghost predicate HasCluster(cs: seq<Cluster>, k: Cell) {
    exists j :: 0 <= j < |cs| && cs[j].cell == k
  }

  /**
   * The `$group` stage: one cluster per distinct cell of `ps`, carrying the
   * number of points in the cell and their mean latitude and longitude.
   * Clusters come in order of their cell's first point; the store promises
   * no order.
   */
  function GroupByCell(ps: seq<FloodDamage>, g: real): (cs: seq<Cluster>)
    requires g > 0.0
    ensures forall i, j :: 0 <= i < j < |cs| ==> cs[i].cell != cs[j].cell
    ensures forall i :: 0 <= i < |ps| ==> HasCluster(cs, CellOf(ps[i], g))
    ensures forall j :: 0 <= j < |cs| ==>
              var ms := Members(ps, g, cs[j].cell);
              && cs[j].count == |ms| > 0
              && cs[j].latitude == Mean(ms, Lat)
              && cs[j].longitude == Mean(ms, Lng)
    ensures ClusterTotal(cs) == |ps|
  {
    var acc := Accumulate(ps, g);
    AccumulateRepresents(ps, g);
    FinishTotal(acc);
    FinishCells(acc, ps, g);
    FinishMeans(acc, ps, g);
    Finish(acc)
  }

  /** The clusters keep the distinct cells of the totals, and every point's cell has one. */
  lemma FinishCells(acc: seq<Acc>, ps: seq<FloodDamage>, g: real)
    requires g > 0.0 && Represents(acc, ps, g)
    ensures var cs := Finish(acc);
            && (forall i, j :: 0 <= i < j < |cs| ==> cs[i].cell != cs[j].cell)
            && (forall i :: 0 <= i < |ps| ==> HasCluster(cs, CellOf(ps[i], g)))
  {
    var cs := Finish(acc);
    forall i | 0 <= i < |ps|
      ensures HasCluster(cs, CellOf(ps[i], g))
    {
      var j :| 0 <= j < |acc| && acc[j].cell == CellOf(ps[i], g);
      assert cs[j].cell == acc[j].cell;
    }
  }

  /** Each cluster carries its cell's member count and mean position. */
  lemma FinishMeans(acc: seq<Acc>, ps: seq<FloodDamage>, g: real)
    requires g > 0.0 && Represents(acc, ps, g)
    ensures var cs := Finish(acc);
            forall j :: 0 <= j < |cs| ==>
              var ms := Members(ps, g, cs[j].cell);
              && cs[j].count == |ms| > 0
              && cs[j].latitude == Mean(ms, Lat)
              && cs[j].longitude == Mean(ms, Lng)
  {
    var cs := Finish(acc);
    forall j | 0 <= j < |cs|
      ensures var ms := Members(ps, g, cs[j].cell);
              && cs[j].count == |ms| > 0
              && cs[j].latitude == Mean(ms, Lat)
              && cs[j].longitude == Mean(ms, Lng)
    {
      assert cs[j] == ToCluster(acc[j]);
      assert Summarises(acc[j], Members(ps, g, acc[j].cell));
    }
  }

  /** Each point lies in exactly one cluster: the one of its own cell. */
  lemma PointInExactlyOneCluster(ps: seq<FloodDamage>, g: real, i: nat)
    requires g > 0.0 && i < |ps|
    ensures var cs := GroupByCell(ps, g);
            exists j :: 0 <= j < |cs| && ps[i] in Members(ps, g, cs[j].cell)
    ensures var cs := GroupByCell(ps, g);
            forall j1, j2 ::
              (0 <= j1 < |cs| && 0 <= j2 < |cs| &&
               ps[i] in Members(ps, g, cs[j1].cell) && ps[i] in Members(ps, g, cs[j2].cell)) ==> j1 == j2
  {
    var cs := GroupByCell(ps, g);
    assert HasCluster(cs, CellOf(ps[i], g));
    var j :| 0 <= j < |cs| && cs[j].cell == CellOf(ps[i], g);
    assert ps[i] in Members(ps, g, cs[j].cell);
  }

  // ---------------------------------------------------------------- the means

  lemma {:induction false} SumBetween(xs: seq<FloodDamage>, a: Axis, lo: real, hi: real)
    requires forall i :: 0 <= i < |xs| ==> lo <= Coord(xs[i], a) <= hi
    ensures (|xs| as real) * lo <= Sum(xs, a) <= (|xs| as real) * hi
  {
    if |xs| > 0 {
      SumBetween(xs[..|xs| - 1], a, lo, hi);
    }
  }

  /** A mean of values lying in [lo, hi] lies in [lo, hi]. */
  lemma MeanBetween(xs: seq<FloodDamage>, a: Axis, lo: real, hi: real)
    requires |xs| > 0
    requires forall i :: 0 <= i < |xs| ==> lo <= Coord(xs[i], a) <= hi
    ensures lo <= Mean(xs, a) <= hi
  {
    SumBetween(xs, a, lo, hi);
    var n := |xs| as real;
    assert Sum(xs, a) / n >= (n * lo) / n;
    assert Sum(xs, a) / n <= (n * hi) / n;
  }

  function MinCoord(xs: seq<FloodDamage>, a: Axis): (m: real)
    requires |xs| > 0
    ensures forall i :: 0 <= i < |xs| ==> m <= Coord(xs[i], a)
    ensures exists i :: 0 <= i < |xs| && m == Coord(xs[i], a)
  {
    if |xs| == 1 then Coord(xs[0], a)
    else
      var m := MinCoord(xs[1..], a);
      assert forall i :: 1 <= i < |xs| ==> xs[i] == xs[1..][i - 1];
      if Coord(xs[0], a) <= m then Coord(xs[0], a) else m
  }

  function MaxCoord(xs: seq<FloodDamage>, a: Axis): (m: real)
    requires |xs| > 0
    ensures forall i :: 0 <= i < |xs| ==> Coord(xs[i], a) <= m
    ensures exists i :: 0 <= i < |xs| && m == Coord(xs[i], a)
  {
    if |xs| == 1 then Coord(xs[0], a)
    else
      var m := MaxCoord(xs[1..], a);
      assert forall i :: 1 <= i < |xs| ==> xs[i] == xs[1..][i - 1];
      if Coord(xs[0], a) >= m then Coord(xs[0], a) else m
  }

  /** A cluster's position lies between its members' extreme coordinates. */
  lemma MeanBetweenExtremes(xs: seq<FloodDamage>, a: Axis)
    requires |xs| > 0
    ensures MinCoord(xs, a) <= Mean(xs, a) <= MaxCoord(xs, a)
  {
    MeanBetween(xs, a, MinCoord(xs, a), MaxCoord(xs, a));
  }

  // ------------------------------------------------------------------- GET /

  /**
   * `GET /`: without all four bounds the answer is the empty list, whatever
   * the store holds (no query is made); otherwise the records inside the box
   * are grouped on the grid of the requested zoom, and a storage failure is
   * a 500 carrying its message.
   */
  function GetClusters(q: Viewport, db: Result<seq<FloodDamage>, string>, parseFloat: string -> real)
    : (r: Response<seq<Cluster>>)
    ensures !HasBounds(q) ==> r == Ok(200, [])
    ensures HasBounds(q) && db.Failure? ==> r == Err(500, db.error)
    ensures HasBounds(q) && db.Success? ==>
              r.Ok? && r.status == 200 &&
              r.value == GroupByCell(Match(db.value, BoxOf(q, parseFloat)), GridSize(NormaliseZoom(q.zoom)))
  {
    var zoom := NormaliseZoom(q.zoom);
    if !HasBounds(q) then Ok(200, [])
    else
      var box := BoxOf(q, parseFloat);
      var g := GridSize(zoom);
      match db
      case Failure(e) => Err(500, e)
      case Success(store) => Ok(200, GroupByCell(Match(store, box), g))
  }

  /**
   * Every cluster returned by `GET /` lies inside the requested box, counts
   * only records of the store that lie inside the box, and the counts add up
   * to the number of such records.
   */
  lemma ClustersInsideBox(q: Viewport, store: seq<FloodDamage>, parseFloat: string -> real)
    requires HasBounds(q)
    ensures var box := BoxOf(q, parseFloat);
            var r := GetClusters(q, Success(store), parseFloat);
            && r.Ok?
            && ClusterTotal(r.value) == |Match(store, box)|
            && forall j :: 0 <= j < |r.value| ==>
                 && box.south <= r.value[j].latitude <= box.north
                 && box.west <= r.value[j].longitude <= box.east
  {
    var box := BoxOf(q, parseFloat);
    var g := GridSize(NormaliseZoom(q.zoom));
    var kept := Match(store, box);
    var cs := GroupByCell(kept, g);
    forall j | 0 <= j < |cs|
      ensures box.south <= cs[j].latitude <= box.north && box.west <= cs[j].longitude <= box.east
    {
      var ms := Members(kept, g, cs[j].cell);
      assert forall i :: 0 <= i < |ms| ==> ms[i] in kept && InBox(ms[i], box);
      MeanBetween(ms, Lat, box.south, box.north);
      MeanBetween(ms, Lng, box.west, box.east);
    }
  }

  /**
   * Two records 0.0001 degrees apart at zoom 10 (cell edge 10/1024 degrees)
   * fall in one cell and give one cluster of two.
   */
  lemma TwoNearbyRecordsShareACluster(a: FloodDamage, b: FloodDamage)
    requires a.latitude == 35.10 && a.longitude == 126.80
    requires b.latitude == 35.1001 && b.longitude == 126.8001
    ensures var cs := GroupByCell([a, b], GridSize(10));
            |cs| == 1 && cs[0].count == 2 &&
            cs[0].latitude == (35.10 + 35.1001) / 2.0 && cs[0].longitude == (126.80 + 126.8001) / 2.0
  {
    var g := GridSize(10);
    assert Pow2Nat(10) == 1024.0;
    assert g == 10.0 / 1024.0;
    assert CellOf(a, g) == Cell(3594, 12984);
    assert CellOf(b, g) == Cell(3594, 12984);
    var cs := GroupByCell([a, b], g);
    assert [a, b][..1] == [a];
    assert Accumulate([a], g) == [Fresh(Cell(3594, 12984), a)];
    assert Accumulate([a, b], g) == [Bump(Fresh(Cell(3594, 12984), a), b)];
  }
}
