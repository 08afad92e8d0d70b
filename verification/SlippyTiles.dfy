/** Web Mercator tile arithmetic (backend/shared/src/slippy_tiles.rs) over exact reals.
  *
  * The two Mercator formulas of the source are the fields of a Projection.  What the
  * proofs need of them is IsMercator: strictly decreasing, and one inverts the other.
  */
module SlippyTiles {
  import opened Wrappers

  const MAX_SUPPORTED_ZOOM := 22
  const WEB_MERCATOR_LATITUDE_LIMIT := 85.05112878
  const U32_MAX := 0xFFFF_FFFF

  datatype TileCoord = TileCoord(z: nat, x: nat, y: nat)
  datatype Bounds = Bounds(west: real, south: real, east: real, north: real)
  datatype TileRange = TileRange(z: nat, minX: nat, maxX: nat, minY: nat, maxY: nat)

  datatype TileMathError =
    | InvalidBounds
    | InvalidViirsTile(h: int, v: int)
    | XOutOfRange(z: nat, x: nat, max: nat)
    | YOutOfRange(z: nat, y: nat, max: nat)
    | ZoomTooLarge(z: nat)

  /** fraction maps a latitude to its distance from the top of the Mercator square, in
    * sides of the square; latitude maps such a distance back. */
  datatype Projection = Projection(fraction: real -> real, latitude: real -> real)

  ghost predicate IsMercator(m: Projection) {
    && (forall a, b {:trigger m.fraction(a), m.fraction(b)} ::
          -90.0 < a < b < 90.0 ==> m.fraction(b) < m.fraction(a))
    && (forall v {:trigger m.latitude(v)} ::
          0.0 <= v <= 1.0 ==> -90.0 < m.latitude(v) < 90.0 && m.fraction(m.latitude(v)) == v)
    && m.fraction(0.0) == 0.5
    && m.latitude(0.0) <= WEB_MERCATOR_LATITUDE_LIMIT
    && -WEB_MERCATOR_LATITUDE_LIMIT <= m.latitude(1.0)
  }

  /** The bounds share some area with the Mercator square, which ends a hair inside the
    * latitude limit the source accepts. */
  predicate MeetsSquare(m: Projection, b: Bounds) {
    b.south < m.latitude(0.0) && m.latitude(1.0) < b.north
  }

  function TilesPerAxis(z: nat): Result<nat, TileMathError> {
    if z > MAX_SUPPORTED_ZOOM then Failure(ZoomTooLarge(z)) else Success(Pow2(z))
  }

  function ValidateTileCoord(c: TileCoord): Result<(), TileMathError> {
    var n :- TilesPerAxis(c.z);
    if c.x > n - 1 then Failure(XOutOfRange(c.z, c.x, n - 1))
    else if c.y > n - 1 then Failure(YOutOfRange(c.z, c.y, n - 1))
    else Success(())
  }

  /** Longitude of grid line k of n. */
  function GridLongitude(k: nat, n: nat): real
    requires n > 0
  {
    k as real / n as real * 360.0 - 180.0
  }

  /** Latitude of grid line k of n, counted from the north. */
  function GridLatitude(m: Projection, k: nat, n: nat): real
    requires n > 0
  {
    m.latitude(k as real / n as real)
  }

  function TileBounds(m: Projection, c: TileCoord): Result<Bounds, TileMathError> {
    var _ :- ValidateTileCoord(c);
    var n :- TilesPerAxis(c.z);
    Success(Bounds(GridLongitude(c.x, n), GridLatitude(m, c.y + 1, n),
                   GridLongitude(c.x + 1, n), GridLatitude(m, c.y, n)))
  }

  function RealMax(a: real, b: real): real { if a > b then a else b }

  function RealMin(a: real, b: real): real { if a < b then a else b }

  function Clamp(v: real, lo: real, hi: real): real
    requires lo <= hi
  {
    if v < lo then lo else if v > hi then hi else v
  }

  function ClipBounds(b: Bounds, to: Bounds): Option<Bounds> {
    var clipped := Bounds(RealMax(b.west, to.west), RealMax(b.south, to.south),
                          RealMin(b.east, to.east), RealMin(b.north, to.north));
    if clipped.west < clipped.east && clipped.south < clipped.north then Some(clipped) else None
  }

  function ViirsTileBounds(h: int, v: int): Result<Bounds, TileMathError> {
    if !(0 <= h <= 35) || !(0 <= v <= 17) then
      Failure(InvalidViirsTile(h, v))
    else
      var west := -180.0 + h as real * 10.0;
      var rawNorth := 90.0 - v as real * 10.0;
      Success(Bounds(west, RealMax(rawNorth - 10.0, -WEB_MERCATOR_LATITUDE_LIMIT),
                     west + 10.0, RealMin(rawNorth, WEB_MERCATOR_LATITUDE_LIMIT)))
  }

  predicate ValidBounds(b: Bounds) {
    && -180.0 <= b.west < b.east <= 180.0
    && -WEB_MERCATOR_LATITUDE_LIMIT <= b.south < b.north <= WEB_MERCATOR_LATITUDE_LIMIT
  }

  /** A float to u32 cast saturates. */
  function AsU32(i: int): nat {
    if i < 0 then 0 else if i > U32_MAX then U32_MAX else i
  }

  /** The cell of an axis with n cells that contains position p, at the nearest end when p is off the axis. */
  function Cell(p: real, n: nat): nat
    requires 0 < n
  {
    Min(AsU32(p.Floor), n - 1)
  }

  function LongitudeToTileX(longitude: real, n: nat): nat
    requires 0 < n
  {
    var normalized := Clamp((longitude + 180.0) / 360.0, 0.0, 1.0);
    Cell(normalized * n as real, n)
  }

  function LatitudeToTileY(m: Projection, latitude: real, n: nat): nat
    requires 0 < n
  {
    var clamped := Clamp(latitude, -WEB_MERCATOR_LATITUDE_LIMIT, WEB_MERCATOR_LATITUDE_LIMIT);
    Cell(m.fraction(clamped) * n as real, n)
  }

  function TileRangeForBounds(m: Projection, b: Bounds, z: nat): Result<TileRange, TileMathError> {
    if !ValidBounds(b) then
      Failure(InvalidBounds)
    else
      var n :- TilesPerAxis(z);
      var minX := LongitudeToTileX(b.west, n);
      var maxX := LongitudeToTileX(b.east, n);
      var minY := LatitudeToTileY(m, b.north, n);
      var maxY := LatitudeToTileY(m, b.south, n);
      Success(TileRange(z, Min(minX, maxX), Max(minX, maxX), Min(minY, maxY), Max(minY, maxY)))
  }

  predicate InRange(c: TileCoord, r: TileRange) {
    c.z == r.z && r.minX <= c.x <= r.maxX && r.minY <= c.y <= r.maxY
  }

  /** The tile and the bounds meet, where a tile lying just beyond the east or the south
    * edge of the bounds and sharing only that edge counts as meeting them. */
  predicate Touches(tile: Bounds, b: Bounds) {
    tile.west <= b.east && b.west < tile.east && tile.south < b.north && b.south <= tile.north
  }

  // ---------------------------------------------------------------- grid lemmas

  lemma ScaleOrder(a: real, b: real, c: real)
    requires c > 0.0
    ensures a < b <==> a * c < b * c
    ensures a == b <==> a * c == b * c
  {
    if a < b {
      assert (b - a) * c > 0.0;
    } else if b < a {
      assert (a - b) * c > 0.0;
    }
  }

  lemma Pow2Bound(z: nat)
    requires z <= MAX_SUPPORTED_ZOOM
    ensures Pow2(z) <= U32_MAX
  {
    Pow2Monotone(z, MAX_SUPPORTED_ZOOM);
    assert Pow2(22) == 4194304 by {
      assert Pow2(2) == 4;
      assert Pow2(6) == 64;
      assert Pow2(10) == 1024;
      assert Pow2(14) == 16384;
      assert Pow2(18) == 262144;
    }
  }

  /** A fraction of an axis compares with a grid line as its position compares with the line number. */
  lemma LineOrder(f: real, k: nat, n: nat)
    requires 0 < n
    ensures f < k as real / n as real <==> f * n as real < k as real
    ensures f == k as real / n as real <==> f * n as real == k as real
  {
    var q := k as real / n as real;
    assert q * n as real == k as real;
    ScaleOrder(f, q, n as real);
  }

  lemma LineFraction(k: nat, n: nat)
    requires k <= n && 0 < n
    ensures 0.0 <= k as real / n as real <= 1.0
  {
    LineOrder(1.0, k, n);
    LineOrder(0.0, k, n);
  }

  /** A fraction of an axis as a position on its n cells. */
  ghost function OnAxis(f: real, n: nat): real {
    f * n as real
  }

  lemma OnAxisOrder(f: real, g: real, n: nat)
    requires 0 < n && f < g
    ensures OnAxis(f, n) < OnAxis(g, n)
  {
    ScaleOrder(f, g, n as real);
  }

  /** Position of a longitude on the axis of n columns. */
  ghost function ColumnPosition(longitude: real, n: nat): real {
    OnAxis((longitude + 180.0) / 360.0, n)
  }

  /** Position of a latitude on the axis of n rows, which runs from north to south. */
  ghost function RowPosition(m: Projection, latitude: real, n: nat): real {
    OnAxis(m.fraction(latitude), n)
  }

  lemma ColumnOrder(a: real, k: nat, n: nat)
    requires 0 < n
    ensures a < GridLongitude(k, n) <==> ColumnPosition(a, n) < k as real
    ensures a == GridLongitude(k, n) <==> ColumnPosition(a, n) == k as real
  {
    LineOrder((a + 180.0) / 360.0, k, n);
  }

  lemma RowOrder(m: Projection, a: real, k: nat, n: nat)
    requires IsMercator(m) && -90.0 < a < 90.0 && 0 < n && k <= n
    ensures a > GridLatitude(m, k, n) <==> RowPosition(m, a, n) < k as real
    ensures a == GridLatitude(m, k, n) <==> RowPosition(m, a, n) == k as real
  {
    LineFraction(k, n);
    LineOrder(m.fraction(a), k, n);
    var line := GridLatitude(m, k, n);
    assert -90.0 < line < 90.0 && m.fraction(line) == k as real / n as real;
  }

  lemma ColumnPositions(a: real, b: real, n: nat)
    requires 0 < n && -180.0 <= a < b <= 180.0
    ensures ColumnPosition(a, n) < ColumnPosition(b, n)
    ensures LongitudeToTileX(a, n) == Cell(ColumnPosition(a, n), n)
    ensures LongitudeToTileX(b, n) == Cell(ColumnPosition(b, n), n)
  {
    ColumnCell(a, n);
    ColumnCell(b, n);
    hide OnAxis;
    OnAxisOrder((a + 180.0) / 360.0, (b + 180.0) / 360.0, n);
  }

  lemma ColumnCell(a: real, n: nat)
    requires 0 < n && -180.0 <= a <= 180.0
    ensures LongitudeToTileX(a, n) == Cell(ColumnPosition(a, n), n)
  {
    assert Clamp((a + 180.0) / 360.0, 0.0, 1.0) == (a + 180.0) / 360.0;
  }

  lemma RowCell(m: Projection, a: real, n: nat)
    requires 0 < n && -WEB_MERCATOR_LATITUDE_LIMIT <= a <= WEB_MERCATOR_LATITUDE_LIMIT
    ensures LatitudeToTileY(m, a, n) == Cell(RowPosition(m, a, n), n)
  {
    assert Clamp(a, -WEB_MERCATOR_LATITUDE_LIMIT, WEB_MERCATOR_LATITUDE_LIMIT) == a;
  }

  lemma RowPositions(m: Projection, a: real, b: real, n: nat)
    requires IsMercator(m) && 0 < n
    requires -WEB_MERCATOR_LATITUDE_LIMIT <= b < a <= WEB_MERCATOR_LATITUDE_LIMIT
    ensures RowPosition(m, a, n) < RowPosition(m, b, n)
  {
    var f, g := m.fraction(a), m.fraction(b);
    assert f < g;
    hide IsMercator, OnAxis;
    OnAxisOrder(f, g, n);
  }

  lemma GridEnds(m: Projection, n: nat)
    requires 0 < n
    ensures GridLongitude(0, n) == -180.0 && GridLongitude(n, n) == 180.0
    ensures GridLatitude(m, 0, n) == m.latitude(0.0) && GridLatitude(m, n, n) == m.latitude(1.0)
  {
    assert n as real / n as real == 1.0;
  }

  lemma CellContains(p: real, n: nat)
    requires 0.0 <= p < n as real && 0 < n <= U32_MAX
    ensures Cell(p, n) < n && Cell(p, n) as real <= p < (Cell(p, n) + 1) as real
  {
  }

  lemma CellsBetween(p: real, q: real, n: nat, k: nat)
    requires 0 < n <= U32_MAX && p < q && p < n as real && 0.0 < q
    ensures Cell(p, n) <= Cell(q, n) < n
    ensures Cell(p, n) <= k <= Cell(q, n) <==> k < n && k as real <= q && p < (k + 1) as real
  {
  }

  /** Columns of the planned range, as an interval of longitudes. */
  lemma PlannedColumns(m: Projection, b: Bounds, n: nat, x: nat)
    requires ValidBounds(b) && 0 < n <= U32_MAX
    ensures LongitudeToTileX(b.west, n) <= LongitudeToTileX(b.east, n) < n
    ensures LongitudeToTileX(b.west, n) <= x <= LongitudeToTileX(b.east, n) <==>
            x < n && GridLongitude(x, n) <= b.east && b.west < GridLongitude(x + 1, n)
  {
    hide GridLongitude, LongitudeToTileX, ColumnPosition, Cell;
    ColumnPositions(b.west, b.east, n);
    GridEnds(m, n);
    ColumnOrder(b.west, n, n);
    ColumnOrder(b.east, 0, n);
    ColumnOrder(b.east, x, n);
    ColumnOrder(b.west, x + 1, n);
    CellsBetween(ColumnPosition(b.west, n), ColumnPosition(b.east, n), n, x);
  }

  /** Rows of the planned range, as an interval of latitudes. */
  lemma PlannedRows(m: Projection, b: Bounds, n: nat, y: nat)
    requires IsMercator(m) && ValidBounds(b) && MeetsSquare(m, b) && 0 < n <= U32_MAX
    ensures LatitudeToTileY(m, b.north, n) <= LatitudeToTileY(m, b.south, n) < n
    ensures LatitudeToTileY(m, b.north, n) <= y <= LatitudeToTileY(m, b.south, n) <==>
            y < n && GridLatitude(m, y + 1, n) < b.north && b.south <= GridLatitude(m, y, n)
  {
    hide GridLatitude, GridLongitude, LatitudeToTileY, RowPosition, Cell;
    RowPositions(m, b.north, b.south, n);
    RowCell(m, b.north, n);
    RowCell(m, b.south, n);
    GridEnds(m, n);
    RowOrder(m, b.north, n, n);
    RowOrder(m, b.south, 0, n);
    if y < n {
      RowOrder(m, b.south, y, n);
      RowOrder(m, b.north, y + 1, n);
    }
    CellsBetween(RowPosition(m, b.north, n), RowPosition(m, b.south, n), n, y);
  }

  /** The planned range of a zoom level is exactly the set of tiles of that level that
    * touch the bounds: a description that mentions neither floor nor clamping. */
  lemma PlannedIffTouches(m: Projection, b: Bounds, z: nat, c: TileCoord)
    requires IsMercator(m) && ValidBounds(b) && MeetsSquare(m, b) && z <= MAX_SUPPORTED_ZOOM
    ensures TileRangeForBounds(m, b, z).Success?
    ensures
      var r := TileRangeForBounds(m, b, z).value;
      && r.z == z && r.minX <= r.maxX < Pow2(z) && r.minY <= r.maxY < Pow2(z)
      && (InRange(c, r) <==>
          c.z == z && TileBounds(m, c).Success? && Touches(TileBounds(m, c).value, b))
  {
    hide IsMercator, MeetsSquare, Pow2, LongitudeToTileX, LatitudeToTileY, GridLongitude, GridLatitude;
    Pow2Bound(z);
    PlannedColumns(m, b, Pow2(z), c.x);
    PlannedRows(m, b, Pow2(z), c.y);
  }

  /** The assumptions on the projection can be met. */
  lemma MercatorExists()
    ensures exists m :: IsMercator(m)
  {
    var m := Projection((l: real) => (85.0 - l) / 170.0, (v: real) => 85.0 - 170.0 * v);
    assert IsMercator(m);
  }
}
