/** Pixel windows of map tiles (backend/processing-svc/src/generate/window.rs). */
module RasterWindows {
  import opened Wrappers
  import opened SlippyTiles
  import opened Planning

  datatype RasterShape = RasterShape(width: nat, height: nat)
  datatype RasterWindow = RasterWindow(xOffset: nat, yOffset: nat, width: nat, height: nat)

  function Ceil(r: real): int {
    -((-r).Floor)
  }

  function AsUsize(i: int): nat {
    if i < 0 then 0 else i
  }

  function FloorToRasterIndex(fraction: real, size: nat): nat {
    Min(AsUsize((Clamp(fraction, 0.0, 1.0) * size as real).Floor), size)
  }

  function CeilToRasterIndex(fraction: real, size: nat): nat {
    Min(AsUsize(Ceil(Clamp(fraction, 0.0, 1.0) * size as real)), size)
  }

  function RasterWindowForTile(m: Projection, coord: TileCoord, source: Bounds, shape: RasterShape)
    : Result<RasterWindow, GenerateError>
  {
    match TileBounds(m, coord)
    case Failure(error) => Failure(TileMath(error))
    case Success(bounds) =>
      match ClipBounds(bounds, source)
      case None => Failure(TileOutsideSourceBounds(coord, source))
      case Some(clipped) =>
        var sourceWidth := source.east - source.west;
        var sourceHeight := source.north - source.south;
        var xOffset := FloorToRasterIndex((clipped.west - source.west) / sourceWidth, shape.width);
        var yOffset := FloorToRasterIndex((source.north - clipped.north) / sourceHeight, shape.height);
        var xEnd := CeilToRasterIndex((clipped.east - source.west) / sourceWidth, shape.width);
        var yEnd := CeilToRasterIndex((source.north - clipped.south) / sourceHeight, shape.height);
        Success(RasterWindow(xOffset, yOffset,
                             Max(SaturatingSub(xEnd, xOffset), 1), Max(SaturatingSub(yEnd, yOffset), 1)))
  }

  /** Position of a point, part of the way along a span, on an axis of size pixels. */
  ghost function Position(part: real, span: real, size: nat): real
    requires span != 0.0
  {
    OnAxis(part / span, size)
  }

  /** Where a longitude falls on the raster: pixel column i covers positions i to i + 1. */
  ghost function PixelColumn(source: Bounds, shape: RasterShape, longitude: real): real
    requires source.west < source.east
  {
    Position(longitude - source.west, source.east - source.west, shape.width)
  }

  /** Where a latitude falls on the raster, counted from the north. */
  ghost function PixelRow(source: Bounds, shape: RasterShape, latitude: real): real
    requires source.south < source.north
  {
    Position(source.north - latitude, source.north - source.south, shape.height)
  }

  /** The pixels from offset on, size of them, cover positions lo to hi of an axis of total
    * pixels, and neither the first nor the last of them can be spared. */
  predicate SmallestCover(offset: nat, size: nat, total: nat, lo: real, hi: real) {
    && offset + size <= total
    && offset as real <= lo < (offset + 1) as real
    && (offset + size) as real - 1.0 < hi <= (offset + size) as real
  }

  lemma UnitPositions(f: real, g: real, size: nat)
    requires 0.0 <= f < g <= 1.0 && 0 < size
    ensures 0.0 <= OnAxis(f, size) < OnAxis(g, size) <= size as real
  {
    var c := size as real;
    ScaleOrder(0.0, f, c);
    ScaleOrder(f, g, c);
    ScaleOrder(g, 1.0, c);
    assert 0.0 * c == 0.0 && 1.0 * c == c;
    if g == 1.0 {
      assert g * c == c;
    }
  }

  lemma IndexCover(p: real, q: real, size: nat)
    requires 0.0 <= p < q <= size as real
    ensures
      var offset, end := Min(AsUsize(p.Floor), size), Min(AsUsize(Ceil(q)), size);
      offset < end && SmallestCover(offset, end - offset, size, p, q)
  {
  }

  lemma FractionOrder(a: real, b: real, span: real)
    requires 0.0 <= a < b <= span
    ensures 0.0 <= a / span < b / span <= 1.0
  {
    var f, g := a / span, b / span;
    assert f * span == a && g * span == b;
    ScaleOrder(f, g, span);
    ScaleOrder(f, 0.0, span);
    ScaleOrder(g, 1.0, span);
  }

  /** A part from a to b of an axis of the given span, on an axis of size pixels. */
  lemma AxisWindow(a: real, b: real, span: real, size: nat)
    requires 0.0 <= a < b <= span && 0 < size
    ensures
      var offset, end := FloorToRasterIndex(a / span, size), CeilToRasterIndex(b / span, size);
      && offset < end
      && SmallestCover(offset, end - offset, size, Position(a, span, size), Position(b, span, size))
  {
    hide SmallestCover, FloorToRasterIndex, CeilToRasterIndex, OnAxis;
    FractionOrder(a, b, span);
    FractionWindow(a / span, b / span, size);
  }

  lemma FractionWindow(f: real, g: real, size: nat)
    requires 0.0 <= f < g <= 1.0 && 0 < size
    ensures
      var offset, end := FloorToRasterIndex(f, size), CeilToRasterIndex(g, size);
      offset < end && SmallestCover(offset, end - offset, size, OnAxis(f, size), OnAxis(g, size))
  {
    hide SmallestCover, Ceil, AsUsize, Min, FloorToRasterIndex, CeilToRasterIndex, OnAxis;
    UnitPositions(f, g, size);
    IndexCover(OnAxis(f, size), OnAxis(g, size), size);
    FractionIndices(f, size);
    FractionIndices(g, size);
  }

  lemma FractionIndices(f: real, size: nat)
    requires 0.0 <= f <= 1.0
    ensures FloorToRasterIndex(f, size) == Min(AsUsize(OnAxis(f, size).Floor), size)
    ensures CeilToRasterIndex(f, size) == Min(AsUsize(Ceil(OnAxis(f, size))), size)
  {
    assert Clamp(f, 0.0, 1.0) == f;
    hide Ceil, AsUsize, Min;
  }

  /** The window of a tile is the smallest pixel rectangle that covers the part of the tile
    * inside the source raster, and it lies inside the raster. */
  lemma WindowIsSmallestCover(m: Projection, coord: TileCoord, source: Bounds, shape: RasterShape)
    requires 0 < shape.width && 0 < shape.height
    requires RasterWindowForTile(m, coord, source, shape).Success?
    ensures source.west < source.east && source.south < source.north
    ensures
      var w := RasterWindowForTile(m, coord, source, shape).value;
      var clipped := ClipBounds(TileBounds(m, coord).value, source).value;
      && SmallestCover(w.xOffset, w.width, shape.width,
                       PixelColumn(source, shape, clipped.west), PixelColumn(source, shape, clipped.east))
      && SmallestCover(w.yOffset, w.height, shape.height,
                       PixelRow(source, shape, clipped.north), PixelRow(source, shape, clipped.south))
  {
    hide FloorToRasterIndex, CeilToRasterIndex, TileBounds, SmallestCover, Position;
    var c := ClipBounds(TileBounds(m, coord).value, source).value;
    AxisWindow(c.west - source.west, c.east - source.west, source.east - source.west, shape.width);
    AxisWindow(source.north - c.north, source.north - c.south, source.north - source.south, shape.height);
    var w := RasterWindowForTile(m, coord, source, shape).value;
    assert w.xOffset + w.width
        == CeilToRasterIndex((c.east - source.west) / (source.east - source.west), shape.width);
    assert w.yOffset + w.height
        == CeilToRasterIndex((source.north - c.south) / (source.north - source.south), shape.height);
  }

  /** Windows of horizontal neighbours have the same rows, leave no gap and share at most one pixel column. */
  lemma NeighbourColumns(m: Projection, coord: TileCoord, source: Bounds, shape: RasterShape)
    requires 0 < shape.width && 0 < shape.height
    requires RasterWindowForTile(m, coord, source, shape).Success?
    requires RasterWindowForTile(m, coord.(x := coord.x + 1), source, shape).Success?
    ensures
      var w := RasterWindowForTile(m, coord, source, shape).value;
      var e := RasterWindowForTile(m, coord.(x := coord.x + 1), source, shape).value;
      w.yOffset == e.yOffset && w.height == e.height && e.xOffset <= w.xOffset + w.width <= e.xOffset + 1
  {
    var east := coord.(x := coord.x + 1);
    var b1, b2 := TileBounds(m, coord).value, TileBounds(m, east).value;
    assert b1.east == b2.west && b1.north == b2.north && b1.south == b2.south;
    WindowIsSmallestCover(m, coord, source, shape);
    WindowIsSmallestCover(m, east, source, shape);
    hide FloorToRasterIndex, CeilToRasterIndex, TileBounds, PixelColumn, PixelRow;
  }

  /** Windows of vertical neighbours have the same columns, leave no gap and share at most one pixel row. */
  lemma NeighbourRows(m: Projection, coord: TileCoord, source: Bounds, shape: RasterShape)
    requires 0 < shape.width && 0 < shape.height
    requires RasterWindowForTile(m, coord, source, shape).Success?
    requires RasterWindowForTile(m, coord.(y := coord.y + 1), source, shape).Success?
    ensures
      var w := RasterWindowForTile(m, coord, source, shape).value;
      var s := RasterWindowForTile(m, coord.(y := coord.y + 1), source, shape).value;
      w.xOffset == s.xOffset && w.width == s.width && s.yOffset <= w.yOffset + w.height <= s.yOffset + 1
  {
    var south := coord.(y := coord.y + 1);
    var b1, b2 := TileBounds(m, coord).value, TileBounds(m, south).value;
    assert b1.south == b2.north && b1.west == b2.west && b1.east == b2.east;
    WindowIsSmallestCover(m, coord, source, shape);
    WindowIsSmallestCover(m, south, source, shape);
    hide FloorToRasterIndex, CeilToRasterIndex, TileBounds, PixelColumn, PixelRow;
  }
}
