/** Whole tile sets: what generation renders for one granule
  * (backend/processing-svc/src/generate/orchestration.rs), which tiles the gateway redirects
  * to (backend/api-gateway/src/server/routes.rs), and how the two agree. */
module TileSets {
  import opened Wrappers
  import opened SlippyTiles
  import opened Planning
  import opened RasterWindows
  import opened Orchestration

  datatype Manifest = Manifest(minZoom: nat, maxNativeZoom: nat, bounds: Bounds, tileCount: nat)
  datatype GeneratedTileSet = GeneratedTileSet(plan: Plan, tiles: seq<RenderedTile>, manifest: Manifest)
  datatype Config = Config(tileBounds: Bounds, minZoom: nat, maxNativeZoom: nat, maxParallelism: nat)

  datatype TileSetError =
    | Generate(error: GenerateError)
    | ConfiguredBoundsOutsideSource(source: Bounds, configured: Bounds)

  datatype RedirectOutcome =
    Redirect | ZoomOutsideTileSet | OutsideTileSetBounds | InvalidCoordinate(error: TileMathError)

  /** The gateway's answer for a coordinate of a tile set with this manifest. */
  function TileRedirect(m: Projection, manifest: Manifest, c: TileCoord): RedirectOutcome {
    match ValidateTileCoord(c)
    case Failure(error) => InvalidCoordinate(error)
    case Success(_) =>
      if c.z < manifest.minZoom || c.z > manifest.maxNativeZoom then ZoomOutsideTileSet
      else
        match TileBounds(m, c)
        case Failure(error) => InvalidCoordinate(error)
        case Success(bounds) =>
          if ClipBounds(bounds, manifest.bounds).Some? then Redirect else OutsideTileSetBounds
  }

  /** ranges plans every zoom level of the configuration. */
  ghost predicate Plans(m: Projection, config: Config, bounds: Bounds, ranges: seq<TileRange>) {
    && PlansLevels(m, bounds, config.minZoom, Max(config.minZoom, config.maxNativeZoom + 1), ranges)
    && AllWellFormed(ranges)
  }

  predicate TileRenders(m: Projection, source: Bounds, shape: RasterShape, render: Renderer, c: TileCoord) {
    var window := RasterWindowForTile(m, c, source, shape);
    window.Success? && render(c, window.value).Success?
  }

  /** There is a plan, its tiles can be counted, and each of them has a window and renders. */
  ghost predicate CanGenerate(m: Projection, config: Config, source: Bounds, shape: RasterShape, render: Renderer,
                              ranges: seq<TileRange>)
  {
    && ClipBounds(source, config.tileBounds).Some?
    && Plans(m, config, ClipBounds(source, config.tileBounds).value, ranges)
    && |PlanCoords(ranges)| <= U32_MAX
    && forall i | 0 <= i < |PlanCoords(ranges)| :: TileRenders(m, source, shape, render, PlanCoords(ranges)[i])
  }

  /** What generation within some bounds may fail with: the first level without a range; a count too
    * large; if there is a plan, the first tile without a window; and if all have windows, the error
    * of a tile that does not render. */
  ghost predicate FailsWith(m: Projection, config: Config, bounds: Bounds, source: Bounds, shape: RasterShape,
                            render: Renderer, error: GenerateError)
  {
    || LevelFailsWith(m, config, bounds, error)
    || (exists ranges ::
          Plans(m, config, bounds, ranges) && PlanFailsWith(m, PlanCoords(ranges), source, shape, render, error))
  }

  ghost predicate LevelFailsWith(m: Projection, config: Config, bounds: Bounds, error: GenerateError) {
    exists z: nat :: FirstBadLevel(m, bounds, config.minZoom, config.maxNativeZoom, z)
                     && error == TileMath(TileRangeForBounds(m, bounds, z).error)
  }

  ghost predicate PlanFailsWith(m: Projection, coords: seq<TileCoord>, source: Bounds, shape: RasterShape,
                                render: Renderer, error: GenerateError)
  {
    if |coords| > U32_MAX then error == TileCountOverflow(|coords|)
    else
      || (exists k :: 0 <= k < |coords| && FirstWindowless(m, source, shape, coords, k)
                      && RasterWindowForTile(m, coords[k], source, shape) == Failure(error))
      || ((forall i | 0 <= i < |coords| :: RasterWindowForTile(m, coords[i], source, shape).Success?)
          && exists i :: 0 <= i < |coords| && UnrenderedWith(m, source, shape, render, coords[i], error))
  }

  predicate UnrenderedWith(m: Projection, source: Bounds, shape: RasterShape, render: Renderer, c: TileCoord,
                           error: GenerateError)
  {
    var window := RasterWindowForTile(m, c, source, shape);
    window.Success? && render(c, window.value) == Failure(error)
  }

  /** Generates the tile set of one granule, if there is one, or says why not.  On success every
    * coordinate the gateway will redirect to has been rendered, and plan, tiles and manifest count
    * the same tiles. */
  method GenerateTileSetForGranule(m: Projection, config: Config, source: Bounds, shape: RasterShape, render: Renderer)
    returns (r: Result<GeneratedTileSet, TileSetError>)
    requires IsMercator(m)
    ensures ClipBounds(source, config.tileBounds).None? <==>
            r == Failure(ConfiguredBoundsOutsideSource(source, config.tileBounds))
    ensures r.Success? ==>
      var tileSet := r.value;
      && Some(tileSet.manifest.bounds) == ClipBounds(source, config.tileBounds)
      && tileSet.manifest.minZoom == config.minZoom && tileSet.manifest.maxNativeZoom == config.maxNativeZoom
      && tileSet.manifest.tileCount == tileSet.plan.tileCount == |tileSet.tiles|
      && (forall c :: TileRedirect(m, tileSet.manifest, c) == Redirect ==>
            exists i :: 0 <= i < |tileSet.tiles| && tileSet.tiles[i].coord == c)
      && (forall i, j | 0 <= i < j < |tileSet.tiles| :: Before(tileSet.tiles[i].coord, tileSet.tiles[j].coord))
      && (forall i | 0 <= i < |tileSet.tiles| ::
            var window := RasterWindowForTile(m, tileSet.tiles[i].coord, source, shape);
            window.Success? && render(tileSet.tiles[i].coord, window.value) == Success(tileSet.tiles[i].pngBytes))
    ensures r.Success? <==> exists ranges :: CanGenerate(m, config, source, shape, render, ranges)
    ensures r.Success? ==> CanGenerate(m, config, source, shape, render, r.value.plan.ranges)
    ensures r.Failure? && r.error.Generate? ==>
      && ClipBounds(source, config.tileBounds).Some?
      && FailsWith(m, config, ClipBounds(source, config.tileBounds).value, source, shape, render, r.error.error)
  {
    hide TileRedirect, RasterWindowForTile, PlanCoords, SequentialTiles, TileRangeForBounds, PlansLevels;
    hide CanGenerate, FailsWith, PlanFailsWith, FirstWindowless, FirstBadLevel;
    match ClipBounds(source, config.tileBounds) {
      case None =>
        NoArea(m, config, source, shape, render);
        return Failure(ConfiguredBoundsOutsideSource(source, config.tileBounds));
      case Some(bounds) =>
        var planned := PlanTileGeneration(m, bounds, config.minZoom, config.maxNativeZoom);
        if planned.Failure? {
          Unplanned(m, config, bounds, source, shape, render, planned.error);
          return Failure(Generate(planned.error));
        }
        var plan := planned.value;
        var jobs := TileRenderJobs(m, source, shape, plan);
        if jobs.Failure? {
          Windowless(m, config, bounds, source, shape, render, plan.ranges, jobs.error);
          return Failure(Generate(jobs.error));
        }
        var tiles, trace := RunJobs(render, jobs.value, config.maxParallelism);
        if tiles.Failure? {
          Unrendered(m, config, bounds, source, shape, render, plan.ranges, jobs.value,
                     trace[|trace| - 1].index, tiles.error);
          return Failure(Generate(tiles.error));
        }
        var manifest := Manifest(config.minZoom, config.maxNativeZoom, bounds, |tiles.value| % (U32_MAX + 1));
        TilesOfJobs(m, source, shape, render, plan.ranges, jobs.value);
        ServedTilesAreRendered(m, manifest, plan.ranges, tiles.value);
        AllRendered(m, config, bounds, source, shape, render, plan.ranges, tiles.value);
        return Success(GeneratedTileSet(plan, tiles.value, manifest));
    }
  }

  /** The reasons for failure exclude success. */
  lemma FailureExcludes(m: Projection, config: Config, bounds: Bounds, source: Bounds, shape: RasterShape,
                        render: Renderer, error: GenerateError)
    requires ClipBounds(source, config.tileBounds) == Some(bounds)
    requires FailsWith(m, config, bounds, source, shape, render, error)
    ensures forall ranges :: !CanGenerate(m, config, source, shape, render, ranges)
  {
    hide RasterWindowForTile, PlanCoords, TileRangeForBounds, ClipBounds;
    forall ranges | CanGenerate(m, config, source, shape, render, ranges) ensures false {
      if LevelFailsWith(m, config, bounds, error) {
        var z: nat :| FirstBadLevel(m, bounds, config.minZoom, config.maxNativeZoom, z)
                      && error == TileMath(TileRangeForBounds(m, bounds, z).error);
        LevelHasRange(m, bounds, config.minZoom, config.maxNativeZoom + 1, z, ranges);
      } else {
        var other :| Plans(m, config, bounds, other)
                     && PlanFailsWith(m, PlanCoords(other), source, shape, render, error);
        PlanIsUnique(m, bounds, config.minZoom, Max(config.minZoom, config.maxNativeZoom + 1), ranges, other);
        PlannedFailure(m, PlanCoords(other), source, shape, render, error);
      }
    }
  }

  lemma NoArea(m: Projection, config: Config, source: Bounds, shape: RasterShape, render: Renderer)
    requires ClipBounds(source, config.tileBounds).None?
    ensures forall ranges :: !CanGenerate(m, config, source, shape, render, ranges)
  {
    hide ClipBounds, RasterWindowForTile, PlanCoords;
  }

  lemma PlannedFailure(m: Projection, coords: seq<TileCoord>, source: Bounds, shape: RasterShape, render: Renderer,
                       error: GenerateError)
    requires PlanFailsWith(m, coords, source, shape, render, error) && |coords| <= U32_MAX
    ensures exists i :: 0 <= i < |coords| && !TileRenders(m, source, shape, render, coords[i])
  {
    hide RasterWindowForTile;
    if k :| 0 <= k < |coords| && FirstWindowless(m, source, shape, coords, k)
            && RasterWindowForTile(m, coords[k], source, shape) == Failure(error) {
      assert !TileRenders(m, source, shape, render, coords[k]);
    } else {
      var i :| 0 <= i < |coords| && UnrenderedWith(m, source, shape, render, coords[i], error);
      assert !TileRenders(m, source, shape, render, coords[i]);
    }
  }

  lemma Unplanned(m: Projection, config: Config, bounds: Bounds, source: Bounds, shape: RasterShape, render: Renderer,
                  error: GenerateError)
    requires ClipBounds(source, config.tileBounds) == Some(bounds)
    requires !error.TileCountOverflow? ==>
      exists z: nat :: FirstBadLevel(m, bounds, config.minZoom, config.maxNativeZoom, z)
                  && error == TileMath(TileRangeForBounds(m, bounds, z).error)
    requires error.TileCountOverflow? ==>
      exists ranges :: PlansLevels(m, bounds, config.minZoom, Max(config.minZoom, config.maxNativeZoom + 1), ranges)
                       && AllWellFormed(ranges) && error.tileCount == |PlanCoords(ranges)| > U32_MAX
    ensures FailsWith(m, config, bounds, source, shape, render, error)
    ensures forall ranges :: !CanGenerate(m, config, source, shape, render, ranges)
  {
    hide PlanCoords, TileRangeForBounds, PlansLevels, ClipBounds, CanGenerate, FirstBadLevel, AllWellFormed;
    if error.TileCountOverflow? {
      var ranges :| PlansLevels(m, bounds, config.minZoom, Max(config.minZoom, config.maxNativeZoom + 1), ranges)
                    && AllWellFormed(ranges) && error.tileCount == |PlanCoords(ranges)| > U32_MAX;
      assert Plans(m, config, bounds, ranges);
    }
    FailureExcludes(m, config, bounds, source, shape, render, error);
  }

  lemma Windowless(m: Projection, config: Config, bounds: Bounds, source: Bounds, shape: RasterShape, render: Renderer,
                   ranges: seq<TileRange>, error: GenerateError)
    requires ClipBounds(source, config.tileBounds) == Some(bounds)
    requires Plans(m, config, bounds, ranges) && |PlanCoords(ranges)| <= U32_MAX
    requires exists k :: 0 <= k < |PlanCoords(ranges)| && FirstWindowless(m, source, shape, PlanCoords(ranges), k)
                         && RasterWindowForTile(m, PlanCoords(ranges)[k], source, shape) == Failure(error)
    ensures FailsWith(m, config, bounds, source, shape, render, error)
    ensures forall other :: !CanGenerate(m, config, source, shape, render, other)
  {
    hide PlanCoords, TileRangeForBounds, PlansLevels, ClipBounds, CanGenerate, FirstWindowless, RasterWindowForTile;
    assert PlanFailsWith(m, PlanCoords(ranges), source, shape, render, error);
    FailureExcludes(m, config, bounds, source, shape, render, error);
  }

  lemma Unrendered(m: Projection, config: Config, bounds: Bounds, source: Bounds, shape: RasterShape, render: Renderer,
                   ranges: seq<TileRange>, jobs: seq<Job>, i: nat, error: GenerateError)
    requires ClipBounds(source, config.tileBounds) == Some(bounds)
    requires Plans(m, config, bounds, ranges) && |PlanCoords(ranges)| <= U32_MAX
    requires IsJobList(m, source, shape, PlanCoords(ranges), jobs)
    requires i < |jobs| && RenderTile(render, jobs[i]) == Failure(error)
    ensures FailsWith(m, config, bounds, source, shape, render, error)
    ensures forall other :: !CanGenerate(m, config, source, shape, render, other)
  {
    hide PlanCoords, TileRangeForBounds, PlansLevels, ClipBounds, CanGenerate, FirstWindowless, RasterWindowForTile;
    var coords := PlanCoords(ranges);
    assert UnrenderedWith(m, source, shape, render, coords[i], error);
    assert PlanFailsWith(m, coords, source, shape, render, error);
    FailureExcludes(m, config, bounds, source, shape, render, error);
  }

  lemma AllRendered(m: Projection, config: Config, bounds: Bounds, source: Bounds, shape: RasterShape, render: Renderer,
                    ranges: seq<TileRange>, tiles: seq<RenderedTile>)
    requires ClipBounds(source, config.tileBounds) == Some(bounds)
    requires Plans(m, config, bounds, ranges) && |tiles| == |PlanCoords(ranges)| <= U32_MAX
    requires forall i | 0 <= i < |tiles| ::
      var window := RasterWindowForTile(m, tiles[i].coord, source, shape);
      tiles[i].coord == PlanCoords(ranges)[i]
      && window.Success? && render(tiles[i].coord, window.value) == Success(tiles[i].pngBytes)
    ensures CanGenerate(m, config, source, shape, render, ranges)
  {
    hide PlanCoords, Plans, ClipBounds, RasterWindowForTile;
  }

  lemma {:induction false} SequentialTilesAt(render: Renderer, jobs: seq<Job>)
    requires SequentialTiles(render, jobs).Success?
    ensures
      var tiles := SequentialTiles(render, jobs).value;
      && |tiles| == |jobs|
      && forall i | 0 <= i < |jobs| :: RenderTile(render, jobs[i]) == Success(tiles[i])
  {
    if |jobs| > 0 {
      SequentialTilesAt(render, jobs[1..]);
    }
  }

  /** The tiles of a job list are those of the plan, each rendered from its window. */
  lemma TilesOfJobs(m: Projection, source: Bounds, shape: RasterShape, render: Renderer,
                    ranges: seq<TileRange>, jobs: seq<Job>)
    requires AllWellFormed(ranges) && IsJobList(m, source, shape, PlanCoords(ranges), jobs)
    requires SequentialTiles(render, jobs).Success?
    ensures
      var tiles, coords := SequentialTiles(render, jobs).value, PlanCoords(ranges);
      && |tiles| == |coords|
      && forall i | 0 <= i < |tiles| ::
           var window := RasterWindowForTile(m, tiles[i].coord, source, shape);
           tiles[i].coord == coords[i]
           && window.Success? && render(tiles[i].coord, window.value) == Success(tiles[i].pngBytes)
  {
    SequentialTilesAt(render, jobs);
    hide RasterWindowForTile, PlanCoords, SequentialTiles;
  }

  lemma ServedTilesAreRendered(m: Projection, manifest: Manifest, ranges: seq<TileRange>, tiles: seq<RenderedTile>)
    requires IsMercator(m) && AllWellFormed(ranges)
    requires manifest.bounds.west < manifest.bounds.east && manifest.bounds.south < manifest.bounds.north
    requires PlansLevels(m, manifest.bounds, manifest.minZoom,
                         Max(manifest.minZoom, manifest.maxNativeZoom + 1), ranges)
    requires |tiles| == |PlanCoords(ranges)|
    requires forall i | 0 <= i < |tiles| :: tiles[i].coord == PlanCoords(ranges)[i]
    ensures forall c :: TileRedirect(m, manifest, c) == Redirect ==>
              exists i :: 0 <= i < |tiles| && tiles[i].coord == c
    ensures forall i, j | 0 <= i < j < |tiles| :: Before(tiles[i].coord, tiles[j].coord)
  {
    hide TileRedirect, PlanCoords, TileRangeForBounds;
    var coords := PlanCoords(ranges);
    LevelsAscend(m, manifest.bounds, manifest.minZoom, manifest.maxNativeZoom, ranges);
    PlanCoordsOrdered(ranges);
    forall c | TileRedirect(m, manifest, c) == Redirect
      ensures exists i :: 0 <= i < |tiles| && tiles[i].coord == c
    {
      GatewayServesOnlyPlannedTiles(m, manifest, ranges, c);
      var i :| 0 <= i < |coords| && coords[i] == c;
      assert tiles[i].coord == c;
    }
  }

  lemma LevelsAscend(m: Projection, b: Bounds, minZoom: nat, maxNativeZoom: nat, ranges: seq<TileRange>)
    requires PlansLevels(m, b, minZoom, Max(minZoom, maxNativeZoom + 1), ranges)
    ensures forall i | 0 <= i < |ranges| :: ranges[i].z == minZoom + i
  {
    hide LongitudeToTileX, LatitudeToTileY;
    forall i | 0 <= i < |ranges| ensures ranges[i].z == minZoom + i {
      assert TileRangeForBounds(m, b, minZoom + i) == Success(ranges[i]);
    }
  }

  // ------------------------------------------------------------- gateway against generator

  lemma TileShape(m: Projection, c: TileCoord)
    requires IsMercator(m) && TileBounds(m, c).Success?
    ensures c.z <= MAX_SUPPORTED_ZOOM && c.x < Pow2(c.z) && c.y < Pow2(c.z)
    ensures
      var b := TileBounds(m, c).value;
      && b.west < b.east && b.south < b.north
      && m.latitude(1.0) <= b.south && b.north <= m.latitude(0.0)
  {
    var n := Pow2(c.z);
    GridIncreases(m, c.x, c.x + 1, n);
    GridIncreases(m, c.y, c.y + 1, n);
    GridEnds(m, n);
    if c.y > 0 { GridIncreases(m, 0, c.y, n); }
    if c.y + 1 < n { GridIncreases(m, c.y + 1, n, n); }
    hide GridLatitude, GridLongitude;
  }

  lemma GridIncreases(m: Projection, j: nat, k: nat, n: nat)
    requires IsMercator(m) && j < k <= n
    ensures GridLongitude(j, n) < GridLongitude(k, n)
    ensures GridLatitude(m, j, n) > GridLatitude(m, k, n)
  {
    LineFraction(j, n);
    LineFraction(k, n);
    var f := j as real / n as real;
    assert f * n as real == j as real;
    LineOrder(f, k, n);
    var a, b := GridLatitude(m, j, n), GridLatitude(m, k, n);
    assert m.fraction(a) == f && m.fraction(b) == k as real / n as real;
    assert -90.0 < a < 90.0 && -90.0 < b < 90.0;
  }

  /** Clipping two proper rectangles leaves something exactly when each edge is strictly
    * before the opposite edge of the other. */
  lemma ClipMeets(b: Bounds, to: Bounds)
    requires b.west < b.east && b.south < b.north && to.west < to.east && to.south < to.north
    ensures ClipBounds(b, to).Some? <==>
            b.west < to.east && to.west < b.east && b.south < to.north && to.south < b.north
  {
  }

  /** Every tile the gateway redirects to is in the plan made from the same bounds and zooms. */
  lemma GatewayServesOnlyPlannedTiles(m: Projection, manifest: Manifest, ranges: seq<TileRange>, c: TileCoord)
    requires IsMercator(m) && AllWellFormed(ranges)
    requires manifest.bounds.west < manifest.bounds.east && manifest.bounds.south < manifest.bounds.north
    requires PlansLevels(m, manifest.bounds, manifest.minZoom,
                         Max(manifest.minZoom, manifest.maxNativeZoom + 1), ranges)
    requires TileRedirect(m, manifest, c) == Redirect
    ensures c in PlanCoords(ranges)
  {
    var b := manifest.bounds;
    TileShape(m, c);
    ClipMeets(TileBounds(m, c).value, b);
    var i := c.z - manifest.minZoom;
    assert TileRangeForBounds(m, b, manifest.minZoom + i) == Success(ranges[i]);
    PlannedIffTouches(m, b, c.z, c);
    hide TileBounds, TileRangeForBounds;
    PlanCoordsMembers(ranges, c);
  }

  /** The planned tiles the gateway does not redirect to are exactly those that lie beyond
    * the east or the south edge of the bounds and share only that edge with them. */
  lemma UnservedTilesTouchAnEdge(m: Projection, manifest: Manifest, c: TileCoord)
    requires IsMercator(m) && ValidBounds(manifest.bounds) && MeetsSquare(m, manifest.bounds)
    requires manifest.minZoom <= c.z <= manifest.maxNativeZoom && c.z <= MAX_SUPPORTED_ZOOM
    requires InRange(c, TileRangeForBounds(m, manifest.bounds, c.z).value)
    ensures
      var tile := TileBounds(m, c).value;
      TileRedirect(m, manifest, c) != Redirect <==>
        tile.west == manifest.bounds.east || tile.north == manifest.bounds.south
  {
    PlannedIffTouches(m, manifest.bounds, c.z, c);
    TileShape(m, c);
    ClipMeets(TileBounds(m, c).value, manifest.bounds);
  }

  // ------------------------------------------------------------- when the job list is refused

  ghost predicate OnInteriorMeridian(longitude: real, z: nat) {
    exists k :: 0 < k < Pow2(z) && longitude == GridLongitude(k, Pow2(z))
  }

  ghost predicate OnInteriorParallel(m: Projection, latitude: real, z: nat) {
    exists k :: 0 < k < Pow2(z) && latitude == GridLatitude(m, k, Pow2(z))
  }

  /** The east or the south edge of the source is also the edge of the generation area and
    * lies on a tile boundary inside the world at zoom z. */
  ghost predicate EdgeOnGrid(m: Projection, source: Bounds, area: Bounds, z: nat) {
    || (area.east == source.east && OnInteriorMeridian(area.east, z))
    || (area.south == source.south && OnInteriorParallel(m, area.south, z))
  }

  predicate Inside(area: Bounds, source: Bounds) {
    && source.west <= area.west && area.east <= source.east
    && source.south <= area.south && area.north <= source.north
  }

  lemma PlannedTileWindow(m: Projection, source: Bounds, area: Bounds, shape: RasterShape, c: TileCoord)
    requires IsMercator(m) && ValidBounds(area) && MeetsSquare(m, area) && Inside(area, source)
    requires c.z <= MAX_SUPPORTED_ZOOM && InRange(c, TileRangeForBounds(m, area, c.z).value)
    ensures
      var tile := TileBounds(m, c).value;
      RasterWindowForTile(m, c, source, shape).Failure? <==>
        tile.west == area.east == source.east || tile.north == area.south == source.south
  {
    PlannedIffTouches(m, area, c.z, c);
    TileShape(m, c);
    ClipMeets(TileBounds(m, c).value, source);
    hide FloorToRasterIndex, CeilToRasterIndex, TileBounds, TileRangeForBounds;
  }

  lemma RefusedTileMeansEdge(m: Projection, source: Bounds, area: Bounds, shape: RasterShape, z: nat, c: TileCoord)
    requires IsMercator(m) && ValidBounds(area) && MeetsSquare(m, area) && Inside(area, source)
    requires z <= MAX_SUPPORTED_ZOOM && TileRangeForBounds(m, area, z).Success?
    requires InRange(c, TileRangeForBounds(m, area, z).value) && RasterWindowForTile(m, c, source, shape).Failure?
    ensures EdgeOnGrid(m, source, area, z)
  {
    hide IsMercator, TileBounds, TileRangeForBounds, GridLongitude, GridLatitude, RasterWindowForTile, Pow2, Touches;
    var n := Pow2(z);
    PlannedIffTouches(m, area, z, c);
    PlannedTileWindow(m, source, area, shape, c);
    TileEdges(m, c);
    GridEnds(m, n);
    if area.east == source.east && area.east == GridLongitude(c.x, n) {
      assert OnInteriorMeridian(area.east, z);
    } else {
      assert OnInteriorParallel(m, area.south, z);
    }
  }

  lemma EastEdgeRefuses(m: Projection, source: Bounds, area: Bounds, shape: RasterShape, z: nat) returns (c: TileCoord)
    requires IsMercator(m) && ValidBounds(area) && MeetsSquare(m, area) && Inside(area, source)
    requires z <= MAX_SUPPORTED_ZOOM && area.east == source.east && OnInteriorMeridian(area.east, z)
    ensures TileRangeForBounds(m, area, z).Success?
    ensures InRange(c, TileRangeForBounds(m, area, z).value) && RasterWindowForTile(m, c, source, shape).Failure?
  {
    hide IsMercator, MeetsSquare, TileBounds, TileRangeForBounds;
    hide GridLongitude, GridLatitude, RasterWindowForTile, Pow2, Touches;
    hide LongitudeToTileX, LatitudeToTileY;
    var n := Pow2(z);
    var k :| 0 < k < n && area.east == GridLongitude(k, n);
    Pow2Bound(z);
    PlannedColumns(m, area, n, k);
    GridIncreases(m, k, k + 1, n);
    PlannedIffTouches(m, area, z, TileCoord(z, 0, 0));
    RangeIs(m, area, z);
    c := TileCoord(z, k, TileRangeForBounds(m, area, z).value.minY);
    PlannedIffTouches(m, area, z, c);
    PlannedTileWindow(m, source, area, shape, c);
    TileEdges(m, c);
  }

  lemma SouthEdgeRefuses(m: Projection, source: Bounds, area: Bounds, shape: RasterShape, z: nat) returns (c: TileCoord)
    requires IsMercator(m) && ValidBounds(area) && MeetsSquare(m, area) && Inside(area, source)
    requires z <= MAX_SUPPORTED_ZOOM && area.south == source.south && OnInteriorParallel(m, area.south, z)
    ensures TileRangeForBounds(m, area, z).Success?
    ensures InRange(c, TileRangeForBounds(m, area, z).value) && RasterWindowForTile(m, c, source, shape).Failure?
  {
    hide IsMercator, MeetsSquare, TileBounds, TileRangeForBounds;
    hide GridLongitude, GridLatitude, RasterWindowForTile, Pow2, Touches;
    hide LongitudeToTileX, LatitudeToTileY;
    var n := Pow2(z);
    var k :| 0 < k < n && area.south == GridLatitude(m, k, n);
    Pow2Bound(z);
    PlannedRows(m, area, n, k);
    GridIncreases(m, k, k + 1, n);
    PlannedIffTouches(m, area, z, TileCoord(z, 0, 0));
    RangeIs(m, area, z);
    c := TileCoord(z, TileRangeForBounds(m, area, z).value.minX, k);
    PlannedIffTouches(m, area, z, c);
    PlannedTileWindow(m, source, area, shape, c);
    TileEdges(m, c);
  }

  /** A zoom level contains a planned tile without a window exactly when an edge of the
    * source lies on its grid. */
  lemma LevelRefused(m: Projection, source: Bounds, area: Bounds, shape: RasterShape, z: nat)
    requires IsMercator(m) && ValidBounds(area) && MeetsSquare(m, area) && Inside(area, source)
    requires z <= MAX_SUPPORTED_ZOOM && TileRangeForBounds(m, area, z).Success?
    ensures (exists c :: InRange(c, TileRangeForBounds(m, area, z).value)
                         && RasterWindowForTile(m, c, source, shape).Failure?)
            <==> EdgeOnGrid(m, source, area, z)
  {
    hide IsMercator, MeetsSquare, TileRangeForBounds;
    hide RasterWindowForTile, InRange, OnInteriorMeridian, OnInteriorParallel;
    if c :| InRange(c, TileRangeForBounds(m, area, z).value) && RasterWindowForTile(m, c, source, shape).Failure? {
      RefusedTileMeansEdge(m, source, area, shape, z, c);
    }
    if area.east == source.east && OnInteriorMeridian(area.east, z) {
      var c := EastEdgeRefuses(m, source, area, shape, z);
    }
    if area.south == source.south && OnInteriorParallel(m, area.south, z) {
      var c := SouthEdgeRefuses(m, source, area, shape, z);
    }
  }

  lemma RangeIs(m: Projection, area: Bounds, z: nat)
    requires IsMercator(m) && ValidBounds(area) && MeetsSquare(m, area) && z <= MAX_SUPPORTED_ZOOM
    ensures
      var r, n := TileRangeForBounds(m, area, z).value, Pow2(z);
      && r.minX == LongitudeToTileX(area.west, n) && r.maxX == LongitudeToTileX(area.east, n)
      && r.minY == LatitudeToTileY(m, area.north, n) && r.maxY == LatitudeToTileY(m, area.south, n)
  {
    Pow2Bound(z);
    PlannedColumns(m, area, Pow2(z), 0);
    PlannedRows(m, area, Pow2(z), 0);
    hide LongitudeToTileX, LatitudeToTileY;
  }

  lemma TileEdges(m: Projection, c: TileCoord)
    requires TileBounds(m, c).Success?
    ensures c.x < Pow2(c.z) && c.y < Pow2(c.z)
    ensures TileBounds(m, c).value.west == GridLongitude(c.x, Pow2(c.z))
    ensures TileBounds(m, c).value.north == GridLatitude(m, c.y, Pow2(c.z))
  {
  }

  /** The job list of a plan is refused exactly when, at some planned zoom level, the
    * source's own east or south edge bounds the generation area and lies on the grid. */
  lemma JobListRefusedExactly(m: Projection, source: Bounds, area: Bounds, shape: RasterShape,
                              minZoom: nat, maxNativeZoom: nat, ranges: seq<TileRange>)
    requires IsMercator(m) && ValidBounds(area) && MeetsSquare(m, area) && Inside(area, source)
    requires maxNativeZoom <= MAX_SUPPORTED_ZOOM && AllWellFormed(ranges)
    requires PlansLevels(m, area, minZoom, Max(minZoom, maxNativeZoom + 1), ranges)
    ensures (exists c :: c in PlanCoords(ranges) && RasterWindowForTile(m, c, source, shape).Failure?)
            <==> exists z :: minZoom <= z <= maxNativeZoom && EdgeOnGrid(m, source, area, z)
  {
    hide RasterWindowForTile, TileRangeForBounds, EdgeOnGrid;
    forall c | c in PlanCoords(ranges) && RasterWindowForTile(m, c, source, shape).Failure?
      ensures exists z :: minZoom <= z <= maxNativeZoom && EdgeOnGrid(m, source, area, z)
    {
      PlanCoordsMembers(ranges, c);
      var i :| 0 <= i < |ranges| && InRange(c, ranges[i]);
      assert TileRangeForBounds(m, area, minZoom + i) == Success(ranges[i]);
      LevelRefused(m, source, area, shape, minZoom + i);
    }
    forall z | minZoom <= z <= maxNativeZoom && EdgeOnGrid(m, source, area, z)
      ensures exists c :: c in PlanCoords(ranges) && RasterWindowForTile(m, c, source, shape).Failure?
    {
      var i := z - minZoom;
      assert TileRangeForBounds(m, area, minZoom + i) == Success(ranges[i]);
      LevelRefused(m, source, area, shape, z);
      var c :| InRange(c, ranges[i]) && RasterWindowForTile(m, c, source, shape).Failure?;
      PlanCoordsMembers(ranges, c);
    }
  }

  // ------------------------------------------------------------------------- windows cover the area

  lemma PositionOrder(a: real, b: real, span: real, size: nat)
    requires a < b && 0.0 < span && 0 < size
    ensures Position(a, span, size) < Position(b, span, size)
  {
    hide OnAxis;
    var f, g := a / span, b / span;
    assert f * span == a && g * span == b;
    ScaleOrder(f, g, span);
    OnAxisOrder(f, g, size);
  }

  /** Each point of the Mercator square lies in the tile whose column and row it maps to. */
  lemma TileContains(m: Projection, longitude: real, latitude: real, z: nat)
    requires IsMercator(m) && z <= MAX_SUPPORTED_ZOOM
    requires -180.0 <= longitude < 180.0 && m.latitude(1.0) < latitude <= m.latitude(0.0)
    ensures
      var c := TileCoord(z, LongitudeToTileX(longitude, Pow2(z)), LatitudeToTileY(m, latitude, Pow2(z)));
      && TileBounds(m, c).Success?
      && TileBounds(m, c).value.west <= longitude < TileBounds(m, c).value.east
      && TileBounds(m, c).value.south < latitude <= TileBounds(m, c).value.north
  {
    var n := Pow2(z);
    Pow2Bound(z);
    hide Pow2, LongitudeToTileX, LatitudeToTileY, GridLongitude, GridLatitude, IsMercator;
    ColumnContains(longitude, n);
    RowContains(m, latitude, n);
  }

  lemma ColumnContains(longitude: real, n: nat)
    requires -180.0 <= longitude < 180.0 && 0 < n <= U32_MAX
    ensures
      var x := LongitudeToTileX(longitude, n);
      x < n && GridLongitude(x, n) <= longitude < GridLongitude(x + 1, n)
  {
    ColumnPositions(longitude, 180.0, n);
    var x := LongitudeToTileX(longitude, n);
    ColumnOrder(longitude, 0, n);
    ColumnOrder(longitude, n, n);
    hide LongitudeToTileX, ColumnPosition, GridLongitude;
    CellContains(ColumnPosition(longitude, n), n);
    ColumnOrder(longitude, x, n);
    ColumnOrder(longitude, x + 1, n);
  }

  lemma RowContains(m: Projection, latitude: real, n: nat)
    requires IsMercator(m) && m.latitude(1.0) < latitude <= m.latitude(0.0) && 0 < n <= U32_MAX
    ensures
      var y := LatitudeToTileY(m, latitude, n);
      y < n && GridLatitude(m, y + 1, n) < latitude <= GridLatitude(m, y, n)
  {
    GridEnds(m, n);
    RowCell(m, latitude, n);
    var y := LatitudeToTileY(m, latitude, n);
    RowOrder(m, latitude, 0, n);
    RowOrder(m, latitude, n, n);
    hide LatitudeToTileY, RowPosition, GridLatitude;
    CellContains(RowPosition(m, latitude, n), n);
    RowOrder(m, latitude, y, n);
    RowOrder(m, latitude, y + 1, n);
  }

  /** The pixel under any point of the generation area inside the Mercator square is in the
    * window of some planned tile of every planned zoom level. */
  lemma WindowsCoverArea(m: Projection, source: Bounds, area: Bounds, shape: RasterShape, z: nat,
                         longitude: real, latitude: real)
    requires IsMercator(m) && ValidBounds(area) && Inside(area, source) && z <= MAX_SUPPORTED_ZOOM
    requires 0 < shape.width && 0 < shape.height
    requires area.west <= longitude < area.east && area.south < latitude <= area.north
    requires m.latitude(1.0) < latitude <= m.latitude(0.0)
    ensures TileRangeForBounds(m, area, z).Success?
    ensures exists c ::
      && InRange(c, TileRangeForBounds(m, area, z).value)
      && RasterWindowForTile(m, c, source, shape).Success?
      && var w := RasterWindowForTile(m, c, source, shape).value;
         && w.xOffset <= PixelColumn(source, shape, longitude).Floor < w.xOffset + w.width
         && w.yOffset <= PixelRow(source, shape, latitude).Floor < w.yOffset + w.height
  {
    hide IsMercator, TileBounds, TileRangeForBounds, LongitudeToTileX, LatitudeToTileY, Position, Pow2, SmallestCover;
    hide FloorToRasterIndex, CeilToRasterIndex;
    var c := TileCoord(z, LongitudeToTileX(longitude, Pow2(z)), LatitudeToTileY(m, latitude, Pow2(z)));
    TileContains(m, longitude, latitude, z);
    PlannedIffTouches(m, area, z, c);
    var tile := TileBounds(m, c).value;
    ClipMeets(tile, source);
    var clipped := ClipBounds(tile, source).value;
    WindowIsSmallestCover(m, c, source, shape);
    var w := RasterWindowForTile(m, c, source, shape).value;
    PointInCover(source.west, source.east, clipped.west, longitude, clipped.east, shape.width, w.xOffset, w.width);
    PointInCover(-source.north, -source.south, -clipped.north, -latitude, -clipped.south,
                 shape.height, w.yOffset, w.height);
    hide RasterWindowForTile, ClipBounds, Touches, MeetsSquare;
    assert InRange(c, TileRangeForBounds(m, area, z).value);
  }

  /** A point between the ends of a covered interval falls on a pixel of the cover. */
  lemma PointInCover(start: real, end: real, lo: real, p: real, hi: real, total: nat, offset: nat, size: nat)
    requires start < end && lo <= p < hi && 0 < total
    requires SmallestCover(offset, size, total, Position(lo - start, end - start, total),
                           Position(hi - start, end - start, total))
    ensures offset <= Position(p - start, end - start, total).Floor < offset + size
  {
    if lo < p {
      PositionOrder(lo - start, p - start, end - start, total);
    }
    PositionOrder(p - start, hi - start, end - start, total);
    hide Position;
  }

  // ----------------------------------------------------------------------------- VIIRS granules

  lemma {:induction false} Pow2Mod9(z: nat)
    ensures Pow2(z) % 9 in {1, 2, 4, 5, 7, 8}
  {
    if z > 0 {
      Pow2Mod9(z - 1);
      var n := Pow2(z - 1);
      hide Pow2;
      DoubleMod9(n, n / 9, n % 9);
    }
  }

  lemma DoubleMod9(n: nat, q: nat, r: nat)
    requires n == 9 * q + r && r in {1, 2, 4, 5, 7, 8}
    ensures (2 * n) % 9 in {1, 2, 4, 5, 7, 8}
  {
    var s, t := if r < 5 then 2 * q else 2 * q + 1, if r < 5 then 2 * r else 2 * r - 9;
    assert 2 * n == 9 * s + t && 0 <= t < 9;
  }

  /** A power of two brings no factor of nine with it. */
  lemma NoNineInPow2(z: nat, a: nat)
    requires a <= 36 && (Pow2(z) * a) % 9 == 0
    ensures a % 9 == 0
  {
    Pow2Mod9(z);
    var n := Pow2(z);
    hide Pow2;
    var q, r, t := n / 9, n % 9, n * a / 9;
    assert n * a == 9 * (q * a) + r * a;
    UnitTimes(r, a, t - q * a);
  }

  lemma UnitTimes(r: nat, a: nat, s: int)
    requires r in {1, 2, 4, 5, 7, 8} && r * a == 9 * s
    ensures a % 9 == 0
  {
    // In each case r times its inverse modulo nine is one more than a multiple of nine.
    if r == 1 {
      MultipleOfNine(a, s);
    } else if r == 2 {
      assert 2 * a == 9 * s;
      MultipleOfNine(a, 5 * s - a);
    } else if r == 4 {
      assert 4 * a == 9 * s;
      MultipleOfNine(a, 7 * s - 3 * a);
    } else if r == 5 {
      assert 5 * a == 9 * s;
      MultipleOfNine(a, 2 * s - a);
    } else if r == 7 {
      assert 7 * a == 9 * s;
      MultipleOfNine(a, 4 * s - 3 * a);
    } else {
      assert 8 * a == 9 * s;
      MultipleOfNine(a, 8 * s - 7 * a);
    }
  }

  lemma MultipleOfNine(a: nat, q: int)
    requires a == 9 * q
    ensures a % 9 == 0
  {
  }

  lemma EastOnLine(h: nat, k: nat, n: nat, quarter: nat)
    requires 0 < quarter && n == 4 * quarter
    ensures (h + 1) as real * 10.0 - 180.0 == GridLongitude(k, n) <==> quarter * (h + 1) == 9 * k
  {
    var f := (h + 1) as real / 36.0;
    LineOrder(f, k, n);
    assert f * n as real == (n * (h + 1)) as real / 36.0 by {
      assert (n * (h + 1)) as real == n as real * (h + 1) as real;
    }
    assert n * (h + 1) == 4 * (quarter * (h + 1));
    assert GridLongitude(k, n) == (k as real / n as real) * 360.0 - 180.0;
  }

  /** The east edge of VIIRS column h is a tile boundary inside the world at zoom two and
    * above exactly for columns 8, 17 and 26. */
  lemma ViirsEastEdgeOnGrid(h: nat, v: nat, z: nat)
    requires h <= 35 && v <= 17 && 2 <= z
    ensures OnInteriorMeridian(ViirsTileBounds(h, v).value.east, z) <==> h in {8, 17, 26}
  {
    var n, quarter := Pow2(z), Pow2(z - 2);
    assert n == 4 * quarter by { assert Pow2(z - 1) == 2 * Pow2(z - 2); }
    var east := ViirsTileBounds(h, v).value.east;
    assert east == (h + 1) as real * 10.0 - 180.0;
    hide Pow2, GridLongitude, ViirsTileBounds;
    if OnInteriorMeridian(east, z) {
      var k :| 0 < k < n && east == GridLongitude(k, n);
      EastOnLine(h, k, n, quarter);
      ColumnsOfNines(h, k, z - 2);
    }
    if h in {8, 17, 26} {
      var j := (h + 1) / 9;
      LineOfNines(h, j, quarter);
      EastOnLine(h, quarter * j, n, quarter);
      assert east == GridLongitude(quarter * j, n);
    }
  }

  lemma ColumnsOfNines(h: nat, k: nat, z: nat)
    requires h <= 35 && Pow2(z) * (h + 1) == 9 * k && k < 4 * Pow2(z)
    ensures h in {8, 17, 26}
  {
    hide Pow2;
    NoNineInPow2(z, h + 1);
    assert h != 35;
  }

  lemma LineOfNines(h: nat, j: nat, quarter: nat)
    requires 0 < quarter && h + 1 == 9 * j && 1 <= j <= 3
    ensures quarter * (h + 1) == 9 * (quarter * j) && 0 < quarter * j < 4 * quarter
  {
  }

  lemma EquatorOnGrid(m: Projection, z: nat)
    requires IsMercator(m) && 1 <= z
    ensures OnInteriorParallel(m, 0.0, z)
  {
    var n := Pow2(z);
    var half := Pow2(z - 1);
    assert n == 2 * half;
    RowOrder(m, 0.0, half, n);
    assert 0.0 == GridLatitude(m, half, n);
  }

  /** A consequence the code does not announce: once a zoom level of two or more is planned,
    * no granule of VIIRS columns 8, 17 and 26 can be rendered unless the configured area
    * stops short of its east edge, and none of VIIRS row 8 unless it stops short of the equator. */
  lemma ViirsGranulesRefused(m: Projection, configured: Bounds, shape: RasterShape, h: nat, v: nat,
                             minZoom: nat, maxNativeZoom: nat, ranges: seq<TileRange>)
    requires IsMercator(m) && h <= 35 && v <= 17
    requires minZoom <= maxNativeZoom && 2 <= maxNativeZoom <= MAX_SUPPORTED_ZOOM && AllWellFormed(ranges)
    requires ClipBounds(ViirsTileBounds(h, v).value, configured).Some?
    requires
      var area := ClipBounds(ViirsTileBounds(h, v).value, configured).value;
      MeetsSquare(m, area) && PlansLevels(m, area, minZoom, maxNativeZoom + 1, ranges)
    requires
      || (h in {8, 17, 26} && ViirsTileBounds(h, v).value.east <= configured.east)
      || (v == 8 && configured.south <= 0.0)
    ensures exists c :: c in PlanCoords(ranges)
                        && RasterWindowForTile(m, c, ViirsTileBounds(h, v).value, shape).Failure?
  {
    var source := ViirsTileBounds(h, v).value;
    var area := ClipBounds(source, configured).value;
    assert ValidBounds(area) && Inside(area, source);
    ViirsEastEdgeOnGrid(h, v, maxNativeZoom);
    EquatorOnGrid(m, maxNativeZoom);
    hide OnInteriorMeridian, OnInteriorParallel, PlanCoords, RasterWindowForTile, PlansLevels;
    assert EdgeOnGrid(m, source, area, maxNativeZoom);
    JobListRefusedExactly(m, source, area, shape, minZoom, maxNativeZoom, ranges);
  }
}
