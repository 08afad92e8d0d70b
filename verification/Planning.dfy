/** Tile planning (backend/processing-svc/src/generate/planning.rs) and the order in which
  * a plan lists its tiles. */
module Planning {
  import opened Wrappers
  import opened SlippyTiles

  datatype GenerateError =
    | TileMath(error: TileMathError)
    | TileCountOverflow(tileCount: nat)
    | TileOutsideSourceBounds(coord: TileCoord, sourceBounds: Bounds)
    | RenderFailed(coord: TileCoord)

  datatype Plan = Plan(ranges: seq<TileRange>, tileCount: nat)

  predicate WellFormed(r: TileRange) {
    r.minX <= r.maxX && r.minY <= r.maxY
  }

  predicate AllWellFormed(ranges: seq<TileRange>) {
    forall i | 0 <= i < |ranges| :: WellFormed(ranges[i])
  }

  function TileRangeTileCount(r: TileRange): nat
    requires WellFormed(r)
  {
    (r.maxX - r.minX + 1) * (r.maxY - r.minY + 1)
  }

  /** Tiles of column x, rows r.minY up to y. */
  function ColumnCoords(r: TileRange, x: nat, y: nat): seq<TileCoord>
    requires r.minY <= y
  {
    if y == r.minY then [] else ColumnCoords(r, x, y - 1) + [TileCoord(r.z, x, y - 1)]
  }

  /** Tiles of columns r.minX up to x. */
  function RangeCoords(r: TileRange, x: nat): seq<TileCoord>
    requires r.minX <= x && WellFormed(r)
  {
    if x == r.minX then [] else RangeCoords(r, x - 1) + ColumnCoords(r, x - 1, r.maxY + 1)
  }

  function PlanCoords(ranges: seq<TileRange>): seq<TileCoord>
    requires AllWellFormed(ranges)
  {
    if |ranges| == 0 then []
    else
      var last := ranges[|ranges| - 1];
      PlanCoords(ranges[..|ranges| - 1]) + RangeCoords(last, last.maxX + 1)
  }

  /** The ranges of zoom levels minZoom up to z. */
  ghost predicate PlansLevels(m: Projection, b: Bounds, minZoom: nat, z: nat, ranges: seq<TileRange>) {
    && |ranges| == z - minZoom
    && forall i | 0 <= i < |ranges| ::
         TileRangeForBounds(m, b, minZoom + i) == Success(ranges[i])
  }

  /** Zoom level z is the first for which no range can be computed. */
  ghost predicate FirstBadLevel(m: Projection, b: Bounds, minZoom: nat, maxNativeZoom: nat, z: nat) {
    && minZoom <= z <= maxNativeZoom && TileRangeForBounds(m, b, z).Failure?
    && forall y | minZoom <= y < z :: TileRangeForBounds(m, b, y).Success?
  }

  /** Succeeds with one range per zoom level and with a tile count that is the length of the
    * list of planned tiles, or names the first thing that is wrong. */
  method PlanTileGeneration(m: Projection, b: Bounds, minZoom: nat, maxNativeZoom: nat)
    returns (r: Result<Plan, GenerateError>)
    ensures r.Success? ==>
      && PlansLevels(m, b, minZoom, Max(minZoom, maxNativeZoom + 1), r.value.ranges)
      && AllWellFormed(r.value.ranges)
      && r.value.tileCount == |PlanCoords(r.value.ranges)| <= U32_MAX
    ensures r.Failure? <==>
      || (minZoom <= maxNativeZoom && (!ValidBounds(b) || maxNativeZoom > MAX_SUPPORTED_ZOOM))
      || (r.Failure? && r.error.TileCountOverflow?)
    ensures r.Failure? && !r.error.TileCountOverflow? ==>
      exists z: nat :: FirstBadLevel(m, b, minZoom, maxNativeZoom, z)
                  && r.error == TileMath(TileRangeForBounds(m, b, z).error)
    ensures r.Failure? && r.error.TileCountOverflow? ==>
      exists ranges :: PlansLevels(m, b, minZoom, Max(minZoom, maxNativeZoom + 1), ranges)
                       && AllWellFormed(ranges)
                       && r.error.tileCount == |PlanCoords(ranges)| > U32_MAX
  {
    hide LongitudeToTileX, LatitudeToTileY, PlanCoords, TileRangeTileCount, Pow2;
    PlanCoordsNone();
    var ranges: seq<TileRange> := [];
    var tileCount: nat := 0;
    var z := minZoom;
    while z <= maxNativeZoom
      invariant minZoom <= z <= Max(minZoom, maxNativeZoom + 1)
      invariant PlansLevels(m, b, minZoom, z, ranges)
      invariant AllWellFormed(ranges)
      invariant tileCount == |PlanCoords(ranges)|
      invariant z > minZoom ==> ValidBounds(b) && z - 1 <= MAX_SUPPORTED_ZOOM
    {
      match TileRangeForBounds(m, b, z) {
        case Failure(error) =>
          LevelIsBad(m, b, minZoom, maxNativeZoom, z, ranges);
          return Failure(TileMath(error));
        case Success(range) =>
          PlanCoordsNext(ranges, range);
          tileCount := tileCount + TileRangeTileCount(range);
          ranges := ranges + [range];
      }
      z := z + 1;
    }
    if tileCount > U32_MAX {
      return Failure(TileCountOverflow(tileCount));
    }
    return Success(Plan(ranges, tileCount));
  }

  lemma LevelIsBad(m: Projection, b: Bounds, minZoom: nat, maxNativeZoom: nat, z: nat, ranges: seq<TileRange>)
    requires minZoom <= z <= maxNativeZoom && PlansLevels(m, b, minZoom, z, ranges)
    requires TileRangeForBounds(m, b, z).Failure?
    ensures FirstBadLevel(m, b, minZoom, maxNativeZoom, z)
  {
    hide TileRangeForBounds;
    forall y | minZoom <= y < z ensures TileRangeForBounds(m, b, y).Success? {
      assert TileRangeForBounds(m, b, minZoom + (y - minZoom)) == Success(ranges[y - minZoom]);
    }
  }

  /** The zoom levels have one list of ranges at most. */
  lemma PlanIsUnique(m: Projection, b: Bounds, minZoom: nat, z: nat, s: seq<TileRange>, t: seq<TileRange>)
    requires PlansLevels(m, b, minZoom, z, s) && PlansLevels(m, b, minZoom, z, t)
    ensures s == t
  {
    hide TileRangeForBounds;
    forall i | 0 <= i < |s| ensures s[i] == t[i] {
      assert TileRangeForBounds(m, b, minZoom + i) == Success(s[i]);
      assert TileRangeForBounds(m, b, minZoom + i) == Success(t[i]);
    }
  }

  lemma LevelHasRange(m: Projection, b: Bounds, minZoom: nat, end: nat, z: nat, ranges: seq<TileRange>)
    requires PlansLevels(m, b, minZoom, end, ranges) && minZoom <= z < end
    ensures TileRangeForBounds(m, b, z).Success?
  {
    hide TileRangeForBounds;
    assert TileRangeForBounds(m, b, minZoom + (z - minZoom)) == Success(ranges[z - minZoom]);
  }

  lemma PlanCoordsNone()
    ensures PlanCoords([]) == []
  {
  }

  lemma PlanCoordsNext(ranges: seq<TileRange>, r: TileRange)
    requires AllWellFormed(ranges) && WellFormed(r)
    ensures AllWellFormed(ranges + [r])
    ensures |PlanCoords(ranges + [r])| == |PlanCoords(ranges)| + TileRangeTileCount(r)
  {
    assert (ranges + [r])[..|ranges|] == ranges;
    PlanCoordsStep(ranges + [r]);
    hide PlanCoords, RangeCoords;
    RangeCoordsLength(r, r.maxX + 1);
  }

  lemma {:induction false} ColumnCoordsLength(r: TileRange, x: nat, y: nat)
    requires r.minY <= y
    ensures |ColumnCoords(r, x, y)| == y - r.minY
  {
    if r.minY < y {
      ColumnCoordsLength(r, x, y - 1);
    }
  }

  lemma {:induction false} RangeCoordsLength(r: TileRange, x: nat)
    requires r.minX <= x && WellFormed(r)
    ensures |RangeCoords(r, x)| == (x - r.minX) * (r.maxY - r.minY + 1)
  {
    if r.minX < x {
      RangeCoordsLength(r, x - 1);
      ColumnCoordsLength(r, x - 1, r.maxY + 1);
      assert (x - r.minX) * (r.maxY - r.minY + 1)
          == (x - 1 - r.minX) * (r.maxY - r.minY + 1) + (r.maxY - r.minY + 1);
    }
  }

  // ------------------------------------------------ which tiles a plan lists, and how often

  lemma {:induction false} ColumnCoordsMembers(r: TileRange, x: nat, y: nat, c: TileCoord)
    requires r.minY <= y
    ensures c in ColumnCoords(r, x, y) <==> c.z == r.z && c.x == x && r.minY <= c.y < y
  {
    if r.minY < y {
      ColumnCoordsMembers(r, x, y - 1, c);
    }
  }

  lemma RangeCoordsStep(r: TileRange, x: nat)
    requires r.minX <= x && WellFormed(r)
    ensures RangeCoords(r, r.minX) == []
    ensures RangeCoords(r, x + 1) == RangeCoords(r, x) + ColumnCoords(r, x, r.maxY + 1)
  {
  }

  lemma PlanCoordsStep(ranges: seq<TileRange>)
    requires AllWellFormed(ranges) && |ranges| > 0
    ensures
      var last := ranges[|ranges| - 1];
      PlanCoords(ranges) == PlanCoords(ranges[..|ranges| - 1]) + RangeCoords(last, last.maxX + 1)
  {
  }

  lemma InConcatenation(s: seq<TileCoord>, t: seq<TileCoord>, c: TileCoord)
    ensures c in s + t <==> c in s || c in t
  {
  }

  lemma {:induction false} RangeCoordsMembers(r: TileRange, x: nat, c: TileCoord)
    requires r.minX <= x && WellFormed(r)
    ensures c in RangeCoords(r, x) <==> c.z == r.z && r.minX <= c.x < x && r.minY <= c.y <= r.maxY
  {
    hide RangeCoords, ColumnCoords;
    if x == r.minX {
      RangeCoordsStep(r, x);
    } else {
      RangeCoordsMembers(r, x - 1, c);
      RangeCoordsStep(r, x - 1);
      ColumnCoordsMembers(r, x - 1, r.maxY + 1, c);
      InConcatenation(RangeCoords(r, x - 1), ColumnCoords(r, x - 1, r.maxY + 1), c);
    }
  }

  ghost predicate InSomeRange(c: TileCoord, ranges: seq<TileRange>) {
    exists i :: 0 <= i < |ranges| && InRange(c, ranges[i])
  }

  lemma NoRanges(ranges: seq<TileRange>, c: TileCoord)
    requires ranges == []
    ensures PlanCoords(ranges) == [] && !InSomeRange(c, ranges)
  {
  }

  lemma InLastRange(c: TileCoord, ranges: seq<TileRange>)
    requires |ranges| > 0
    ensures InSomeRange(c, ranges)
            <==> InSomeRange(c, ranges[..|ranges| - 1]) || InRange(c, ranges[|ranges| - 1])
  {
    hide InRange;
    var prior := ranges[..|ranges| - 1];
    if i :| 0 <= i < |ranges| && InRange(c, ranges[i]) {
      assert i < |prior| ==> prior[i] == ranges[i];
    }
    if i :| 0 <= i < |prior| && InRange(c, prior[i]) {
      assert prior[i] == ranges[i];
    }
  }

  lemma {:induction false} PlanCoordsMembers(ranges: seq<TileRange>, c: TileCoord)
    requires AllWellFormed(ranges)
    ensures c in PlanCoords(ranges) <==> InSomeRange(c, ranges)
  {
    hide PlanCoords, RangeCoords, InSomeRange;
    if |ranges| == 0 {
      NoRanges(ranges, c);
    } else {
      var prior, last := ranges[..|ranges| - 1], ranges[|ranges| - 1];
      PlanCoordsStep(ranges);
      PlanCoordsMembers(prior, c);
      RangeCoordsMembers(last, last.maxX + 1, c);
      InLastRange(c, ranges);
      InConcatenation(PlanCoords(prior), RangeCoords(last, last.maxX + 1), c);
    }
  }

  /** Row-major order within columns within zoom levels: the order of the nested loops. */
  predicate Before(a: TileCoord, b: TileCoord) {
    a.z < b.z || (a.z == b.z && (a.x < b.x || (a.x == b.x && a.y < b.y)))
  }

  ghost predicate Ordered(s: seq<TileCoord>) {
    forall i, j | 0 <= i < j < |s| :: Before(s[i], s[j])
  }

  lemma OrderedConcat(s: seq<TileCoord>, t: seq<TileCoord>)
    requires Ordered(s) && Ordered(t)
    requires forall a <- s, b <- t :: Before(a, b)
    ensures Ordered(s + t)
  {
    forall i, j | 0 <= i < j < |s + t| ensures Before((s + t)[i], (s + t)[j]) {
      if i < |s| <= j {
        assert s[i] in s && t[j - |s|] in t;
      }
    }
  }

  lemma {:induction false} ColumnCoordsOrdered(r: TileRange, x: nat, y: nat)
    requires r.minY <= y
    ensures Ordered(ColumnCoords(r, x, y))
  {
    if r.minY < y {
      ColumnCoordsOrdered(r, x, y - 1);
      var s, t := ColumnCoords(r, x, y - 1), [TileCoord(r.z, x, y - 1)];
      forall a, b | a in s && b in t ensures Before(a, b) {
        ColumnCoordsMembers(r, x, y - 1, a);
      }
      OrderedConcat(s, t);
    }
  }

  lemma {:induction false} RangeCoordsOrdered(r: TileRange, x: nat)
    requires r.minX <= x && WellFormed(r)
    ensures Ordered(RangeCoords(r, x))
  {
    hide RangeCoords, ColumnCoords;
    if r.minX == x {
      RangeCoordsStep(r, x);
    } else {
      RangeCoordsOrdered(r, x - 1);
      RangeCoordsStep(r, x - 1);
      ColumnCoordsOrdered(r, x - 1, r.maxY + 1);
      hide Ordered;
      var s, t := RangeCoords(r, x - 1), ColumnCoords(r, x - 1, r.maxY + 1);
      forall a, b | a in s && b in t ensures Before(a, b) {
        RangeCoordsMembers(r, x - 1, a);
        ColumnCoordsMembers(r, x - 1, r.maxY + 1, b);
      }
      OrderedConcat(s, t);
    }
  }

  ghost predicate LevelsIncrease(ranges: seq<TileRange>) {
    forall i, j | 0 <= i < j < |ranges| :: ranges[i].z < ranges[j].z
  }

  lemma EarlierLevels(ranges: seq<TileRange>, a: TileCoord)
    requires LevelsIncrease(ranges) && |ranges| > 0 && AllWellFormed(ranges)
    requires a in PlanCoords(ranges[..|ranges| - 1])
    ensures a.z < ranges[|ranges| - 1].z
  {
    hide PlanCoords;
    var prior := ranges[..|ranges| - 1];
    PlanCoordsMembers(prior, a);
    var i :| 0 <= i < |prior| && InRange(a, prior[i]);
    assert prior[i] == ranges[i];
  }

  /** A plan lists its tiles in strictly increasing order, so it lists none of them twice. */
  lemma {:induction false} PlanCoordsOrdered(ranges: seq<TileRange>)
    requires AllWellFormed(ranges) && LevelsIncrease(ranges)
    ensures Ordered(PlanCoords(ranges))
  {
    hide PlanCoords, RangeCoords;
    if |ranges| == 0 {
      NoRanges(ranges, TileCoord(0, 0, 0));
    } else {
      var prior, last := ranges[..|ranges| - 1], ranges[|ranges| - 1];
      PlanCoordsStep(ranges);
      PlanCoordsOrdered(prior);
      RangeCoordsOrdered(last, last.maxX + 1);
      hide Ordered, LevelsIncrease;
      var s, t := PlanCoords(prior), RangeCoords(last, last.maxX + 1);
      forall a, b | a in s && b in t ensures Before(a, b) {
        EarlierLevels(ranges, a);
        RangeCoordsMembers(last, last.maxX + 1, b);
      }
      OrderedConcat(s, t);
    }
  }
}
