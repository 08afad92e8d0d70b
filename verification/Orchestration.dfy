/** Tile jobs and the bounded parallel renderer
  * (backend/processing-svc/src/generate/orchestration.rs). */
module Orchestration {
  import opened Wrappers
  import opened SlippyTiles
  import opened Planning
  import opened RasterWindows

  datatype Job = Job(index: nat, coord: TileCoord, window: RasterWindow)
  datatype RenderedTile = RenderedTile(coord: TileCoord, pngBytes: seq<nat>)

  /** Renders the pixels of one window; any job may fail. */
  type Renderer = (TileCoord, RasterWindow) -> Result<seq<nat>, GenerateError>

  function RenderTile(render: Renderer, job: Job): Result<RenderedTile, GenerateError> {
    var bytes :- render(job.coord, job.window);
    Success(RenderedTile(job.coord, bytes))
  }

  // ------------------------------------------------------------------------------- the job list

  /** One job per tile, in the order of the tiles, numbered from zero, each with the window of its tile. */
  ghost predicate IsJobList(m: Projection, source: Bounds, shape: RasterShape, coords: seq<TileCoord>, jobs: seq<Job>) {
    && |jobs| == |coords|
    && forall i | 0 <= i < |jobs| ::
         && jobs[i].index == i
         && jobs[i].coord == coords[i]
         && RasterWindowForTile(m, coords[i], source, shape) == Success(jobs[i].window)
  }

  /** Tile k is the first of the list without a window. */
  ghost predicate FirstWindowless(m: Projection, source: Bounds, shape: RasterShape, coords: seq<TileCoord>, k: nat) {
    && k < |coords| && RasterWindowForTile(m, coords[k], source, shape).Failure?
    && forall i | 0 <= i < k :: RasterWindowForTile(m, coords[i], source, shape).Success?
  }

  /** Succeeds exactly when every planned tile has a window, and otherwise gives the error of the
    * first tile in plan order that has none. */
  method TileRenderJobs(m: Projection, source: Bounds, shape: RasterShape, plan: Plan)
    returns (r: Result<seq<Job>, GenerateError>)
    requires AllWellFormed(plan.ranges)
    ensures r.Success? ==> IsJobList(m, source, shape, PlanCoords(plan.ranges), r.value)
    ensures r.Failure? ==>
      exists k :: 0 <= k < |PlanCoords(plan.ranges)| && FirstWindowless(m, source, shape, PlanCoords(plan.ranges), k)
                  && RasterWindowForTile(m, PlanCoords(plan.ranges)[k], source, shape) == Failure(r.error)
  {
    hide RasterWindowForTile, IsJobList, PlanCoords, RangeCoords, ColumnCoords, InRange;
    var ranges := plan.ranges;
    var jobs: seq<Job> := [];
    PlanStarts(ranges);
    NoJobs(m, source, shape);
    for i := 0 to |ranges|
      invariant IsJobList(m, source, shape, PlanCoords(ranges[..i]), jobs)
    {
      var range := ranges[i];
      ghost var before := PlanCoords(ranges[..i]);
      RangeCoordsStep(range, range.minX);
      assert before + RangeCoords(range, range.minX) == before;
      var x := range.minX;
      while x <= range.maxX
        invariant range.minX <= x <= range.maxX + 1
        invariant IsJobList(m, source, shape, before + RangeCoords(range, x), jobs)
      {
        ghost var columns := before + RangeCoords(range, x);
        ColumnStarts(range, x, columns);
        var y := range.minY;
        while y <= range.maxY
          invariant range.minY <= y <= range.maxY + 1
          invariant IsJobList(m, source, shape, columns + ColumnCoords(range, x, y), jobs)
        {
          var coord := TileCoord(range.z, x, y);
          match RasterWindowForTile(m, coord, source, shape) {
            case Failure(error) =>
              PlanContinuesWith(ranges, i, x, y);
              NoWindow(m, source, shape, columns + ColumnCoords(range, x, y), jobs, coord, PlanCoords(ranges));
              return Failure(error);
            case Success(window) =>
              NextJob(m, source, shape, columns + ColumnCoords(range, x, y), jobs, coord, window);
              jobs := jobs + [Job(|jobs|, coord, window)];
          }
          ColumnContinues(range, x, y, columns);
          y := y + 1;
        }
        RangeCoordsStep(range, x);
        assert before + RangeCoords(range, x + 1) == columns + ColumnCoords(range, x, range.maxY + 1);
        x := x + 1;
      }
      PlanContinues(ranges, i);
    }
    assert ranges[..|ranges|] == ranges;
    return Success(jobs);
  }

  lemma PlanStarts(ranges: seq<TileRange>)
    requires AllWellFormed(ranges)
    ensures PlanCoords(ranges[..0]) == []
  {
  }

  lemma ColumnStarts(r: TileRange, x: nat, before: seq<TileCoord>)
    ensures before + ColumnCoords(r, x, r.minY) == before
  {
  }

  lemma ColumnContinues(r: TileRange, x: nat, y: nat, before: seq<TileCoord>)
    requires r.minY <= y
    ensures ColumnCoords(r, x, y + 1) == ColumnCoords(r, x, y) + [TileCoord(r.z, x, y)]
    ensures before + ColumnCoords(r, x, y + 1) == before + ColumnCoords(r, x, y) + [TileCoord(r.z, x, y)]
  {
    assert ColumnCoords(r, x, y + 1) == ColumnCoords(r, x, y) + [TileCoord(r.z, x, y)];
  }

  lemma PlanContinues(ranges: seq<TileRange>, i: nat)
    requires AllWellFormed(ranges) && i < |ranges|
    ensures PlanCoords(ranges[..i + 1]) == PlanCoords(ranges[..i]) + RangeCoords(ranges[i], ranges[i].maxX + 1)
  {
    assert ranges[..i + 1][..i] == ranges[..i];
  }

  /** The tiles listed before column x, row y of range i, and then that tile, begin the plan. */
  lemma PlanContinuesWith(ranges: seq<TileRange>, i: nat, x: nat, y: nat)
    requires AllWellFormed(ranges) && i < |ranges|
    requires ranges[i].minX <= x <= ranges[i].maxX && ranges[i].minY <= y <= ranges[i].maxY
    ensures
      var range := ranges[i];
      PlanCoords(ranges[..i]) + RangeCoords(range, x) + ColumnCoords(range, x, y) + [TileCoord(range.z, x, y)]
      <= PlanCoords(ranges)
  {
    hide PlanCoords, RangeCoords, ColumnCoords;
    var range := ranges[i];
    var column, tile := ColumnCoords(range, x, y), TileCoord(range.z, x, y);
    ColumnContinues(range, x, y, []);
    ColumnGrows(range, x, y + 1, range.maxY + 1);
    RangeCoordsStep(range, x);
    RangeGrows(range, x + 1, range.maxX + 1);
    PlanContinues(ranges, i);
    PlanGrows(ranges, i + 1);
    NestedPrefix(PlanCoords(ranges[..i]), RangeCoords(range, x), column, tile, ColumnCoords(range, x, range.maxY + 1),
                 RangeCoords(range, range.maxX + 1), PlanCoords(ranges));
  }

  lemma NestedPrefix(plan: seq<TileCoord>, range: seq<TileCoord>, column: seq<TileCoord>, tile: TileCoord,
                     wholeColumn: seq<TileCoord>, wholeRange: seq<TileCoord>, all: seq<TileCoord>)
    requires column + [tile] <= wholeColumn && range + wholeColumn <= wholeRange && plan + wholeRange <= all
    ensures plan + range + column + [tile] <= all
  {
    PrefixAfter(range, column + [tile], wholeColumn);
    assert range + column + [tile] == range + (column + [tile]) <= wholeRange;
    PrefixAfter(plan, range + column + [tile], wholeRange);
    assert plan + range + column + [tile] == plan + (range + column + [tile]);
  }

  lemma PrefixAfter(before: seq<TileCoord>, s: seq<TileCoord>, t: seq<TileCoord>)
    requires s <= t
    ensures before + s <= before + t
  {
  }

  lemma {:induction false} ColumnGrows(r: TileRange, x: nat, y: nat, z: nat)
    requires r.minY <= y <= z
    ensures ColumnCoords(r, x, y) <= ColumnCoords(r, x, z)
    decreases z
  {
    if y < z {
      ColumnGrows(r, x, y, z - 1);
    }
  }

  lemma {:induction false} RangeGrows(r: TileRange, x: nat, y: nat)
    requires r.minX <= x <= y && WellFormed(r)
    ensures RangeCoords(r, x) <= RangeCoords(r, y)
    decreases y
  {
    if x < y {
      RangeGrows(r, x, y - 1);
    }
  }

  lemma {:induction false} PlanGrows(ranges: seq<TileRange>, n: nat)
    requires AllWellFormed(ranges) && n <= |ranges|
    ensures PlanCoords(ranges[..n]) <= PlanCoords(ranges)
  {
    hide RangeCoords;
    if n < |ranges| {
      PlanGrows(ranges[..|ranges| - 1], n);
      assert ranges[..|ranges| - 1][..n] == ranges[..n];
    } else {
      assert ranges[..n] == ranges;
    }
  }

  lemma NoWindow(m: Projection, source: Bounds, shape: RasterShape, coords: seq<TileCoord>, jobs: seq<Job>,
                 c: TileCoord, all: seq<TileCoord>)
    requires IsJobList(m, source, shape, coords, jobs) && RasterWindowForTile(m, c, source, shape).Failure?
    requires coords + [c] <= all
    ensures FirstWindowless(m, source, shape, all, |coords|) && all[|coords|] == c
  {
    hide RasterWindowForTile;
    forall i | 0 <= i < |coords| ensures RasterWindowForTile(m, all[i], source, shape).Success? {
      assert all[i] == (coords + [c])[i] == coords[i];
      assert RasterWindowForTile(m, coords[i], source, shape) == Success(jobs[i].window);
    }
    assert all[|coords|] == (coords + [c])[|coords|];
  }

  lemma NoJobs(m: Projection, source: Bounds, shape: RasterShape)
    ensures IsJobList(m, source, shape, [], [])
  {
  }

  lemma NextJob(m: Projection, source: Bounds, shape: RasterShape, coords: seq<TileCoord>, jobs: seq<Job>,
                c: TileCoord, window: RasterWindow)
    requires IsJobList(m, source, shape, coords, jobs) && RasterWindowForTile(m, c, source, shape) == Success(window)
    ensures IsJobList(m, source, shape, coords + [c], jobs + [Job(|jobs|, c, window)])
  {
    hide RasterWindowForTile;
  }

  // ----------------------------------------------------------------------- the bounded scheduler

  datatype Event = Spawned(index: nat) | Joined(index: nat)

  ghost function InFlight(trace: seq<Event>): set<nat> {
    if |trace| == 0 then {}
    else
      var prior := InFlight(trace[..|trace| - 1]);
      match trace[|trace| - 1]
      case Spawned(i) => prior + {i}
      case Joined(i) => prior - {i}
  }

  ghost function Spawns(trace: seq<Event>): nat {
    if |trace| == 0 then 0
    else Spawns(trace[..|trace| - 1]) + if trace[|trace| - 1].Spawned? then 1 else 0
  }

  /** Jobs are spawned one after the other in list order, only while fewer than limit are in
    * flight, and any job in flight may be the next to finish. */
  ghost predicate IsSchedule(trace: seq<Event>, jobCount: nat, limit: nat) {
    |trace| > 0 ==>
      var prior := trace[..|trace| - 1];
      && IsSchedule(prior, jobCount, limit)
      && match trace[|trace| - 1]
         case Spawned(i) => i == Spawns(prior) < jobCount && |InFlight(prior)| < limit
         case Joined(i) => i in InFlight(prior)
  }

  /** What a loop that renders the jobs one after the other returns. */
  function SequentialTiles(render: Renderer, jobs: seq<Job>): Result<seq<RenderedTile>, GenerateError> {
    if |jobs| == 0 then Success([])
    else
      var tile :- RenderTile(render, jobs[0]);
      var tiles :- SequentialTiles(render, jobs[1..]);
      Success([tile] + tiles)
  }

  ghost predicate Numbered(jobs: seq<Job>) {
    forall i | 0 <= i < |jobs| :: jobs[i].index == i
  }

  /** Tiles of distinct finished jobs, tagged with the number of their job. */
  ghost predicate AreFinished(render: Renderer, jobs: seq<Job>, tiles: seq<(nat, RenderedTile)>) {
    && (forall k | 0 <= k < |tiles| ::
          tiles[k].0 < |jobs| && RenderTile(render, jobs[tiles[k].0]) == Success(tiles[k].1))
    && forall k, l | 0 <= k < l < |tiles| :: tiles[k].0 != tiles[l].0
  }

  /** Runs the jobs with at most max(1, maxParallelism) of them in flight.  The scheduler joins
    * them in any order; the result does not depend on it. */
  method RunJobs(render: Renderer, jobs: seq<Job>, maxParallelism: nat)
    returns (r: Result<seq<RenderedTile>, GenerateError>, ghost trace: seq<Event>)
    requires Numbered(jobs)
    ensures IsSchedule(trace, |jobs|, Max(maxParallelism, 1))
    ensures r.Success? <==> SequentialTiles(render, jobs).Success?
    ensures r.Success? ==> r == SequentialTiles(render, jobs)
    ensures r.Success? ==> Spawns(trace) == |jobs| && InFlight(trace) == {} && |trace| == 2 * |jobs|
    ensures r.Failure? ==>
      && |trace| > 0 && trace[|trace| - 1].Joined? && trace[|trace| - 1].index < |jobs|
      && RenderTile(render, jobs[trace[|trace| - 1].index]) == Failure(r.error)
  {
    hide IsSchedule, InFlight, Spawns, SequentialTiles, RenderTile;
    var limit := Max(maxParallelism, 1);
    var inFlight: set<nat> := {};
    var nextJob: nat := 0;
    var tiles: seq<(nat, RenderedTile)> := [];
    trace := [];
    EmptySchedule(|jobs|, limit);

    while nextJob < |jobs| || inFlight != {}
      invariant nextJob <= |jobs|
      invariant IsSchedule(trace, |jobs|, limit) && InFlight(trace) == inFlight && Spawns(trace) == nextJob
      invariant |inFlight| <= limit && forall i <- inFlight :: i < nextJob
      invariant |tiles| + |inFlight| == nextJob && |trace| == nextJob + |tiles|
      invariant AreFinished(render, jobs, tiles)
      invariant forall k | 0 <= k < |tiles| :: tiles[k].0 < nextJob && tiles[k].0 !in inFlight
      decreases |jobs| - nextJob + |inFlight|
    {
      while nextJob < |jobs| && |inFlight| < limit
        invariant nextJob <= |jobs|
        invariant IsSchedule(trace, |jobs|, limit) && InFlight(trace) == inFlight && Spawns(trace) == nextJob
        invariant |inFlight| <= limit && forall i <- inFlight :: i < nextJob
        invariant |tiles| + |inFlight| == nextJob && |trace| == nextJob + |tiles|
        invariant forall k | 0 <= k < |tiles| :: tiles[k].0 < nextJob && tiles[k].0 !in inFlight
        invariant nextJob < |jobs| || inFlight != {}
      {
        ExtendSchedule(trace, Spawned(nextJob), |jobs|, limit);
        trace := trace + [Spawned(nextJob)];
        inFlight := inFlight + {nextJob};
        nextJob := nextJob + 1;
      }

      var index :| index in inFlight;
      ExtendSchedule(trace, Joined(index), |jobs|, limit);
      trace := trace + [Joined(index)];
      inFlight := inFlight - {index};
      match RenderTile(render, jobs[index]) {
        case Failure(error) =>
          SequentialFails(render, jobs, index);
          return Failure(error), trace;
        case Success(tile) =>
          tiles := tiles + [(index, tile)];
      }
    }

    var ordered := TilesInJobOrder(render, jobs, tiles);
    return Success(ordered), trace;
  }

  /** Finished tiles of all jobs, back in job order. */
  method TilesInJobOrder(render: Renderer, jobs: seq<Job>, tiles: seq<(nat, RenderedTile)>)
    returns (ordered: seq<RenderedTile>)
    requires AreFinished(render, jobs, tiles) && |tiles| == |jobs|
    ensures SequentialTiles(render, jobs) == Success(ordered)
  {
    var sorted := SortByIndex(tiles);
    forall k | 0 <= k < |sorted|
      ensures sorted[k].0 < |jobs| && RenderTile(render, jobs[sorted[k].0]) == Success(sorted[k].1)
    {
      assert sorted[k] in multiset(sorted);
      assert sorted[k] in tiles;
    }
    SortedKeys(sorted, |jobs|);
    SequentialFromParts(render, jobs, sorted, 0);
    assert jobs[0..] == jobs && sorted[0..] == sorted;
    return Second(sorted);
  }

  lemma EmptySchedule(jobCount: nat, limit: nat)
    ensures IsSchedule([], jobCount, limit) && InFlight([]) == {} && Spawns([]) == 0
  {
  }

  lemma ExtendSchedule(trace: seq<Event>, e: Event, jobCount: nat, limit: nat)
    requires IsSchedule(trace, jobCount, limit)
    requires e.Spawned? ==> e.index == Spawns(trace) < jobCount && |InFlight(trace)| < limit
    requires e.Joined? ==> e.index in InFlight(trace)
    ensures IsSchedule(trace + [e], jobCount, limit)
    ensures InFlight(trace + [e]) ==
            if e.Spawned? then InFlight(trace) + {e.index} else InFlight(trace) - {e.index}
    ensures Spawns(trace + [e]) == Spawns(trace) + if e.Spawned? then 1 else 0
  {
    assert (trace + [e])[..|trace|] == trace;
  }

  function Second(s: seq<(nat, RenderedTile)>): seq<RenderedTile> {
    seq(|s|, k requires 0 <= k < |s| => s[k].1)
  }

  ghost predicate StrictlySorted(s: seq<(nat, RenderedTile)>) {
    forall k, l | 0 <= k < l < |s| :: s[k].0 < s[l].0
  }

  /** The standard library's stable sort, as insertion of one tile after the other. */
  method SortByIndex(tiles: seq<(nat, RenderedTile)>) returns (sorted: seq<(nat, RenderedTile)>)
    requires forall k, l | 0 <= k < l < |tiles| :: tiles[k].0 != tiles[l].0
    ensures multiset(sorted) == multiset(tiles) && |sorted| == |tiles|
    ensures StrictlySorted(sorted)
  {
    sorted := [];
    for i := 0 to |tiles|
      invariant |sorted| == i && multiset(sorted) == multiset(tiles[..i])
      invariant StrictlySorted(sorted)
    {
      assert tiles[..i + 1] == tiles[..i] + [tiles[i]];
      forall k | 0 <= k < |sorted| ensures sorted[k].0 != tiles[i].0 {
        assert sorted[k] in multiset(tiles[..i]);
      }
      InsertPermutes(tiles[i], sorted);
      InsertSorts(tiles[i], sorted);
      sorted := Insert(tiles[i], sorted);
    }
    assert tiles[..|tiles|] == tiles;
  }

  function Insert(tile: (nat, RenderedTile), s: seq<(nat, RenderedTile)>): seq<(nat, RenderedTile)> {
    if |s| == 0 || s[|s| - 1].0 <= tile.0 then s + [tile]
    else Insert(tile, s[..|s| - 1]) + [s[|s| - 1]]
  }

  lemma {:induction false} InsertPermutes(tile: (nat, RenderedTile), s: seq<(nat, RenderedTile)>)
    ensures multiset(Insert(tile, s)) == multiset(s) + multiset{tile}
    ensures |Insert(tile, s)| == |s| + 1
  {
    if |s| > 0 && tile.0 < s[|s| - 1].0 {
      InsertPermutes(tile, s[..|s| - 1]);
      assert s == s[..|s| - 1] + [s[|s| - 1]];
    }
  }

  lemma {:induction false} InsertSorts(tile: (nat, RenderedTile), s: seq<(nat, RenderedTile)>)
    requires StrictlySorted(s) && forall k | 0 <= k < |s| :: s[k].0 != tile.0
    ensures StrictlySorted(Insert(tile, s))
  {
    if |s| > 0 && tile.0 < s[|s| - 1].0 {
      var prior, last := s[..|s| - 1], s[|s| - 1];
      InsertSorts(tile, prior);
      InsertPermutes(tile, prior);
      var inserted := Insert(tile, prior);
      hide Insert;
      forall k | 0 <= k < |inserted| ensures inserted[k].0 < last.0 {
        assert inserted[k] in multiset(inserted);
        assert inserted[k] in prior || inserted[k] == tile;
      }
    }
  }

  /** n strictly increasing numbers below n are 0, 1, ..., n - 1. */
  lemma SortedKeys(s: seq<(nat, RenderedTile)>, n: nat)
    requires |s| == n && StrictlySorted(s) && forall k | 0 <= k < n :: s[k].0 < n
    ensures forall k | 0 <= k < n :: s[k].0 == k
  {
    for k := 0 to n
      invariant forall l | 0 <= l < k :: l <= s[l].0
    {
      assert k > 0 ==> s[k - 1].0 < s[k].0;
    }
    for k := n downto 0
      invariant forall l | k <= l < n :: s[l].0 <= l
    {
      assert k + 1 < n ==> s[k].0 < s[k + 1].0;
    }
  }

  lemma {:induction false} SequentialFromParts(render: Renderer, jobs: seq<Job>, parts: seq<(nat, RenderedTile)>,
                                               k: nat)
    requires |parts| == |jobs| && k <= |jobs|
    requires forall i | 0 <= i < |jobs| :: RenderTile(render, jobs[i]) == Success(parts[i].1)
    ensures SequentialTiles(render, jobs[k..]) == Success(Second(parts[k..]))
    decreases |jobs| - k
  {
    hide RenderTile;
    if k == |jobs| {
      assert jobs[k..] == [] && Second(parts[k..]) == [];
    } else {
      SequentialFromParts(render, jobs, parts, k + 1);
      assert jobs[k..][0] == jobs[k];
      assert jobs[k..][1..] == jobs[k + 1..];
      assert Second(parts[k..]) == [parts[k].1] + Second(parts[k + 1..]);
    }
  }

  lemma {:induction false} SequentialFails(render: Renderer, jobs: seq<Job>, i: nat)
    requires i < |jobs| && RenderTile(render, jobs[i]).Failure?
    ensures SequentialTiles(render, jobs).Failure?
  {
    if i > 0 {
      SequentialFails(render, jobs[1..], i - 1);
    }
  }

  /** Along a schedule no more than limit jobs are ever in flight. */
  lemma {:induction false} ScheduleIsBounded(trace: seq<Event>, jobCount: nat, limit: nat)
    requires IsSchedule(trace, jobCount, limit)
    ensures forall k | 0 <= k <= |trace| :: |InFlight(trace[..k])| <= limit
  {
    if |trace| > 0 {
      var prior := trace[..|trace| - 1];
      ScheduleIsBounded(prior, jobCount, limit);
      forall k | 0 <= k <= |trace| ensures |InFlight(trace[..k])| <= limit {
        assert trace[..k] == if k < |trace| then prior[..k] else trace;
        assert k == |trace| - 1 ==> prior[..k] == prior;
      }
    } else {
      assert trace[..0] == trace;
    }
  }

  /** The jobs spawned are the first ones of the list, each once; a job is joined only after it
    * was spawned, at most once, and exactly the others are in flight. */
  lemma {:induction false} ScheduleRunsEachJobOnce(trace: seq<Event>, jobCount: nat, limit: nat)
    requires IsSchedule(trace, jobCount, limit)
    ensures Spawns(trace) <= jobCount && forall i <- InFlight(trace) :: i < Spawns(trace)
    ensures forall k, l | 0 <= k < l < |trace| :: trace[k] != trace[l]
    ensures forall i: nat :: Spawned(i) in trace <==> i < Spawns(trace)
    ensures forall i: nat :: Joined(i) in trace <==> i < Spawns(trace) && i !in InFlight(trace)
  {
    if |trace| > 0 {
      var prior, last := trace[..|trace| - 1], trace[|trace| - 1];
      ScheduleRunsEachJobOnce(prior, jobCount, limit);
      ExtendSchedule(prior, last, jobCount, limit);
      assert trace == prior + [last];
      OneMoreEvent(prior, last, Spawns(prior), InFlight(prior));
    }
  }

  ghost predicate EachOnce(trace: seq<Event>, spawns: nat, inFlight: set<nat>) {
    && (forall i <- inFlight :: i < spawns)
    && (forall k, l | 0 <= k < l < |trace| :: trace[k] != trace[l])
    && (forall i: nat :: Spawned(i) in trace <==> i < spawns)
    && (forall i: nat :: Joined(i) in trace <==> i < spawns && i !in inFlight)
  }

  lemma OneMoreEvent(prior: seq<Event>, e: Event, spawns: nat, inFlight: set<nat>)
    requires EachOnce(prior, spawns, inFlight)
    requires if e.Spawned? then e.index == spawns else e.index in inFlight
    ensures
      if e.Spawned? then EachOnce(prior + [e], spawns + 1, inFlight + {e.index})
      else EachOnce(prior + [e], spawns, inFlight - {e.index})
  {
    assert e !in prior;
    forall d ensures d in prior + [e] <==> d in prior || d == e {
    }
  }
}
