/** The fixed-window rate limiter of the gateway with its in-memory store
  * (backend/api-gateway/src/rate_limit.rs).  Clock readings are nanoseconds. */
module RateLimit {
  import opened Wrappers

  const NANOS_PER_SECOND: nat := 1_000_000_000
  const WINDOW: nat := 60 * NANOS_PER_SECOND

  datatype RouteClass = PublicTileMetadata | TileRedirect | PublicSiteRead | AdminRead | AdminWrite | AuthFailure

  datatype RateLimitPolicy = RateLimitPolicy(limitPerMinute: nat, burst: nat) {
    function AllowedInWindow(): nat {
      limitPerMinute + burst
    }
  }

  function AsStr(c: RouteClass): string {
    match c
    case PublicTileMetadata => "public_tile_metadata"
    case TileRedirect => "tile_redirect"
    case PublicSiteRead => "public_site_read"
    case AdminRead => "admin_read"
    case AdminWrite => "admin_write"
    case AuthFailure => "auth_failure"
  }

  function PolicyOf(c: RouteClass): RateLimitPolicy {
    match c
    case PublicTileMetadata => RateLimitPolicy(120, 60)
    case TileRedirect => RateLimitPolicy(600, 120)
    case PublicSiteRead => RateLimitPolicy(120, 60)
    case AdminRead => RateLimitPolicy(60, 20)
    case AdminWrite => RateLimitPolicy(10, 5)
    case AuthFailure => RateLimitPolicy(10, 5)
  }

  function MapKey(key: string, c: RouteClass): string {
    AsStr(c) + ":" + key
  }

  datatype WindowCounter = WindowCounter(startedAt: nat, count: nat)
  datatype WindowSnapshot = WindowSnapshot(count: nat, retryAfterSeconds: nat)

  /** The difference of two clock readings, zero when they are out of order. */
  function Since(now: nat, earlier: nat): nat {
    if now < earlier then 0 else now - earlier
  }

  /** Time left of the window at a reading, zero when the window is over. */
  function Remaining(counter: WindowCounter, now: nat): nat {
    Since(WINDOW, Since(now, counter.startedAt))
  }

  function RetryAfter(counter: WindowCounter, now: nat): nat {
    Max(Remaining(counter, now) / NANOS_PER_SECOND, 1)
  }

  /** The counter of a key after one more call. */
  function Count(counter: Option<WindowCounter>, now: nat): WindowCounter {
    if counter.Some? && Since(now, counter.value.startedAt) < WINDOW
    then counter.value.(count := counter.value.count + 1)
    else WindowCounter(now, 1)
  }

  function Lookup(counters: map<string, WindowCounter>, key: string): Option<WindowCounter> {
    if key in counters then Some(counters[key]) else None
  }

  class MemoryRateLimitStore {
    var counters: map<string, WindowCounter>

    constructor ()
      ensures counters == map[]
    {
      counters := map[];
    }

    method IncrementWindow(key: string, now: nat) returns (snapshot: WindowSnapshot)
      modifies this
      ensures counters == old(counters)[key := Count(Lookup(old(counters), key), now)]
      ensures snapshot == WindowSnapshot(counters[key].count, RetryAfter(counters[key], now))
    {
      if key !in counters {
        counters := counters[key := WindowCounter(now, 0)];
      }
      if Since(now, counters[key].startedAt) >= WINDOW {
        counters := counters[key := WindowCounter(now, 0)];
      }
      counters := counters[key := counters[key].(count := counters[key].count + 1)];
      snapshot := WindowSnapshot(counters[key].count,
                                 Max(Since(WINDOW, Since(now, counters[key].startedAt)) / NANOS_PER_SECOND, 1));
    }

    /** Admits a call, or refuses it with the number of seconds to wait. */
    method Check(key: string, routeClass: RouteClass, now: nat) returns (r: Result<(), nat>)
      modifies this
      ensures counters == Call(old(counters), key, routeClass, now)
      ensures
        var counter := counters[MapKey(key, routeClass)];
        r == if counter.count <= PolicyOf(routeClass).AllowedInWindow()
             then Success(()) else Failure(RetryAfter(counter, now))
    {
      var snapshot := IncrementWindow(MapKey(key, routeClass), now);
      if snapshot.count > PolicyOf(routeClass).AllowedInWindow() {
        return Failure(snapshot.retryAfterSeconds);
      }
      return Success(());
    }
  }

  function Call(counters: map<string, WindowCounter>, key: string, c: RouteClass, now: nat)
    : map<string, WindowCounter>
  {
    counters[MapKey(key, c) := Count(Lookup(counters, MapKey(key, c)), now)]
  }

  // --------------------------------------------------------------- callers do not share counters

  lemma NoColon(c: RouteClass)
    ensures ':' !in AsStr(c)
  {
  }

  /** A key of the store determines the route class and the caller's key. */
  lemma MapKeyInjective(k1: string, c1: RouteClass, k2: string, c2: RouteClass)
    requires MapKey(k1, c1) == MapKey(k2, c2)
    ensures k1 == k2 && c1 == c2
  {
    var s1, s2 := AsStr(c1), AsStr(c2);
    var whole := s1 + ":" + k1;
    NoColon(c1);
    NoColon(c2);
    assert whole == s2 + ":" + k2;
    assert whole[|s1|] == ':' && whole[|s2|] == ':';
    assert forall i | 0 <= i < |s1| :: whole[i] == s1[i];
    assert forall i | 0 <= i < |s2| :: whole[i] == s2[i];
    assert |s1| == |s2|;
    assert s1 == whole[..|s1|] == s2;
    assert k1 == whole[|s1| + 1..] == k2;
  }

  datatype Request = Request(key: string, routeClass: RouteClass, now: nat)

  /** The store after a sequence of calls. */
  function Served(requests: seq<Request>): map<string, WindowCounter> {
    if |requests| == 0 then map[]
    else
      var last := requests[|requests| - 1];
      Call(Served(requests[..|requests| - 1]), last.key, last.routeClass, last.now)
  }

  /** The clock readings of the calls of one caller in one route class. */
  function Readings(requests: seq<Request>, key: string, c: RouteClass): seq<nat> {
    if |requests| == 0 then []
    else
      var prior, last := Readings(requests[..|requests| - 1], key, c), requests[|requests| - 1];
      if last.key == key && last.routeClass == c then prior + [last.now] else prior
  }

  /** The counter of one caller after its own calls. */
  function After(times: seq<nat>): Option<WindowCounter> {
    if |times| == 0 then None
    else Some(Count(After(times[..|times| - 1]), times[|times| - 1]))
  }

  /** What the store holds for a caller depends on that caller's own calls only. */
  lemma {:induction false} CallersAreIndependent(requests: seq<Request>, key: string, c: RouteClass)
    ensures Lookup(Served(requests), MapKey(key, c)) == After(Readings(requests, key, c))
  {
    if |requests| > 0 {
      var prior, last := requests[..|requests| - 1], requests[|requests| - 1];
      CallersAreIndependent(prior, key, c);
      if last.key == key && last.routeClass == c {
        var times := Readings(prior, key, c);
        assert (times + [last.now])[..|times|] == times;
      } else if MapKey(last.key, last.routeClass) == MapKey(key, c) {
        MapKeyInjective(last.key, last.routeClass, key, c);
      }
    }
  }

  // ------------------------------------------------------------------------ one caller over time

  /** The counter after call i. */
  function CounterAt(times: seq<nat>, i: nat): WindowCounter
    requires i < |times|
  {
    After(times[..i + 1]).value
  }

  lemma CounterStep(times: seq<nat>, i: nat)
    requires i < |times|
    ensures CounterAt(times, i) == Count(if i == 0 then None else Some(CounterAt(times, i - 1)), times[i])
    ensures After(times) == Some(CounterAt(times, |times| - 1))
  {
    var upTo := times[..i + 1];
    assert upTo[..i] == times[..i] && upTo[i] == times[i];
    assert After(upTo) == Some(Count(After(times[..i]), times[i]));
    if i > 0 {
      assert times[..i - 1 + 1] == times[..i];
      assert After(times[..i]).Some?;
    }
    assert times[..|times|] == times;
  }

  /** Windows start at least a minute apart, whatever the clock readings. */
  lemma {:induction false} WindowStartsApart(times: seq<nat>, i: nat, j: nat)
    requires i <= j < |times|
    ensures CounterAt(times, j).startedAt == CounterAt(times, i).startedAt
            || CounterAt(times, j).startedAt >= CounterAt(times, i).startedAt + WINDOW
    decreases j
  {
    if i < j {
      WindowStartsApart(times, i, j - 1);
      CounterStep(times, j);
    }
  }

  /** A refused call leaves the window as it was: only an admitted call opens one. */
  lemma RefusedCallOpensNoWindow(times: seq<nat>, i: nat, allowed: nat)
    requires i < |times| && 0 < allowed < CounterAt(times, i).count
    ensures 0 < i && CounterAt(times, i).startedAt == CounterAt(times, i - 1).startedAt
  {
    CounterStep(times, i);
  }

  function One(b: bool): nat {
    if b then 1 else 0
  }

  /** Number of admitted calls counted in the window that starts at start. */
  function AdmittedInWindow(times: seq<nat>, allowed: nat, start: nat): nat {
    if |times| == 0 then 0
    else
      var counter := After(times).value;
      AdmittedInWindow(times[..|times| - 1], allowed, start)
      + One(counter.startedAt == start && counter.count <= allowed)
  }

  /** Number of admitted calls read between from, inclusive, and until. */
  function AdmittedBetween(times: seq<nat>, allowed: nat, from: nat, until: nat): nat {
    if |times| == 0 then 0
    else
      AdmittedBetween(times[..|times| - 1], allowed, from, until)
      + One(from <= times[|times| - 1] < until && After(times).value.count <= allowed)
  }

  /** A window admits as many calls as it counts, up to the limit and no further. */
  lemma {:induction false} WindowAdmits(times: seq<nat>, allowed: nat, start: nat)
    ensures AdmittedInWindow(times, allowed, start) <= allowed
    ensures |times| > 0 ==>
      var counter := After(times).value;
      && (start == counter.startedAt ==> AdmittedInWindow(times, allowed, start) == Min(counter.count, allowed))
      && (start > counter.startedAt ==> AdmittedInWindow(times, allowed, start) == 0)
  {
    if |times| > 0 {
      WindowAdmits(times[..|times| - 1], allowed, start);
    }
  }

  predicate NonDecreasing(times: seq<nat>) {
    forall i, j | 0 <= i < j < |times| :: times[i] <= times[j]
  }

  /** Calls read before the interval do not count in it; and every window is at least as old as the call. */
  lemma {:induction false} BeforeInterval(times: seq<nat>, allowed: nat, from: nat, until: nat)
    requires NonDecreasing(times) && |times| > 0
    ensures times[|times| - 1] < from ==> AdmittedBetween(times, allowed, from, until) == 0
    ensures After(times).value.startedAt <= times[|times| - 1]
  {
    if |times| > 1 {
      BeforeInterval(times[..|times| - 1], allowed, from, until);
    }
  }

  /** No minute sees more than twice the limit less one call: it meets at most two windows,
    * and the call that opened the earlier one came before it. */
  lemma {:induction false} AnyMinuteAdmits(times: seq<nat>, allowed: nat, from: nat)
    requires NonDecreasing(times) && 0 < allowed
    ensures AdmittedBetween(times, allowed, from, from + WINDOW) <= 2 * allowed - 1
    ensures |times| > 0 ==>
      var counter, admitted := After(times).value, AdmittedBetween(times, allowed, from, from + WINDOW);
      && (counter.startedAt < from ==> admitted <= Min(counter.count, allowed) - 1)
      && (counter.startedAt < from + WINDOW ==> admitted <= allowed - 1 + Min(counter.count, allowed))
  {
    if |times| > 0 {
      var prior, now := times[..|times| - 1], times[|times| - 1];
      AnyMinuteAdmits(prior, allowed, from);
      BeforeInterval(times, allowed, from, from + WINDOW);
      if |prior| > 0 {
        BeforeInterval(prior, allowed, from, from + WINDOW);
      }
    }
  }

  /** The bound is met: four calls on a limit of two, three of them admitted in one minute. */
  lemma AnyMinuteBoundIsTight()
    ensures AdmittedBetween([0, WINDOW - 1, WINDOW, WINDOW], 2, 1, 1 + WINDOW) == 3
  {
    var t := [0, WINDOW - 1, WINDOW, WINDOW];
    assert t[..3] == [0, WINDOW - 1, WINDOW] && t[..3][..2] == [0, WINDOW - 1] && t[..3][..2][..1] == [0];
    assert After([0]) == Some(WindowCounter(0, 1));
    assert After([0, WINDOW - 1]) == Some(WindowCounter(0, 2));
    assert After([0, WINDOW - 1, WINDOW]) == Some(WindowCounter(WINDOW, 1));
    assert AdmittedBetween([0], 2, 1, 1 + WINDOW) == 0;
    assert AdmittedBetween([0, WINDOW - 1], 2, 1, 1 + WINDOW) == 1;
    assert AdmittedBetween([0, WINDOW - 1, WINDOW], 2, 1, 1 + WINDOW) == 2;
  }

  /** A caller that waits one second more than it was told is counted in a later window. */
  lemma WaitingReachesLaterWindow(times: seq<nat>, i: nat, j: nat)
    requires NonDecreasing(times) && i < j < |times|
    requires times[j] >= times[i] + (RetryAfter(CounterAt(times, i), times[i]) + 1) * NANOS_PER_SECOND
    ensures CounterAt(times, j).startedAt >= CounterAt(times, i).startedAt + WINDOW
  {
    WindowStartsApart(times, i, j);
    WindowStartsApart(times, i, j - 1);
    CounterStep(times, j);
    BeforeInterval(times[..i + 1], 1, 0, 0);
    assert times[..i + 1][i] == times[i];
  }

  /** Waiting exactly as long as told is enough only when the remaining time was a whole
    * number of seconds or less than one: the advice is rounded down. */
  lemma AdviceIsRoundedDown(counter: WindowCounter, now: nat)
    requires counter.startedAt <= now < counter.startedAt + WINDOW
    ensures
      var later := now + RetryAfter(counter, now) * NANOS_PER_SECOND;
      Count(Some(counter), later).startedAt != counter.startedAt <==>
        Remaining(counter, now) % NANOS_PER_SECOND == 0 || Remaining(counter, now) < NANOS_PER_SECOND
  {
    var remaining := Remaining(counter, now);
    assert remaining == remaining / NANOS_PER_SECOND * NANOS_PER_SECOND + remaining % NANOS_PER_SECOND;
  }
}
