/** How soon recovery makes progress, whatever else happens to the tables
  * (backend/ingest-svc/src/jobs/recovery.rs, backend/ingest-svc/src/jobs/ingest_log.rs). */
module IngestProgress {
  import opened Wrappers
  import opened IngestLog
  import opened IngestTables
  import opened IngestRecovery

  // -------------------------------------------------------------------------- recovery is fair

  function RecoverableIds(rows: map<nat, Row>): set<nat> {
    set id | id in rows && Recoverable(rows[id])
  }

  function Ids(s: seq<nat>): set<nat> {
    set id | id in s
  }

  lemma {:induction false} DistinctIds(s: seq<nat>)
    requires forall i, j | 0 <= i < j < |s| :: s[i] != s[j]
    ensures |Ids(s)| == |s|
  {
    if s == [] {
      assert Ids(s) == {};
    } else {
      var rest := s[..|s| - 1];
      DistinctIds(rest);
      assert Ids(s) == Ids(rest) + {s[|s| - 1]};
      assert s[|s| - 1] !in Ids(rest);
    }
  }

  /** Recovery runs: the i-th one queries at position ps[i] of a log, gets sels[i], and is done by
    * position qs[i]; the last of ps is where we look at the outcome. */
  datatype Recoveries = Recoveries(ps: seq<nat>, qs: seq<nat>, sels: seq<seq<nat>>)

  /** The runs follow one another in the log.  Anything may happen to the tables during and between them. */
  ghost predicate RecoveryRuns(log: seq<Event>, runs: Recoveries) {
    && |runs.ps| == |runs.qs| + 1 && |runs.sels| == |runs.qs|
    && runs.ps[|runs.qs|] <= |log|
    && forall i | 0 <= i < |runs.qs| ::
         RecoveryRun(log, runs.ps[i], runs.qs[i], runs.sels[i]) && runs.qs[i] <= runs.ps[i + 1]
  }

  lemma {:induction false} PositionsAscend(log: seq<Event>, runs: Recoveries, i: nat, j: nat)
    requires RecoveryRuns(log, runs) && i <= j <= |runs.qs|
    ensures runs.ps[i] <= runs.ps[j] <= |log|
    decreases j - i
  {
    hide RecoveryRun;
    if i < j {
      PositionsAscend(log, runs, i, j - 1);
      RunBounds(log, runs.ps[j - 1], runs.qs[j - 1], runs.sels[j - 1]);
      LastPosition(log, runs, j);
    } else {
      LastPosition(log, runs, j);
    }
  }

  lemma RunBounds(log: seq<Event>, p: nat, q: nat, ids: seq<nat>)
    requires RecoveryRun(log, p, q, ids)
    ensures p <= q <= |log|
  {
  }

  lemma LastPosition(log: seq<Event>, runs: Recoveries, j: nat)
    requires RecoveryRuns(log, runs) && j <= |runs.qs|
    ensures runs.ps[j] <= |log|
  {
    if j < |runs.qs| {
      RunBounds(log, runs.ps[j], runs.qs[j], runs.sels[j]);
    }
  }

  /** The recoverable rows of the first state that the second state holds unchanged. */
  ghost function Unchanged(s: State, t: State): set<nat> {
    set id | id in RecoverableIds(s.rows) && id in t.rows && t.rows[id] == s.rows[id]
  }

  /** A run examines 100 rows that had not changed before, or none of them is left unchanged. */
  lemma UnchangedShrinks(start: State, s: State, u: State, t: State, ids: seq<nat>)
    requires TablesAreConsistent(start)
    requires Extends(start, s) && Extends(s, u) && Extends(u, t)
    requires IsRecoverySelection(s.rows, ids) && Stamped(u, ids, s.clock)
    ensures Unchanged(start, t) == {} || |Unchanged(start, t)| <= |Unchanged(start, s)| - SELECTION_LIMIT
  {
    var before, after := Unchanged(start, s), Unchanged(start, t);
    if after != {} {
      var w :| w in after;
      StillUnchanged(start, s, u, t, w);
      StampedStay(u, t, ids, s.clock);
      forall id | id in ids ensures id in before && id !in after {
        var i :| 0 <= i < |ids| && ids[i] == id;
        SelectedAreOld(start, s, t, ids, w, i);
      }
      forall id | id in after ensures id in before && id !in ids {
        StillUnchanged(start, s, u, t, id);
      }
      hide IsRecoverySelection, Extends, Stamped, TablesAreConsistent;
      DistinctIds(ids);
      SubsetSize(after, before - Ids(ids));
      SubsetDifference(Ids(ids), before);
    }
  }

  lemma StillUnchanged(start: State, s: State, u: State, t: State, w: nat)
    requires TablesAreConsistent(start)
    requires Extends(start, s) && Extends(s, u) && Extends(u, t) && w in Unchanged(start, t)
    ensures w in Unchanged(start, s)
  {
  }

  lemma StampedStay(s: State, t: State, ids: seq<nat>, clock: nat)
    requires Extends(s, t) && Stamped(s, ids, clock) && clock <= s.clock
    ensures Stamped(t, ids, clock)
  {
  }

  lemma SelectedAreOld(start: State, s: State, t: State, ids: seq<nat>, w: nat, i: nat)
    requires TablesAreConsistent(start) && Extends(start, s) && start.clock <= s.clock
    requires IsRecoverySelection(s.rows, ids) && Stamped(t, ids, s.clock) && i < |ids|
    requires w in Unchanged(start, s) && w in Unchanged(start, t)
    ensures |ids| == SELECTION_LIMIT && ids[i] in Unchanged(start, s) && ids[i] !in Unchanged(start, t)
  {
    assert w !in ids;
    assert NotYounger(s.rows[ids[i]], s.rows[w]);
  }

  lemma {:induction false} UnchangedAfter(log: seq<Event>, runs: Recoveries, k: nat)
    requires RecoveryRuns(log, runs) && k <= |runs.qs| && runs.ps[0] <= runs.ps[k] <= |log|
    ensures
      var left := Unchanged(At(log, runs.ps[0]), At(log, runs.ps[k]));
      left == {} || |left| <= |RecoverableIds(At(log, runs.ps[0]).rows)| - k * SELECTION_LIMIT
  {
    hide At, Extends, TablesAreConsistent, IsRecoverySelection, Stamped;
    if k == 0 {
      UnchangedAtFirst(At(log, runs.ps[0]));
    } else {
      PositionsAscend(log, runs, 0, k - 1);
      UnchangedAfter(log, runs, k - 1);
      assert RecoveryRun(log, runs.ps[k - 1], runs.qs[k - 1], runs.sels[k - 1]);
      AtExtends(log, runs.ps[0], runs.ps[k - 1]);
      AtExtends(log, runs.ps[k - 1], runs.qs[k - 1]);
      AtExtends(log, runs.qs[k - 1], runs.ps[k]);
      AtIsSafe(log, runs.ps[0]);
      UnchangedShrinks(At(log, runs.ps[0]), At(log, runs.ps[k - 1]), At(log, runs.qs[k - 1]), At(log, runs.ps[k]),
                       runs.sels[k - 1]);
      if Unchanged(At(log, runs.ps[0]), At(log, runs.ps[k])) != {} {
        SomeWereUnchanged(At(log, runs.ps[0]), At(log, runs.ps[k - 1]), At(log, runs.qs[k - 1]), At(log, runs.ps[k]));
      }
    }
  }

  lemma UnchangedAtFirst(s: State)
    ensures Unchanged(s, s) == RecoverableIds(s.rows)
  {
  }

  lemma SomeWereUnchanged(start: State, s: State, u: State, t: State)
    requires TablesAreConsistent(start)
    requires Extends(start, s) && Extends(s, u) && Extends(u, t) && Unchanged(start, t) != {}
    ensures Unchanged(start, s) != {}
  {
    var w :| w in Unchanged(start, t);
    StillUnchanged(start, s, u, t, w);
  }

  /** The event changes the row's status. */
  predicate Touches(e: Event, id: nat) {
    (e.MarkStatus? && e.id == id) || (e.Replay? && e.id == id)
  }

  lemma {:induction false} ChangedByEvent(log: seq<Event>, p: nat, q: nat, id: nat) returns (i: nat)
    requires p <= q <= |log| && id in At(log, p).rows && id in At(log, q).rows
    requires At(log, p).rows[id] != At(log, q).rows[id]
    ensures p <= i < q && Touches(log[i], id)
    decreases q - p
  {
    AtExtends(log, p, q - 1);
    AtNext(log, q - 1);
    hide At, Extends, Message, KeyTaken;
    RowIsKept(At(log, p), At(log, q - 1), id);
    if At(log, p).rows[id] != At(log, q - 1).rows[id] {
      i := ChangedByEvent(log, p, q - 1, id);
    } else {
      i := q - 1;
    }
  }

  lemma RowIsKept(s: State, t: State, id: nat)
    requires Extends(s, t) && id in s.rows
    ensures id in t.rows
  {
  }

  ghost predicate SelectedBy(runs: Recoveries, id: nat, i: nat) {
    exists j :: 0 <= j < |runs.sels| && j < |runs.ps| && runs.ps[j] <= i && id in runs.sels[j]
  }

  /** With n recoverable rows, every one of them carries a newer stamp after n/100 completed runs,
    * rounded up, even if no blob can be read and whatever other processes do meanwhile.  If no
    * other process touches the row before a run has selected it, then a run examines it. */
  lemma RecoveryIsFair(log: seq<Event>, runs: Recoveries, id: nat)
    requires RecoveryRuns(log, runs) && runs.ps[0] <= |log|
    requires |RecoverableIds(At(log, runs.ps[0]).rows)| <= |runs.sels| * SELECTION_LIMIT
    requires id in At(log, runs.ps[0]).rows && Recoverable(At(log, runs.ps[0]).rows[id])
    ensures runs.ps[0] <= runs.ps[|runs.qs|] <= |log|
    ensures id in At(log, runs.ps[|runs.qs|]).rows
    ensures At(log, runs.ps[|runs.qs|]).rows[id].updatedAt > At(log, runs.ps[0]).clock
    ensures (forall i | runs.ps[0] <= i < runs.ps[|runs.qs|] && Touches(log[i], id) :: SelectedBy(runs, id, i))
            ==> exists j :: 0 <= j < |runs.sels| && id in runs.sels[j]
  {
    hide At, Inv, RecoveryRun;
    PositionsAscend(log, runs, 0, |runs.qs|);
    UnchangedAfter(log, runs, |runs.qs|);
    var s, t := At(log, runs.ps[0]), At(log, runs.ps[|runs.qs|]);
    AtExtends(log, runs.ps[0], runs.ps[|runs.qs|]);
    assert Unchanged(s, t) == {};
    assert id !in Unchanged(s, t);
    var i := ChangedByEvent(log, runs.ps[0], runs.ps[|runs.qs|], id);
    if SelectedBy(runs, id, i) {
      var j :| 0 <= j < |runs.sels| && j < |runs.ps| && runs.ps[j] <= i && id in runs.sels[j];
    }
  }

  /** The query for recoverable rows always has an answer. */
  lemma SelectionExists(rows: map<nat, Row>) returns (ids: seq<nat>)
    ensures IsRecoverySelection(rows, ids)
  {
    var all := SortedByAge(rows, RecoverableIds(rows));
    ids := FirstOf(all, SELECTION_LIMIT);
    forall i | 0 <= i < |ids| ensures ids[i] in RecoverableIds(rows) {
      assert ids[i] == all[i] && all[i] in Ids(all);
    }
    forall id | id in rows && Recoverable(rows[id]) && id !in ids
      ensures |ids| == SELECTION_LIMIT && forall i | 0 <= i < |ids| :: NotYounger(rows[ids[i]], rows[id])
    {
      assert id in Ids(all);
      var j :| 0 <= j < |all| && all[j] == id;
    }
  }

  lemma {:induction false} SortedByAge(rows: map<nat, Row>, ids: set<nat>) returns (s: seq<nat>)
    requires ids <= rows.Keys
    ensures Ids(s) == ids
    ensures forall i, j | 0 <= i < j < |s| :: s[i] != s[j] && NotYounger(rows[s[i]], rows[s[j]])
    decreases |ids|
  {
    if ids == {} {
      s := [];
    } else {
      var oldest := Oldest(rows, ids);
      var rest := SortedByAge(rows, ids - {oldest});
      assert forall i | 0 <= i < |rest| :: rest[i] in Ids(rest);
      s := [oldest] + rest;
      assert Ids(s) == {oldest} + Ids(rest);
    }
  }

  lemma {:induction false} Oldest(rows: map<nat, Row>, ids: set<nat>) returns (oldest: nat)
    requires ids <= rows.Keys && ids != {}
    ensures oldest in ids && forall id | id in ids :: NotYounger(rows[oldest], rows[id])
    decreases |ids|
  {
    var id :| id in ids;
    var others := ids - {id};
    assert ids == others + {id};
    if others == {} {
      oldest := id;
    } else {
      var other := Oldest(rows, others);
      oldest := if NotYounger(rows[id], rows[other]) then id else other;
    }
  }

  // ----------------------------------------------------------------------- the outbox is drained

  /** Drains: the i-th one queries at position ps[i] of a log, gets kss[i], fares as sents[i] says,
    * and is done by position qs[i]; the last of ps is where we look at the outcome. */
  datatype Drains = Drains(ps: seq<nat>, qs: seq<nat>, kss: seq<seq<nat>>, sents: seq<seq<bool>>)

  /** The drains follow one another in the log, with anything happening during and between them. */
  ghost predicate DrainRuns(log: seq<Event>, runs: Drains) {
    && |runs.ps| == |runs.qs| + 1 && |runs.kss| == |runs.sents| == |runs.qs|
    && runs.ps[|runs.qs|] <= |log|
    && forall i | 0 <= i < |runs.qs| ::
         DrainRun(log, runs.ps[i], runs.qs[i], runs.kss[i], runs.sents[i]) && runs.qs[i] <= runs.ps[i + 1]
  }

  /** No record below n becomes eligible from s to t. */
  ghost predicate NoneReturns(s: State, t: State, n: nat) {
    n <= |s.outbox| && n <= |t.outbox| && forall j | 0 <= j < n && IsEligible(t, j) :: IsEligible(s, j)
  }

  /** From look to look, no record that was there at the first one becomes eligible again; new
    * records may come at any time. */
  ghost predicate NoOldArrivals(log: seq<Event>, runs: Drains) {
    && |runs.ps| > 0 && (forall i | 0 <= i < |runs.ps| :: runs.ps[i] <= |log|)
    && forall i | 0 < i < |runs.ps| ::
         NoneReturns(At(log, runs.ps[i - 1]), At(log, runs.ps[i]), |At(log, runs.ps[0]).outbox|)
  }

  lemma {:induction false} EligiblePrefix(s: State, n: nat, m: nat)
    requires n <= m <= |s.outbox|
    ensures EligibleUpTo(s, n) <= EligibleUpTo(s, m)
  {
    if n < m {
      EligiblePrefix(s, n, m - 1);
    }
  }

  /** The rank of a record is the number of eligible records before it; the query returns the
    * eligible records of rank below 100. */
  lemma RankSelects(s: State, j: nat)
    requires j < |s.outbox| && IsEligible(s, j) && |EligibleUpTo(s, j)| < SELECTION_LIMIT
    ensures j in DrainSelection(s)
  {
    EligiblePrefix(s, j + 1, |s.outbox|);
    var all, rank := EligibleUpTo(s, |s.outbox|), |EligibleUpTo(s, j)|;
    assert EligibleUpTo(s, j + 1) == EligibleUpTo(s, j) + [j];
    hide EligibleUpTo, IsEligible;
    assert all[rank] == j;
    assert DrainSelection(s)[rank] == j;
  }

  lemma {:induction false} RankShrinks(s: State, t: State, n: nat, j: nat)
    requires NoneReturns(s, t, n) && j <= n
    ensures |EligibleUpTo(t, j)| <= |EligibleUpTo(s, j)|
  {
    if j > 0 {
      RankShrinks(s, t, n, j - 1);
    }
  }

  /** If no record of rank below 100 is eligible any more, a whole batch is gone. */
  lemma {:induction false} BatchGone(s: State, t: State, n: nat, j: nat)
    requires NoneReturns(s, t, n) && j <= n
    requires forall i | 0 <= i < n && IsEligible(s, i) && |EligibleUpTo(s, i)| < SELECTION_LIMIT :: !IsEligible(t, i)
    ensures |EligibleUpTo(t, j)| <= Max(0, |EligibleUpTo(s, j)| - SELECTION_LIMIT)
  {
    if j > 0 {
      BatchGone(s, t, n, j - 1);
    }
  }

  /** A record that was tried has used an attempt or is pending no longer. */
  lemma TriedUsesAttempt(log: seq<Event>, p: nat, q: nat, r: nat, j: nat, sent: bool)
    requires p <= q <= r <= |log| && j < |At(log, p).outbox| && Tried(log[..q], p, j, sent)
    ensures j < |At(log, r).outbox|
    ensures At(log, r).outbox[j].status == Pending ==>
              !sent && At(log, r).outbox[j].attempts > At(log, p).outbox[j].attempts
  {
    var e := if sent then CompleteOutbox(j) else FailOutbox(j);
    var i: nat :| AppliedAt(log[..q], i, e) && p <= i;
    AtPrefix(log[..q], log, i);
    AtExtends(log, p, i);
    AtNext(log, i);
    AtExtends(log, i + 1, r);
    hide At;
    AppliedToRecord(At(log, p), At(log, i), e, At(log, r), j, sent);
  }

  lemma AppliedToRecord(s: State, t: State, e: Event, u: State, j: nat, sent: bool)
    requires Extends(s, t) && j < |s.outbox| && e == (if sent then CompleteOutbox(j) else FailOutbox(j))
    requires Enabled(t, e) && Extends(Step(t, e), u)
    ensures j < |u.outbox|
    ensures u.outbox[j].status == Pending ==> !sent && u.outbox[j].attempts > s.outbox[j].attempts
  {
  }

  lemma {:induction false} LooksAscend(log: seq<Event>, runs: Drains,
                                       i: nat, j: nat)
    requires DrainRuns(log, runs) && i <= j <= |runs.qs|
    ensures runs.ps[i] <= runs.ps[j] <= |log|
    decreases j - i
  {
    hide DrainRun;
    if i < j {
      LooksAscend(log, runs, i, j - 1);
      DrainBounds(log, runs.ps[j - 1], runs.qs[j - 1], runs.kss[j - 1], runs.sents[j - 1]);
    }
    if j < |runs.qs| {
      DrainBounds(log, runs.ps[j], runs.qs[j], runs.kss[j], runs.sents[j]);
    }
  }

  lemma DrainBounds(log: seq<Event>, p: nat, q: nat, ks: seq<nat>, sent: seq<bool>)
    requires DrainRun(log, p, q, ks, sent)
    ensures p <= q <= |log|
  {
  }

  /** A record of rank below 100 that is still eligible at the next look has used an attempt, and
    * the send failed. */
  lemma FirstAreTried(log: seq<Event>, p: nat, q: nat, r: nat, ks: seq<nat>, sent: seq<bool>, j: nat)
    requires DrainRun(log, p, q, ks, sent) && q <= r <= |log|
    requires j < |At(log, p).outbox| && IsEligible(At(log, p), j) && |EligibleUpTo(At(log, p), j)| < SELECTION_LIMIT
    ensures j < |At(log, r).outbox|
    ensures IsEligible(At(log, r), j) ==> false in sent && At(log, r).outbox[j].attempts > At(log, p).outbox[j].attempts
  {
    hide At, EligibleUpTo, Tried, DrainSelection;
    RankSelects(At(log, p), j);
    var i :| 0 <= i < |ks| && ks[i] == j;
    assert Tried(log[..q], p, ks[i], sent[i]);
    TriedUsesAttempt(log, p, q, r, j, sent[i]);
  }

  lemma OldRecords(log: seq<Event>, runs: Drains, i: nat, j: nat)
    requires NoOldArrivals(log, runs) && 0 < i < |runs.ps| && j < |At(log, runs.ps[0]).outbox|
    ensures j < |At(log, runs.ps[i - 1]).outbox| && j < |At(log, runs.ps[i]).outbox|
    ensures IsEligible(At(log, runs.ps[i]), j) ==> IsEligible(At(log, runs.ps[i - 1]), j)
    ensures |EligibleUpTo(At(log, runs.ps[i]), j)| <= |EligibleUpTo(At(log, runs.ps[i - 1]), j)|
  {
    var n := |At(log, runs.ps[0]).outbox|;
    assert NoneReturns(At(log, runs.ps[i - 1]), At(log, runs.ps[i]), n);
    hide At, IsEligible;
    RankShrinks(At(log, runs.ps[i - 1]), At(log, runs.ps[i]), n, j);
  }

  /** Eligible records of the first look that are eligible at look i. */
  ghost function StillEligible(log: seq<Event>, runs: Drains, i: nat): seq<nat>
    requires NoOldArrivals(log, runs) && i < |runs.ps|
  {
    var s, n := At(log, runs.ps[i]), |At(log, runs.ps[0]).outbox|;
    if n <= |s.outbox| then EligibleUpTo(s, n) else []
  }

  lemma OutboxGrows(log: seq<Event>, runs: Drains, i: nat)
    requires DrainRuns(log, runs) && i <= |runs.qs| && runs.ps[0] <= runs.ps[i] <= |log|
    ensures |At(log, runs.ps[0]).outbox| <= |At(log, runs.ps[i]).outbox|
  {
    AtExtends(log, runs.ps[0], runs.ps[i]);
    hide At;
  }

  /** A record of rank below 100 cannot stay eligible over three drains: it would have used three attempts. */
  lemma ThreeTries(log: seq<Event>, runs: Drains, i: nat, j: nat)
    requires DrainRuns(log, runs) && NoOldArrivals(log, runs) && i + 3 <= |runs.qs|
    requires j < |At(log, runs.ps[0]).outbox| <= |At(log, runs.ps[i]).outbox|
    requires IsEligible(At(log, runs.ps[i]), j) && |EligibleUpTo(At(log, runs.ps[i]), j)| < SELECTION_LIMIT
    ensures j < |At(log, runs.ps[i + 3]).outbox| && !IsEligible(At(log, runs.ps[i + 3]), j)
  {
    hide At, EligibleUpTo, Inv, DrainRun, NoOldArrivals;
    LooksAscend(log, runs, i + 3, i + 3);
    LooksAscend(log, runs, i + 2, i + 2);
    LooksAscend(log, runs, i + 1, i + 1);
    OldRecords(log, runs, i + 1, j);
    OldRecords(log, runs, i + 2, j);
    OldRecords(log, runs, i + 3, j);
    if IsEligible(At(log, runs.ps[i + 3]), j) {
      FirstAreTried(log, runs.ps[i], runs.qs[i], runs.ps[i + 1], runs.kss[i], runs.sents[i], j);
      FirstAreTried(log, runs.ps[i + 1], runs.qs[i + 1], runs.ps[i + 2], runs.kss[i + 1], runs.sents[i + 1], j);
      FirstAreTried(log, runs.ps[i + 2], runs.qs[i + 2], runs.ps[i + 3], runs.kss[i + 2], runs.sents[i + 2], j);
      AtIsSafe(log, runs.ps[i + 3]);
      PendingHasAttempts(At(log, runs.ps[i + 3]), j);
      assert false;
    }
  }

  lemma PendingHasAttempts(s: State, j: nat)
    requires Inv(s) && j < |s.outbox| && IsEligible(s, j)
    ensures s.outbox[j].attempts < OUTBOX_MAX_ATTEMPTS
  {
  }

  lemma {:induction false} NoneReturnsLater(log: seq<Event>, runs: Drains, i: nat, k: nat)
    requires NoOldArrivals(log, runs) && i <= k < |runs.ps|
    requires |At(log, runs.ps[0]).outbox| <= |At(log, runs.ps[i]).outbox|
    ensures NoneReturns(At(log, runs.ps[i]), At(log, runs.ps[k]), |At(log, runs.ps[0]).outbox|)
    decreases k
  {
    if i < k {
      NoneReturnsLater(log, runs, i, k - 1);
      assert NoneReturns(At(log, runs.ps[k - 1]), At(log, runs.ps[k]), |At(log, runs.ps[0]).outbox|);
    }
  }

  /** Any three drains clear the first 100 eligible records. */
  lemma ThreeDrainsClearABatch(log: seq<Event>, runs: Drains, i: nat)
    requires DrainRuns(log, runs) && NoOldArrivals(log, runs) && i + 3 <= |runs.qs|
    requires |At(log, runs.ps[0]).outbox| <= |At(log, runs.ps[i]).outbox|
    ensures |StillEligible(log, runs, i + 3)| <= Max(0, |StillEligible(log, runs, i)| - SELECTION_LIMIT)
  {
    hide At, EligibleUpTo, IsEligible, DrainRun, NoOldArrivals;
    LooksAscend(log, runs, 0, 0);
    LooksAscend(log, runs, i, i + 3);
    var s, t, n := At(log, runs.ps[i]), At(log, runs.ps[i + 3]), |At(log, runs.ps[0]).outbox|;
    NoneReturnsLater(log, runs, i, i + 3);
    forall j | 0 <= j < n && IsEligible(s, j) && |EligibleUpTo(s, j)| < SELECTION_LIMIT ensures !IsEligible(t, j) {
      ThreeTries(log, runs, i, j);
    }
    BatchGone(s, t, n, n);
  }

  lemma {:induction false} BatchesClear(log: seq<Event>, runs: Drains, q: nat)
    requires DrainRuns(log, runs) && NoOldArrivals(log, runs) && 3 * q <= |runs.qs|
    ensures |StillEligible(log, runs, 3 * q)| <= Max(0, |StillEligible(log, runs, 0)| - q * SELECTION_LIMIT)
  {
    hide At, DrainRuns, NoOldArrivals, StillEligible;
    if q > 0 {
      BatchesClear(log, runs, q - 1);
      RunCount(log, runs);
      LooksAscend(log, runs, 0, 3 * (q - 1));
      OutboxGrows(log, runs, 3 * (q - 1));
      ThreeDrainsClearABatch(log, runs, 3 * (q - 1));
    }
  }

  lemma RunCount(log: seq<Event>, runs: Drains)
    requires DrainRuns(log, runs)
    ensures |runs.ps| == |runs.qs| + 1 && |runs.kss| == |runs.sents| == |runs.qs|
  {
  }

  lemma {:induction false} NoneLeft(log: seq<Event>, runs: Drains, i: nat, k: nat, j: nat)
    requires DrainRuns(log, runs) && NoOldArrivals(log, runs) && i <= k <= |runs.qs|
    requires StillEligible(log, runs, i) == [] && j < |At(log, runs.ps[0]).outbox|
    ensures j < |At(log, runs.ps[k]).outbox| && !IsEligible(At(log, runs.ps[k]), j)
  {
    hide At, IsEligible, EligibleUpTo, NoOldArrivals, DrainRun;
    LooksAscend(log, runs, 0, i);
    LooksAscend(log, runs, 0, k);
    OutboxGrows(log, runs, i);
    OutboxGrows(log, runs, k);
    NoneReturnsLater(log, runs, i, k);
    NoneListed(At(log, runs.ps[i]), |At(log, runs.ps[0]).outbox|, j);
  }

  lemma {:induction false} NoneListed(s: State, n: nat, j: nat)
    requires j < n <= |s.outbox| && EligibleUpTo(s, n) == []
    ensures !IsEligible(s, j)
  {
    if j < n - 1 {
      NoneListed(s, n - 1, j);
    }
  }

  /** Completed means that some event completed it. */
  lemma {:induction false} CompletedByEvent(log: seq<Event>, p: nat, q: nat, j: nat)
    requires p <= q <= |log| && j < |At(log, p).outbox| && At(log, p).outbox[j].status == Pending
    requires j < |At(log, q).outbox| && At(log, q).outbox[j].status == Completed
    ensures exists i :: p <= i < q && log[i] == CompleteOutbox(j)
    decreases q - p
  {
    AtExtends(log, p, q - 1);
    AtNext(log, q - 1);
    hide At, Message, KeyTaken;
    if At(log, q - 1).outbox[j].status == Completed {
      CompletedByEvent(log, p, q - 1, j);
    } else {
      assert log[q - 1] == CompleteOutbox(j);
    }
  }

  /** With n eligible records and none of the old ones becoming eligible again, every one of them
    * stops being eligible within three times n/100 completed drains, rounded up, whatever is sent,
    * whatever fails, and whatever other processes do.  It is then completed or given up, unless
    * the status of its row changed; and given up if nothing ever completed it. */
  lemma OutboxDrains(log: seq<Event>, runs: Drains, q: nat, j: nat)
    requires DrainRuns(log, runs) && NoOldArrivals(log, runs) && 3 * q <= |runs.qs|
    requires |DrainQuery(At(log, runs.ps[0]))| <= q * SELECTION_LIMIT
    requires j < |At(log, runs.ps[0]).outbox| && IsEligible(At(log, runs.ps[0]), j)
    ensures j < |At(log, runs.ps[|runs.qs|]).outbox|
    ensures
      var last := At(log, runs.ps[|runs.qs|]);
      var record := last.outbox[j];
      && !IsEligible(last, j)
      && (AwaitsMessage(last, record.ingestId) ==> record.status == Completed || record.status == GaveUp)
      && (record.status != Pending && (forall i | runs.ps[0] <= i < runs.ps[|runs.qs|] :: log[i] != CompleteOutbox(j))
          ==> record.status == GaveUp)
  {
    hide At, EligibleUpTo, NoOldArrivals, DrainRun, Inv;
    RunCount(log, runs);
    BatchesClear(log, runs, q);
    LooksAscend(log, runs, 0, |runs.qs|);
    NoneLeft(log, runs, 3 * q, |runs.qs|, j);
    AtIsSafe(log, runs.ps[|runs.qs|]);
    RowOfRecord(At(log, runs.ps[|runs.qs|]), j);
    if At(log, runs.ps[|runs.qs|]).outbox[j].status == Completed {
      CompletedByEvent(log, runs.ps[0], runs.ps[|runs.qs|], j);
    }
  }

  /** All records the drain query matches, without its limit. */
  ghost function DrainQuery(s: State): seq<nat> {
    EligibleUpTo(s, |s.outbox|)
  }

  ghost predicate AwaitsMessage(s: State, id: nat) {
    id in s.rows && (s.rows[id].status == Validated || s.rows[id].status == ReplayPending)
  }

  lemma RowOfRecord(s: State, j: nat)
    requires Inv(s) && j < |s.outbox|
    ensures s.outbox[j].ingestId in s.rows
  {
  }

  lemma SentBatch(log: seq<Event>, runs: Drains, i: nat)
    requires DrainRuns(log, runs) && NoOldArrivals(log, runs) && i < |runs.qs| && false !in runs.sents[i]
    requires |At(log, runs.ps[0]).outbox| <= |At(log, runs.ps[i]).outbox|
    ensures |StillEligible(log, runs, i + 1)| <= Max(0, |StillEligible(log, runs, i)| - SELECTION_LIMIT)
  {
    hide At, EligibleUpTo, IsEligible, DrainRun, NoOldArrivals;
    LooksAscend(log, runs, 0, 0);
    LooksAscend(log, runs, i, i + 1);
    var s, t, n := At(log, runs.ps[i]), At(log, runs.ps[i + 1]), |At(log, runs.ps[0]).outbox|;
    NoneReturnsLater(log, runs, i, i + 1);
    forall j | 0 <= j < n && IsEligible(s, j) && |EligibleUpTo(s, j)| < SELECTION_LIMIT ensures !IsEligible(t, j) {
      FirstAreTried(log, runs.ps[i], runs.qs[i], runs.ps[i + 1], runs.kss[i], runs.sents[i], j);
    }
    BatchGone(s, t, n, n);
  }

  lemma {:induction false} SentBatches(log: seq<Event>, runs: Drains, k: nat)
    requires DrainRuns(log, runs) && NoOldArrivals(log, runs) && k <= |runs.qs|
    requires forall i | 0 <= i < |runs.qs| :: false !in runs.sents[i]
    ensures |StillEligible(log, runs, k)| <= Max(0, |StillEligible(log, runs, 0)| - k * SELECTION_LIMIT)
  {
    hide At, DrainRun, NoOldArrivals, StillEligible;
    if k > 0 {
      SentBatches(log, runs, k - 1);
      LooksAscend(log, runs, 0, k - 1);
      OutboxGrows(log, runs, k - 1);
      SentBatch(log, runs, k - 1);
    }
  }

  /** If every send succeeds, n/100 drains, rounded up, are enough, and every record that a drain
    * selected was completed. */
  lemma OutboxIsSent(log: seq<Event>, runs: Drains, j: nat)
    requires DrainRuns(log, runs) && NoOldArrivals(log, runs)
    requires forall i | 0 <= i < |runs.qs| :: false !in runs.sents[i]
    requires |DrainQuery(At(log, runs.ps[0]))| <= |runs.qs| * SELECTION_LIMIT
    requires j < |At(log, runs.ps[0]).outbox| && IsEligible(At(log, runs.ps[0]), j)
    ensures j < |At(log, runs.ps[|runs.qs|]).outbox| && !IsEligible(At(log, runs.ps[|runs.qs|]), j)
    ensures forall d | 0 <= d < |runs.kss| && j in runs.kss[d] ::
              d < |runs.ps| && Happened(log[..runs.ps[|runs.qs|]], runs.ps[d], CompleteOutbox(j))
  {
    RunCount(log, runs);
    hide At, EligibleUpTo, NoOldArrivals, DrainRun, IsEligible, Happened;
    forall d | 0 <= d < |runs.kss| && j in runs.kss[d]
      ensures Happened(log[..runs.ps[|runs.qs|]], runs.ps[d], CompleteOutbox(j))
    {
      LooksAscend(log, runs, d + 1, |runs.qs|);
      SelectedIsSent(log, runs.ps[d], runs.qs[d], runs.kss[d], runs.sents[d], j, runs.ps[|runs.qs|]);
    }
    SentBatches(log, runs, |runs.qs|);
    LooksAscend(log, runs, 0, |runs.qs|);
    NoneLeft(log, runs, |runs.qs|, |runs.qs|, j);
  }

  /** Only these events can take record j, of the given ingest, out of the drain query. */
  predicate Disturbs(e: Event, j: nat, id: nat) {
    Touches(e, id) || e == CompleteOutbox(j) || e == FailOutbox(j)
  }

  /** A drain that queried at position i or before has selected record j. */
  ghost predicate DrainedBy(runs: Drains, j: nat, i: nat) {
    exists d :: 0 <= d < |runs.kss| && d < |runs.ps| && runs.ps[d] <= i && j in runs.kss[d]
  }

  lemma {:induction false} DisturbedByEvent(log: seq<Event>, p: nat, q: nat, j: nat) returns (i: nat)
    requires p <= q <= |log| && j < |At(log, p).outbox| && IsEligible(At(log, p), j)
    requires j < |At(log, q).outbox| && !IsEligible(At(log, q), j)
    ensures p <= i < q && Disturbs(log[i], j, At(log, p).outbox[j].ingestId)
    decreases q - p
  {
    hide At, Extends, IsEligible, Step;
    AtExtends(log, p, q - 1);
    AtNext(log, q - 1);
    RecordIsKept(At(log, p), At(log, q - 1), j);
    if IsEligible(At(log, q - 1), j) {
      EligibleUnlessDisturbed(At(log, q - 1), log[q - 1], j);
      i := q - 1;
    } else {
      i := DisturbedByEvent(log, p, q - 1, j);
    }
  }

  lemma RecordIsKept(s: State, t: State, j: nat)
    requires Extends(s, t) && j < |s.outbox|
    ensures j < |t.outbox| && t.outbox[j].ingestId == s.outbox[j].ingestId
  {
  }

  lemma EligibleUnlessDisturbed(s: State, e: Event, j: nat)
    requires j < |s.outbox| && IsEligible(s, j)
    ensures j < |Step(s, e).outbox| && (IsEligible(Step(s, e), j) || Disturbs(e, j, s.outbox[j].ingestId))
  {
    hide Message, KeyTaken, Accepted, PendingFrom;
  }

  /** If every send succeeds, and no other process touches a record or its row before a drain has
    * selected it, then each of the n records is selected within n/100 drains, rounded up, its
    * message is accepted, and it is completed; it stays so unless a process fails it afterwards. */
  lemma OutboxIsCompleted(log: seq<Event>, runs: Drains, j: nat)
    requires DrainRuns(log, runs) && NoOldArrivals(log, runs)
    requires forall i | 0 <= i < |runs.qs| :: false !in runs.sents[i]
    requires |DrainQuery(At(log, runs.ps[0]))| <= |runs.qs| * SELECTION_LIMIT
    requires j < |At(log, runs.ps[0]).outbox| && IsEligible(At(log, runs.ps[0]), j)
    requires forall i | runs.ps[0] <= i < runs.ps[|runs.qs|]
                        && Disturbs(log[i], j, At(log, runs.ps[0]).outbox[j].ingestId) :: DrainedBy(runs, j, i)
    ensures exists d :: 0 <= d < |runs.kss| && j in runs.kss[d]
    ensures runs.ps[0] <= runs.ps[|runs.qs|] <= |log| && j < |At(log, runs.ps[|runs.qs|]).outbox|
    ensures Happened(log[..runs.ps[|runs.qs|]], runs.ps[0], CompleteOutbox(j))
    ensures Accepted(At(log, runs.ps[|runs.qs|]), At(log, runs.ps[0]).outbox[j].ingestId)
    ensures (forall i | runs.ps[0] <= i < runs.ps[|runs.qs|] :: log[i] != FailOutbox(j))
            ==> At(log, runs.ps[|runs.qs|]).outbox[j].status == Completed
  {
    OutboxIsSent(log, runs, j);
    RunCount(log, runs);
    var first, last := runs.ps[0], runs.ps[|runs.qs|];
    LooksAscend(log, runs, 0, |runs.qs|);
    hide At, NoOldArrivals, DrainRun, IsEligible, EligibleUpTo, Happened, Accepted, Disturbs;
    var i := DisturbedByEvent(log, first, last, j);
    var d :| 0 <= d < |runs.kss| && d < |runs.ps| && runs.ps[d] <= i && j in runs.kss[d];
    LooksAscend(log, runs, 0, d);
    HappenedStays(log[..last], log[..last], runs.ps[d], first, CompleteOutbox(j));
    CompletedStays(log, first, last, j);
  }

  lemma SelectedIsSent(log: seq<Event>, p: nat, q: nat, ks: seq<nat>, sent: seq<bool>, j: nat, last: nat)
    requires DrainRun(log, p, q, ks, sent) && false !in sent && j in ks && q <= last <= |log|
    ensures Happened(log[..last], p, CompleteOutbox(j))
  {
    var i :| 0 <= i < |ks| && ks[i] == j;
    assert Tried(log[..q], p, ks[i], sent[i]) && sent[i] in sent;
    assert log[..q] <= log[..last];
    HappenedStays(log[..q], log[..last], p, p, CompleteOutbox(j));
  }

  lemma CompletedStays(log: seq<Event>, first: nat, last: nat, j: nat)
    requires first <= last <= |log| && j < |At(log, first).outbox|
    requires Happened(log[..last], first, CompleteOutbox(j))
    ensures j < |At(log, last).outbox|
    ensures Accepted(At(log, last), At(log, first).outbox[j].ingestId)
    ensures (forall i | first <= i < last :: log[i] != FailOutbox(j)) ==> At(log, last).outbox[j].status == Completed
  {
    hide At, Extends, Step, Enabled, Accepted;
    var i: nat :| AppliedAt(log[..last], i, CompleteOutbox(j)) && first <= i;
    AtPrefix(log[..last], log, i);
    AtExtends(log, first, i);
    AtNext(log, i);
    AtExtends(log, i + 1, last);
    RecordIsKept(At(log, first), At(log, i), j);
    CompletedNow(At(log, i), j);
    AcceptedGrows(At(log, i + 1), At(log, last), At(log, first).outbox[j].ingestId);
    RecordIsKept(At(log, i + 1), At(log, last), j);
    if forall k | first <= k < last :: log[k] != FailOutbox(j) {
      NotFailedAgain(log, i + 1, last, j);
    }
  }

  lemma CompletedNow(s: State, j: nat)
    requires Enabled(s, CompleteOutbox(j))
    ensures j < |s.outbox| && j < |Step(s, CompleteOutbox(j)).outbox|
    ensures Step(s, CompleteOutbox(j)).outbox[j].status == Completed
    ensures Accepted(Step(s, CompleteOutbox(j)), s.outbox[j].ingestId)
  {
  }

  lemma {:induction false} NotFailedAgain(log: seq<Event>, p: nat, q: nat, j: nat)
    requires p <= q <= |log| && j < |At(log, p).outbox| && At(log, p).outbox[j].status == Completed
    requires forall i | p <= i < q :: log[i] != FailOutbox(j)
    ensures j < |At(log, q).outbox| && At(log, q).outbox[j].status == Completed
    decreases q - p
  {
    if p < q {
      hide At, Step;
      NotFailedAgain(log, p, q - 1, j);
      AtNext(log, q - 1);
      CompletedUnlessFailed(At(log, q - 1), log[q - 1], j);
    }
  }

  lemma CompletedUnlessFailed(s: State, e: Event, j: nat)
    requires j < |s.outbox| && s.outbox[j].status == Completed && e != FailOutbox(j)
    ensures j < |Step(s, e).outbox| && Step(s, e).outbox[j].status == Completed
  {
    hide Message, KeyTaken, Accepted, PendingFrom;
  }

  // ---------------------------------------------------------- draining beside returning records

  /** The attempts left to a record. */
  function RecordLeft(r: OutboxRecord): nat {
    if r.status == Pending then SaturatingSub(OUTBOX_MAX_ATTEMPTS, r.attempts) else 0
  }

  /** The attempts left to the records below index n. */
  function AttemptsLeft(s: State, n: nat): nat
    requires n <= |s.outbox|
  {
    if n == 0 then 0 else AttemptsLeft(s, n - 1) + RecordLeft(s.outbox[n - 1])
  }

  function PendingBelow(s: State, n: nat): nat
    requires n <= |s.outbox|
  {
    if n == 0 then 0 else PendingBelow(s, n - 1) + if s.outbox[n - 1].status == Pending then 1 else 0
  }

  lemma {:induction false} ThreeEach(s: State, n: nat)
    requires n <= |s.outbox|
    ensures AttemptsLeft(s, n) <= OUTBOX_MAX_ATTEMPTS * PendingBelow(s, n)
  {
    if n > 0 {
      ThreeEach(s, n - 1);
    }
  }

  /** The first 100 eligible records lose an attempt each, and no record gains one. */
  lemma {:induction false} FewerLeft(s: State, t: State, n: nat)
    requires Extends(s, t) && n <= |s.outbox|
    requires forall i | 0 <= i < n && IsEligible(s, i) && |EligibleUpTo(s, i)| < SELECTION_LIMIT ::
               RecordLeft(t.outbox[i]) < RecordLeft(s.outbox[i])
    ensures AttemptsLeft(t, n) + Min(SELECTION_LIMIT, |EligibleUpTo(s, n)|) <= AttemptsLeft(s, n)
  {
    if n > 0 {
      FewerLeft(s, t, n - 1);
    }
  }

  /** A measure of how long record j may have to wait: 100 for each attempt of its own, and one for
    * each attempt of a record before it. */
  function Delay(s: State, j: nat): nat
    requires j < |s.outbox|
  {
    AttemptsLeft(s, j) + SELECTION_LIMIT * RecordLeft(s.outbox[j])
  }

  lemma FirstLoseAttempt(log: seq<Event>, p: nat, q: nat, r: nat, ks: seq<nat>, sent: seq<bool>, j: nat)
    requires DrainRun(log, p, q, ks, sent) && q <= r <= |log|
    requires j < |At(log, p).outbox| && IsEligible(At(log, p), j) && |EligibleUpTo(At(log, p), j)| < SELECTION_LIMIT
    ensures j < |At(log, r).outbox| && RecordLeft(At(log, r).outbox[j]) < RecordLeft(At(log, p).outbox[j])
  {
    hide At, EligibleUpTo, Tried, DrainSelection, Inv;
    RankSelects(At(log, p), j);
    var i :| 0 <= i < |ks| && ks[i] == j;
    assert Tried(log[..q], p, ks[i], sent[i]);
    TriedUsesAttempt(log, p, q, r, j, sent[i]);
    AtIsSafe(log, p);
    PendingHasAttempts(At(log, p), j);
  }

  lemma DelayShrinks(log: seq<Event>, p: nat, q: nat, r: nat, ks: seq<nat>, sent: seq<bool>, j: nat)
    requires DrainRun(log, p, q, ks, sent) && q <= r <= |log|
    requires j < |At(log, p).outbox| && IsEligible(At(log, p), j)
    ensures j < |At(log, r).outbox| && Delay(At(log, r), j) + SELECTION_LIMIT <= Delay(At(log, p), j)
  {
    DrainBounds(log, p, q, ks, sent);
    AtExtends(log, p, r);
    hide At, EligibleUpTo, IsEligible, DrainRun, AttemptsLeft, Extends;
    var s, t := At(log, p), At(log, r);
    RecordsGrow(s, t, j);
    forall i | 0 <= i < j && IsEligible(s, i) && |EligibleUpTo(s, i)| < SELECTION_LIMIT
      ensures i < |t.outbox| && RecordLeft(t.outbox[i]) < RecordLeft(s.outbox[i])
    {
      FirstLoseAttempt(log, p, q, r, ks, sent, i);
    }
    FewerLeft(s, t, j);
    if |EligibleUpTo(s, j)| < SELECTION_LIMIT {
      FirstLoseAttempt(log, p, q, r, ks, sent, j);
    }
  }

  lemma RecordsGrow(s: State, t: State, j: nat)
    requires Extends(s, t) && j < |s.outbox|
    ensures |s.outbox| <= |t.outbox| && RecordLeft(t.outbox[j]) <= RecordLeft(s.outbox[j])
  {
  }

  ghost predicate EligibleAtLook(log: seq<Event>, runs: Drains, j: nat, i: nat) {
    && i < |runs.ps| && runs.ps[i] <= |log|
    && j < |At(log, runs.ps[i]).outbox| && IsEligible(At(log, runs.ps[i]), j)
  }

  lemma {:induction false} DelayShrinksOverDrains(log: seq<Event>, runs: Drains, j: nat, k: nat)
    requires DrainRuns(log, runs) && k <= |runs.qs|
    requires runs.ps[0] <= |log| && j < |At(log, runs.ps[0]).outbox|
    requires forall i | 0 <= i < k :: EligibleAtLook(log, runs, j, i)
    ensures runs.ps[k] <= |log| && j < |At(log, runs.ps[k]).outbox|
    ensures Delay(At(log, runs.ps[k]), j) + k * SELECTION_LIMIT <= Delay(At(log, runs.ps[0]), j)
  {
    hide At, DrainRun, Delay, IsEligible;
    LooksAscend(log, runs, 0, k);
    if k > 0 {
      DelayShrinksOverDrains(log, runs, j, k - 1);
      assert EligibleAtLook(log, runs, j, k - 1);
      DelayShrinks(log, runs.ps[k - 1], runs.qs[k - 1], runs.ps[k], runs.kss[k - 1], runs.sents[k - 1], j);
    }
  }

  /** With no assumption at all about other processes, which may put old records in again at any
    * time: a record is eligible at every look of fewer than 3 + 3m/100 drains, where m
    * is the number of pending records before it. */
  lemma EligibleForFewDrains(log: seq<Event>, runs: Drains, j: nat)
    requires DrainRuns(log, runs)
    requires forall i | 0 <= i < |runs.ps| :: EligibleAtLook(log, runs, j, i)
    ensures EligibleAtLook(log, runs, j, 0)
    ensures |runs.qs| * SELECTION_LIMIT
            < OUTBOX_MAX_ATTEMPTS * (PendingBelow(At(log, runs.ps[0]), j) + SELECTION_LIMIT)
  {
    hide At, DrainRun, IsEligible, Inv;
    RunCount(log, runs);
    var last := |runs.qs|;
    assert EligibleAtLook(log, runs, j, 0) && EligibleAtLook(log, runs, j, last);
    DelayShrinksOverDrains(log, runs, j, last);
    ThreeEach(At(log, runs.ps[0]), j);
    AtIsSafe(log, runs.ps[last]);
    PendingHasAttempts(At(log, runs.ps[last]), j);
    StillPending(At(log, runs.ps[last]), j);
  }

  lemma StillPending(s: State, j: nat)
    requires j < |s.outbox| && IsEligible(s, j)
    ensures s.outbox[j].status == Pending
  {
  }
}
