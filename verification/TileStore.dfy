/** Published tile sets: the blobs, the tile_sets and processing_log tables and the latest pointer
  * (backend/processing-svc/src/db.rs, backend/processing-svc/src/publish.rs,
  * backend/processing-svc/src/retention.rs).
  *
  * Publishers and cleanup runs work side by side, each statement or blob request on its own, and
  * any of them may stop in between.  A run is any interleaving of events.  Enabled says what a
  * process must know before it issues one; the methods that publish and clean up prove that the
  * code knows it. */
module TileStore {
  import opened Wrappers
  import opened SlippyTiles

  const DAY: nat := 86_400

  /** A tile set id stands for one processing attempt of one ingest. */
  datatype Id = Id(ingest: nat, attempt: nat)

  datatype Manifest = Manifest(version: string, sha256: string, tiles: seq<TileCoord>)
  datatype Blob = TileBlob(id: Id, coord: TileCoord) | ManifestBlob(id: Id)
  datatype Row = Row(version: string, createdAt: nat, latest: bool, deleted: bool)
  datatype LatestPointer = LatestPointer(id: Id, sha256: string)
  datatype LogStatus = Processing | Processed | Rejected | Failed | Deadlettered
  datatype LogRow = LogRow(attempts: nat, status: LogStatus, tileSetId: Option<Id>)

  /** startedBy, generated and targeted record the past: which process started each attempt, the
    * manifest of each attempt that rendered its tiles, and every tile set a cleanup run has ever
    * selected for deletion. */
  datatype State = State(
    blobs: set<Blob>,
    rows: map<Id, Row>,
    pointer: Option<LatestPointer>,
    processing: map<nat, LogRow>,
    startedBy: map<Id, nat>,
    generated: map<Id, Manifest>,
    targeted: set<Id>,
    now: nat,
    retentionDays: nat,
    protectedPrior: nat)

  function Empty(retentionDays: nat, protectedPrior: nat): State {
    State({}, map[], None, map[], map[], map[], {}, 0, retentionDays, protectedPrior)
  }

  datatype Event =
    | Tick(seconds: nat)
    | StartAttempt(ingest: nat, process: nat)
    | Generate(id: Id, manifest: Manifest)
    | UploadTile(id: Id, coord: TileCoord)
    | UploadManifest(id: Id)
    | InsertRow(id: Id)
    | Promote(id: Id)
    | UploadPointer(id: Id)
    | MarkProcessed(id: Id)
    | MarkUnprocessed(ingest: nat, status: LogStatus)
    | Target(ids: set<Id>)
    | DeleteBlob(blob: Blob)
    | MarkDeleted(id: Id)

  // ------------------------------------------------------------------------- retention ranking

  predicate IdBefore(a: Id, b: Id) {
    a.ingest < b.ingest || (a.ingest == b.ingest && a.attempt < b.attempt)
  }

  /** ORDER BY created_at, id. */
  predicate Older(rows: map<Id, Row>, a: Id, b: Id)
    requires a in rows && b in rows
  {
    rows[a].createdAt < rows[b].createdAt || (rows[a].createdAt == rows[b].createdAt && IdBefore(a, b))
  }

  /** The sets that rank before id among the live sets of its classification version. */
  function NewerLive(rows: map<Id, Row>, id: Id): set<Id>
    requires id in rows
  {
    set j | j in rows && !rows[j].deleted && rows[j].version == rows[id].version && Older(rows, id, j)
  }

  predicate IsCandidate(s: State, id: Id) {
    && id in s.rows && !s.rows[id].deleted && !s.rows[id].latest
    && s.rows[id].createdAt + s.retentionDays * DAY < s.now
    && |NewerLive(s.rows, id)| + 1 > s.protectedPrior + 1
  }

  // --------------------------------------------------------------------------------- statements

  predicate TilesStored(s: State, id: Id, tiles: seq<TileCoord>) {
    forall i | 0 <= i < |tiles| :: TileBlob(id, tiles[i]) in s.blobs
  }

  predicate Enabled(s: State, e: Event) {
    match e
    case Tick(_) => true
    case StartAttempt(_, _) => true
    case Generate(id, _) => id in s.startedBy && id !in s.generated
    case UploadTile(id, c) => id in s.generated && c in s.generated[id].tiles
    case UploadManifest(id) => id in s.generated
    case InsertRow(id) =>
      && id in s.generated
      && (id in s.rows || (ManifestBlob(id) in s.blobs && TilesStored(s, id, s.generated[id].tiles)))
    case Promote(id) => id in s.rows && s.now < s.rows[id].createdAt + DAY
    case UploadPointer(id) => id in s.rows && id in s.generated
    case MarkProcessed(id) => id in s.rows
    case MarkUnprocessed(_, status) => status != Processed && status != Processing
    case Target(ids) => forall id | id in ids :: IsCandidate(s, id)
    case DeleteBlob(b) => b.id in s.targeted && b.id in s.rows
    case MarkDeleted(id) => id in s.targeted
  }

  function Demote(rows: map<Id, Row>): map<Id, Row> {
    map id | id in rows :: rows[id].(latest := false)
  }

  function Effect(s: State, e: Event): State
    requires Enabled(s, e)
  {
    match e
    case Tick(seconds) => s.(now := s.now + seconds)
    case StartAttempt(ingest, process) =>
      var before := if ingest in s.processing then s.processing[ingest] else LogRow(0, Processing, None);
      var attempt := before.attempts + 1;
      s.(processing := s.processing[ingest := LogRow(attempt, Processing, before.tileSetId)],
         startedBy := s.startedBy[Id(ingest, attempt) := process])
    case Generate(id, manifest) => s.(generated := s.generated[id := manifest])
    case UploadTile(id, c) => s.(blobs := s.blobs + {TileBlob(id, c)})
    case UploadManifest(id) => s.(blobs := s.blobs + {ManifestBlob(id)})
    case InsertRow(id) =>
      if id in s.rows then s
      else s.(rows := s.rows[id := Row(s.generated[id].version, s.now, false, false)])
    case Promote(id) =>
      var demoted := Demote(s.rows);
      s.(rows := demoted[id := demoted[id].(latest := true)])
    case UploadPointer(id) => s.(pointer := Some(LatestPointer(id, s.generated[id].sha256)))
    case MarkProcessed(id) =>
      if id.ingest !in s.processing then s
      else
        var processed := s.processing[id.ingest].(status := Processed, tileSetId := Some(id));
        s.(processing := s.processing[id.ingest := processed])
    case MarkUnprocessed(ingest, status) =>
      if ingest !in s.processing then s
      else s.(processing := s.processing[ingest := s.processing[ingest].(status := status)])
    case Target(ids) => s.(targeted := s.targeted + ids)
    case DeleteBlob(b) => s.(blobs := s.blobs - {b})
    case MarkDeleted(id) =>
      if id in s.rows && !s.rows[id].latest && !s.rows[id].deleted
      then s.(rows := s.rows[id := s.rows[id].(deleted := true)]) else s
  }

  function Step(s: State, e: Event): State {
    if Enabled(s, e) then Effect(s, e) else s
  }

  function Run(s: State, log: seq<Event>): State {
    if log == [] then s else Step(Run(s, log[..|log| - 1]), log[|log| - 1])
  }

  // ------------------------------------------------------------------------ what every run keeps

  /** A recorded tile set that no cleanup has selected has its manifest and all its tiles. */
  ghost predicate RecordedSetsAreStored(s: State) {
    forall id | id in s.rows && id !in s.targeted ::
      id in s.generated && ManifestBlob(id) in s.blobs && TilesStored(s, id, s.generated[id].tiles)
  }

  ghost predicate OneLatest(s: State) {
    forall i, j | i in s.rows && j in s.rows && s.rows[i].latest && s.rows[j].latest :: i == j
  }

  /** The latest pointer names a recorded set, with the hash of its manifest. */
  ghost predicate PointerIsRecorded(s: State) {
    s.pointer.Some? ==>
      && s.pointer.value.id in s.rows && s.pointer.value.id in s.generated
      && s.pointer.value.sha256 == s.generated[s.pointer.value.id].sha256
  }

  /** A processed log row names a recorded set of its own ingest. */
  ghost predicate ProcessedIsRecorded(s: State) {
    forall ingest | ingest in s.processing && s.processing[ingest].status == Processed ::
      && s.processing[ingest].tileSetId.Some?
      && s.processing[ingest].tileSetId.value in s.rows && s.processing[ingest].tileSetId.value.ingest == ingest
  }

  ghost predicate IdsAreAttempts(s: State) {
    && (forall id | id in s.startedBy ::
          id.ingest in s.processing && 1 <= id.attempt <= s.processing[id.ingest].attempts)
    && (forall id | id in s.generated :: id in s.startedBy)
    && (forall id | id in s.rows ::
          id in s.generated && s.rows[id].version == s.generated[id].version && s.rows[id].createdAt <= s.now)
  }

  ghost predicate TargetsAreOld(s: State) {
    && (forall id | id in s.targeted ::
          id in s.rows && s.rows[id].createdAt + s.retentionDays * DAY < s.now && !s.rows[id].latest)
    && (forall id | id in s.rows && s.rows[id].deleted :: id in s.targeted)
  }

  /** The newer sets of the same version that no cleanup has ever selected. */
  ghost function NewerSafe(s: State, id: Id): set<Id>
    requires id in s.rows
  {
    set j | j in s.rows && j !in s.targeted && s.rows[j].version == s.rows[id].version && Older(s.rows, id, j)
  }

  /** Every set ever selected has at least protectedPrior + 1 newer sets that were never selected. */
  ghost predicate RetentionIsSafe(s: State) {
    forall id | id in s.targeted :: id in s.rows && |NewerSafe(s, id)| >= s.protectedPrior + 1
  }

  ghost predicate Inv(s: State) {
    && RecordedSetsAreStored(s) && OneLatest(s) && PointerIsRecorded(s) && ProcessedIsRecorded(s)
    && IdsAreAttempts(s) && TargetsAreOld(s) && RetentionIsSafe(s)
  }

  lemma StepKeepsStored(s: State, e: Event)
    requires RecordedSetsAreStored(s) && IdsAreAttempts(s)
    ensures RecordedSetsAreStored(Step(s, e))
  {
    var t := Step(s, e);
    hide IsCandidate, NewerLive;
    forall id | id in t.rows && id !in t.targeted
      ensures id in t.generated && ManifestBlob(id) in t.blobs && TilesStored(t, id, t.generated[id].tiles)
    {
      if id in s.rows {
        StepKeepsBlobs(s, e, id);
        TilesStayStored(s, t, id, s.generated[id].tiles);
      }
    }
  }

  /** No event takes a blob from a set that no cleanup has selected. */
  lemma StepKeepsBlobs(s: State, e: Event, id: Id)
    requires IdsAreAttempts(s) && id in s.rows && id !in Step(s, e).targeted
    ensures
      var t := Step(s, e);
      && id !in s.targeted && id in s.generated && id in t.generated && t.generated[id] == s.generated[id]
      && forall b | b in s.blobs && b.id == id :: b in t.blobs
  {
    hide IsCandidate, NewerLive, TilesStored;
  }

  lemma TilesStayStored(s: State, t: State, id: Id, tiles: seq<TileCoord>)
    requires forall b | b in s.blobs && b.id == id :: b in t.blobs
    ensures TilesStored(s, id, tiles) ==> TilesStored(t, id, tiles)
  {
  }

  lemma StepKeepsLatest(s: State, e: Event)
    requires OneLatest(s)
    ensures OneLatest(Step(s, e))
  {
    hide IsCandidate, NewerLive, TilesStored;
  }

  lemma StepKeepsNames(s: State, e: Event)
    requires PointerIsRecorded(s) && ProcessedIsRecorded(s)
    ensures PointerIsRecorded(Step(s, e)) && ProcessedIsRecorded(Step(s, e))
  {
    hide IsCandidate, NewerLive, TilesStored;
  }

  lemma StepKeepsIds(s: State, e: Event)
    requires IdsAreAttempts(s)
    ensures IdsAreAttempts(Step(s, e))
  {
    hide IsCandidate, NewerLive, TilesStored;
  }

  lemma StepKeepsTargets(s: State, e: Event)
    requires TargetsAreOld(s) && IdsAreAttempts(s) && s.retentionDays >= 1
    ensures TargetsAreOld(Step(s, e))
  {
    hide NewerLive, TilesStored;
  }

  // ---------------------------------------------------------------------- retention is safe

  lemma OlderIsTransitive(rows: map<Id, Row>, a: Id, b: Id, c: Id)
    requires a in rows && b in rows && c in rows && Older(rows, a, b) && Older(rows, b, c)
    ensures Older(rows, a, c) && a != c
  {
  }

  lemma OlderIsTotal(rows: map<Id, Row>, a: Id, b: Id)
    requires a in rows && b in rows && a != b
    ensures Older(rows, a, b) || Older(rows, b, a)
  {
  }

  lemma {:induction false} Newest(rows: map<Id, Row>, ids: set<Id>) returns (z: Id)
    requires ids != {} && forall id | id in ids :: id in rows
    ensures z in ids && forall id | id in ids && id != z :: Older(rows, id, z)
    decreases |ids|
  {
    hide Older;
    var x :| x in ids;
    var others := ids - {x};
    assert ids == others + {x};
    if others == {} {
      z := x;
    } else {
      var y := Newest(rows, others);
      OlderIsTotal(rows, x, y);
      if Older(rows, y, x) {
        forall id | id in others && id != y ensures Older(rows, id, x) {
          OlderIsTransitive(rows, id, y, x);
        }
        z := x;
      } else {
        z := y;
      }
    }
  }

  /** The heart of the retention argument.  If every selected set, old or new, has at least k newer
    * live sets, then each of them has at least k newer live sets that are not selected: look at
    * the newest selected one among the sets newer than it. */
  lemma EnoughSafe(rows: map<Id, Row>, chosen: set<Id>, k: nat, x: Id) returns (safe: set<Id>)
    requires forall id | id in chosen :: id in rows && |NewerLive(rows, id)| >= k
    requires x in chosen
    ensures |safe| >= k && safe <= NewerLive(rows, x) && forall id | id in safe :: id !in chosen
  {
    var newer := NewerLive(rows, x);
    var bad := set id | id in newer && id in chosen;
    if bad == {} {
      safe := newer;
      forall id | id in safe ensures id !in chosen {
        assert id !in bad;
      }
    } else {
      var z := Newest(rows, bad);
      safe := NewerLive(rows, z);
      forall id | id in safe ensures id in newer && id !in chosen {
        OlderIsTransitive(rows, x, z, id);
        if id in chosen {
          assert id in bad && Older(rows, z, id);
          OlderIsTransitive(rows, id, z, id);
        }
      }
    }
  }

  lemma NewerLiveAreSafe(s: State, id: Id)
    requires TargetsAreOld(s) && id in s.rows
    ensures NewerSafe(s, id) <= NewerLive(s.rows, id)
    ensures |NewerSafe(s, id)| <= |NewerLive(s.rows, id)|
  {
    SubsetSize(NewerSafe(s, id), NewerLive(s.rows, id));
  }

  lemma TargetingIsSafe(s: State, ids: set<Id>)
    requires RetentionIsSafe(s) && TargetsAreOld(s) && Enabled(s, Target(ids))
    ensures RetentionIsSafe(Effect(s, Target(ids)))
  {
    var t, k := Effect(s, Target(ids)), s.protectedPrior + 1;
    forall id | id in t.targeted ensures id in s.rows && |NewerLive(s.rows, id)| >= k {
      if id in ids {
        assert IsCandidate(s, id);
      } else {
        NewerLiveAreSafe(s, id);
      }
    }
    forall id | id in t.targeted ensures id in t.rows && |NewerSafe(t, id)| >= k {
      var safe := EnoughSafe(s.rows, t.targeted, k, id);
      assert safe <= NewerSafe(t, id);
      SubsetSize(safe, NewerSafe(t, id));
    }
  }

  lemma OtherEventsAreSafe(s: State, e: Event)
    requires RetentionIsSafe(s) && IdsAreAttempts(s) && !e.Target?
    ensures RetentionIsSafe(Step(s, e))
  {
    var t := Step(s, e);
    RowsAreKept(s, e);
    hide Step;
    forall id | id in t.targeted ensures id in t.rows && |NewerSafe(t, id)| >= t.protectedPrior + 1 {
      NewerSafeGrows(s, t, id);
      SubsetSize(NewerSafe(s, id), NewerSafe(t, id));
    }
  }

  lemma RowsAreKept(s: State, e: Event)
    requires !e.Target?
    ensures
      var t := Step(s, e);
      && t.targeted == s.targeted && t.protectedPrior == s.protectedPrior
      && forall id | id in s.rows ::
           id in t.rows && t.rows[id].version == s.rows[id].version && t.rows[id].createdAt == s.rows[id].createdAt
  {
    hide IsCandidate, TilesStored;
  }

  lemma NewerSafeGrows(s: State, t: State, id: Id)
    requires id in s.rows && t.targeted == s.targeted
    requires forall j | j in s.rows ::
      j in t.rows && t.rows[j].version == s.rows[j].version && t.rows[j].createdAt == s.rows[j].createdAt
    ensures NewerSafe(s, id) <= NewerSafe(t, id)
  {
  }

  lemma StepKeepsInv(s: State, e: Event)
    requires Inv(s) && s.retentionDays >= 1
    ensures Inv(Step(s, e))
  {
    StepKeepsStored(s, e);
    StepKeepsLatest(s, e);
    StepKeepsNames(s, e);
    StepKeepsIds(s, e);
    StepKeepsTargets(s, e);
    if e.Target? {
      if Enabled(s, e) {
        TargetingIsSafe(s, e.ids);
      }
    } else {
      OtherEventsAreSafe(s, e);
    }
    hide RecordedSetsAreStored, OneLatest, PointerIsRecorded;
    hide ProcessedIsRecorded, IdsAreAttempts, TargetsAreOld, RetentionIsSafe;
  }

  /** Every state of every run, across deletions, new publications and concurrent cleanup runs. */
  lemma {:induction false} EveryRunIsSafe(retentionDays: nat, protectedPrior: nat, log: seq<Event>)
    requires retentionDays >= 1
    ensures
      var s := Run(Empty(retentionDays, protectedPrior), log);
      Inv(s) && s.retentionDays == retentionDays && s.protectedPrior == protectedPrior
  {
    var s := Empty(retentionDays, protectedPrior);
    if log == [] {
      assert Inv(s);
    } else {
      EveryRunIsSafe(retentionDays, protectedPrior, log[..|log| - 1]);
      hide Inv, Empty, Step;
      StepKeepsInv(Run(s, log[..|log| - 1]), log[|log| - 1]);
      SettingsStay(Run(s, log[..|log| - 1]), log[|log| - 1]);
    }
  }

  lemma SettingsStay(s: State, e: Event)
    ensures Step(s, e).retentionDays == s.retentionDays && Step(s, e).protectedPrior == s.protectedPrior
  {
    hide Enabled;
  }

  /** In every reachable state the newest protectedPrior + 1 live sets of each version, and the
    * latest set, are complete: not deleted, manifest and all tiles in place. */
  lemma ProtectedSetsAreComplete(retentionDays: nat, protectedPrior: nat, log: seq<Event>, id: Id)
    requires retentionDays >= 1
    requires
      var s := Run(Empty(retentionDays, protectedPrior), log);
      id in s.rows && (s.rows[id].latest || |NewerLive(s.rows, id)| <= protectedPrior)
    ensures
      var s := Run(Empty(retentionDays, protectedPrior), log);
      && id !in s.targeted && !s.rows[id].deleted && id in s.generated
      && ManifestBlob(id) in s.blobs && TilesStored(s, id, s.generated[id].tiles)
  {
    EveryRunIsSafe(retentionDays, protectedPrior, log);
    var s := Run(Empty(retentionDays, protectedPrior), log);
    if id in s.targeted {
      NewerLiveAreSafe(s, id);
    }
    hide Run;
  }

  // ------------------------------------------------------------------------ positions of a log

  /** The state after the first p events of a log. */
  function At(start: State, log: seq<Event>, p: nat): State
    requires p <= |log|
  {
    Run(start, log[..p])
  }

  lemma AtNext(start: State, log: seq<Event>, p: nat)
    requires p < |log|
    ensures At(start, log, p + 1) == Step(At(start, log, p), log[p])
  {
    assert log[..p + 1][..p] == log[..p];
  }

  lemma AtPrefix(start: State, log: seq<Event>, longer: seq<Event>, p: nat)
    requires p <= |log| && log <= longer
    ensures At(start, log, p) == At(start, longer, p)
  {
    assert log[..p] == longer[..p];
  }

  lemma AtEnd(start: State, log: seq<Event>)
    ensures At(start, log, |log|) == Run(start, log)
  {
    assert log[..|log|] == log;
  }

  function Attempts(s: State, ingest: nat): nat {
    if ingest in s.processing then s.processing[ingest].attempts else 0
  }

  /** The number that the attempt started at position p is given. */
  function AttemptAt(start: State, log: seq<Event>, p: nat): nat
    requires p < |log| && log[p].StartAttempt?
  {
    Attempts(At(start, log, p + 1), log[p].ingest)
  }

  /** Of two attempts of one ingest the one that starts later has the higher number, whatever
    * becomes of the earlier one. */
  lemma AttemptsIncrease(start: State, log: seq<Event>, i: nat, j: nat)
    requires i < j < |log| && log[i].StartAttempt? && log[j].StartAttempt? && log[i].ingest == log[j].ingest
    ensures AttemptAt(start, log, i) < AttemptAt(start, log, j)
  {
    hide At, Step;
    AttemptsGrow(start, log, log[j].ingest, i + 1, j);
    AtNext(start, log, j);
    StartCounts(At(start, log, j), log[j]);
  }

  lemma StartCounts(s: State, e: Event)
    requires e.StartAttempt?
    ensures Attempts(Step(s, e), e.ingest) == Attempts(s, e.ingest) + 1
  {
  }

  lemma StepKeepsAttempts(s: State, e: Event, ingest: nat)
    ensures Attempts(s, ingest) <= Attempts(Step(s, e), ingest)
  {
    hide IsCandidate, TilesStored;
  }

  lemma {:induction false} AttemptsGrow(start: State, log: seq<Event>, ingest: nat, p: nat, q: nat)
    requires p <= q <= |log|
    ensures Attempts(At(start, log, p), ingest) <= Attempts(At(start, log, q), ingest)
    decreases q - p
  {
    hide At, Step;
    if p < q {
      AttemptsGrow(start, log, ingest, p, q - 1);
      AtNext(start, log, q - 1);
      StepKeepsAttempts(At(start, log, q - 1), log[q - 1], ingest);
    }
  }
}
