/** What retention cleanup leaves of the set the latest pointer refers to
  * (backend/processing-svc/src/publish.rs, backend/processing-svc/src/retention.rs). */
module PointerRetention {
  import opened Wrappers
  import opened SlippyTiles
  import opened TileStore
  import opened Retention
  import opened CleanupRuns

  /** Time passes and cleanup runs work; nothing is published. */
  predicate OnlyCleans(log: seq<Event>) {
    forall i | 0 <= i < |log| :: log[i].Tick? || log[i].Target? || log[i].DeleteBlob? || log[i].MarkDeleted?
  }

  /** A reader who follows the pointer finds the manifest with the promised hash, and its tiles. */
  ghost predicate PointerIsServed(s: State)
    requires s.pointer.Some?
  {
    var id := s.pointer.value.id;
    && id in s.generated && s.generated[id].sha256 == s.pointer.value.sha256
    && ManifestBlob(id) in s.blobs && TilesStored(s, id, s.generated[id].tiles)
  }

  /** In every reachable state: the pointer goes on being served, however often cleanup runs and
    * wherever the runs stop, if and only if it is served now and its set cannot go.  If the set is
    * protected, it is served now. */
  lemma PointerStaysServedExactly(retentionDays: nat, protectedPrior: nat, log: seq<Event>,
                                  batchLimit: nat, blobLimit: nat)
    requires retentionDays >= 1 && Run(Empty(retentionDays, protectedPrior), log).pointer.Some?
    ensures
      var s := Run(Empty(retentionDays, protectedPrior), log);
      var id := s.pointer.value.id;
      && id in s.rows && (IsProtected(s, id) ==> PointerIsServed(s))
      && (AlwaysServed(s, batchLimit, blobLimit) <==> PointerIsServed(s) && !CanGo(s, id, batchLimit, blobLimit))
      && (CanGo(s, id, batchLimit, blobLimit) ==>
            exists turns :: TakenApartBy(s, turns, id, batchLimit, blobLimit))
  {
    EveryRunIsSafe(retentionDays, protectedPrior, log);
    var s := Run(Empty(retentionDays, protectedPrior), log);
    var id := s.pointer.value.id;
    PointerIsInRows(s);
    if IsProtected(s, id) {
      ProtectedPointerIsServed(s);
    }
    hide Run, IsProtected, CanGo, AlwaysServed, Inv, PointerIsServed, TakenApartBy;
    if CanGo(s, id, batchLimit, blobLimit) {
      var turns := TakeApart(s, id, batchLimit, blobLimit);
      assert TakenApartBy(s, turns, id, batchLimit, blobLimit);
      NotAlwaysServed(s, turns, batchLimit, blobLimit);
    } else {
      ServedUnlessItCanGo(s, batchLimit, blobLimit);
    }
  }

  /** However often cleanup runs, and wherever the runs stop. */
  ghost predicate AlwaysServed(s: State, batchLimit: nat, blobLimit: nat)
    requires s.pointer.Some?
  {
    forall turns | AreTurns(s, turns, batchLimit, blobLimit) :: StaysServed(s, AfterAll(s, turns, blobLimit))
  }

  lemma NotAlwaysServed(s: State, turns: seq<Turn>, batchLimit: nat, blobLimit: nat)
    requires s.pointer.Some? && TakenApartBy(s, turns, s.pointer.value.id, batchLimit, blobLimit)
    ensures !AlwaysServed(s, batchLimit, blobLimit)
  {
    hide AreTurns, AfterAll, IsGone, StaysServed;
    GoneIsNotServed(s, AfterAll(s, turns, blobLimit));
  }

  lemma ServedUnlessItCanGo(s: State, batchLimit: nat, blobLimit: nat)
    requires s.pointer.Some? && s.pointer.value.id in s.rows && !CanGo(s, s.pointer.value.id, batchLimit, blobLimit)
    ensures AlwaysServed(s, batchLimit, blobLimit) <==> PointerIsServed(s)
  {
    hide AreTurns, AfterAll, IsGone, StaysServed, CanGo, PointerIsServed;
    if PointerIsServed(s) {
      forall turns | AreTurns(s, turns, batchLimit, blobLimit) ensures StaysServed(s, AfterAll(s, turns, blobLimit)) {
        TurnsKeep(s, turns, batchLimit, blobLimit, s.pointer.value.id);
        KeptIsServed(s, AfterAll(s, turns, blobLimit));
      }
    } else {
      NoTurns(s, batchLimit, blobLimit);
      NotServed(s);
    }
  }

  ghost predicate StaysServed(s: State, t: State) {
    s.pointer.Some? && t.pointer == s.pointer && PointerIsServed(t)
  }

  lemma PointerIsInRows(s: State)
    requires Inv(s) && s.pointer.Some?
    ensures s.pointer.value.id in s.rows
  {
  }

  lemma GoneIsNotServed(s: State, t: State)
    requires s.pointer.Some? && IsGone(t, s.pointer.value.id)
    ensures !StaysServed(s, t)
  {
  }

  lemma NotServed(s: State)
    requires s.pointer.Some? && !PointerIsServed(s)
    ensures !StaysServed(s, s)
  {
  }

  lemma KeptIsServed(s: State, t: State)
    requires s.pointer.Some? && PointerIsServed(s) && Kept(s, t, s.pointer.value.id)
    ensures StaysServed(s, t)
  {
  }

  lemma NoTurns(s: State, batchLimit: nat, blobLimit: nat)
    ensures AreTurns(s, [], batchLimit, blobLimit) && AfterAll(s, [], blobLimit) == s
  {
  }

  lemma ProtectedPointerIsServed(s: State)
    requires Inv(s) && s.pointer.Some? && s.pointer.value.id in s.rows && IsProtected(s, s.pointer.value.id)
    ensures PointerIsServed(s)
  {
    if s.pointer.value.id in s.targeted {
      NewerLiveAreSafe(s, s.pointer.value.id);
    }
  }

  /** Whatever cleanup runs work side by side, a pointer whose set cannot go stays served. */
  lemma PointerServedBesideRuns(s: State, log: seq<Event>, batchLimit: nat, blobLimit: nat)
    requires Inv(s) && s.retentionDays >= 1 && AreCoded(s, log, batchLimit, blobLimit)
    requires s.pointer.Some? && PointerIsServed(s)
    requires s.pointer.value.id in s.rows && !CanGo(s, s.pointer.value.id, batchLimit, blobLimit)
    ensures StaysServed(s, Run(s, log))
  {
    ConcurrentRunsKeep(s, log, batchLimit, blobLimit, s.pointer.value.id);
    hide Inv, AreCoded, CanGo, Run, IsCoded;
    KeptIsServed(s, Run(s, log));
  }

  /** Even if cleanup selected and deleted whatever it may, it would not end the protection of a set. */
  lemma {:induction false} CleaningKeepsProtection(s: State, log: seq<Event>, id: Id)
    requires Inv(s) && s.retentionDays >= 1 && OnlyCleans(log) && id in s.rows
    ensures
      var t := Run(s, log);
      && Inv(t) && t.pointer == s.pointer && t.retentionDays == s.retentionDays
      && id in t.rows && (IsProtected(s, id) ==> IsProtected(t, id))
  {
    if log != [] {
      var t, e := Run(s, log[..|log| - 1]), log[|log| - 1];
      CleaningKeepsProtection(s, log[..|log| - 1], id);
      hide Inv, IsProtected, Step;
      StepKeepsInv(t, e);
      CleanupProtects(t, e, id);
    }
  }

  lemma CleanupProtects(s: State, e: Event, id: Id)
    requires id in s.rows && (e.Tick? || e.Target? || e.DeleteBlob? || e.MarkDeleted?)
    ensures
      var t := Step(s, e);
      && t.pointer == s.pointer && t.retentionDays == s.retentionDays
      && id in t.rows && (IsProtected(s, id) ==> IsProtected(t, id))
  {
    var t := Step(s, e);
    hide IsCandidate;
    SubsetSize(NewerLive(t.rows, id), NewerLive(s.rows, id));
  }

  // ------------------------------------------------------- a pointer to a set without its manifest

  /** One more event of a run. */
  lemma Then(start: State, log: seq<Event>, s: State, e: Event) returns (longer: seq<Event>, t: State)
    requires s == Run(start, log)
    ensures longer == log + [e] && t == Step(s, e) == Run(start, longer)
  {
    longer, t := log + [e], Step(s, e);
    assert longer[..|log|] == log;
  }

  lemma NoEvents(s: State)
    ensures Run(s, []) == s
  {
  }

  lemma {:induction false} RunOn(start: State, log: seq<Event>, more: seq<Event>)
    ensures Run(start, log + more) == Run(Run(start, log), more)
  {
    if more == [] {
      assert log + more == log;
    } else {
      assert (log + more)[..|log + more| - 1] == log + more[..|more| - 1];
      RunOn(start, log, more[..|more| - 1]);
    }
  }

  const TILES := [TileCoord(0, 0, 0)]
  const MANIFEST := Manifest("v1", "sha", TILES)

  /** Everything a publication does before its pointer upload. */
  function UpToPointer(id: Id): seq<Event> {
    [StartAttempt(id.ingest, 0), Generate(id, MANIFEST), UploadTile(id, TILES[0]), UploadManifest(id), InsertRow(id)]
    + [Promote(id)]
  }

  /** Publications of one version by ingests 1 to n + 1: the first is complete, each later one
    * stops before its pointer upload. */
  function Publications(n: nat): seq<Event> {
    if n == 0 then UpToPointer(Id(1, 1)) + [UploadPointer(Id(1, 1))]
    else Publications(n - 1) + UpToPointer(Id(n + 1, 1))
  }

  /** Ingests 1 to n have published; the last set is the latest. */
  ghost predicate Published(s: State, n: nat) {
    && s.now == 0
    && RowsUpTo(s.rows, n) && (forall id | id in s.generated :: id.ingest <= n)
    && (forall b | b in s.blobs && b.TileBlob? :: b.coord == TILES[0])
    && (forall i | i in s.processing :: i <= n)
    && (forall id | id in s.startedBy :: id.ingest <= n)
  }

  /** One set of each of these ingests, the last one latest. */
  ghost predicate RowsUpTo(rows: map<Id, Row>, n: nat) {
    && (forall id | id in rows :: 1 <= id.ingest <= n && id.attempt == 1)
    && (forall i | 1 <= i <= n :: Id(i, 1) in rows && rows[Id(i, 1)] == Row("v1", 0, i == n, false))
  }

  lemma PublishUpToPointer(s: State, n: nat)
    requires Published(s, n)
    ensures
      var t := Run(s, UpToPointer(Id(n + 1, 1)));
      && Published(t, n + 1) && t.pointer == s.pointer
      && Id(n + 1, 1) in t.generated && t.generated[Id(n + 1, 1)] == MANIFEST
  {
    hide Run, Enabled, Published;
    var id, log, t := Id(n + 1, 1), [], s;
    NoEvents(s);
    log, t := Then(s, log, t, StartAttempt(n + 1, 0));
    log, t := Then(s, log, t, Generate(id, MANIFEST));
    log, t := Then(s, log, t, UploadTile(id, TILES[0]));
    log, t := Then(s, log, t, UploadManifest(id));
    BlobsFirst(s, n);
    ghost var u := t;
    log, t := Then(s, log, t, InsertRow(id));
    log, t := Then(s, log, t, Promote(id));
    assert log == UpToPointer(id);
    RowsNext(s, u, n);
  }

  ghost predicate HasBlobs(s: State, t: State, id: Id) {
    && t.rows == s.rows && t.pointer == s.pointer && t.now == s.now && t.generated == s.generated[id := MANIFEST]
    && t.blobs == s.blobs + {ManifestBlob(id), TileBlob(id, TILES[0])}
    && (forall i | i in t.processing :: i in s.processing || i == id.ingest)
    && (forall i | i in t.startedBy :: i in s.startedBy || i == id)
  }

  lemma BlobsFirst(s: State, n: nat)
    requires Published(s, n)
    ensures
      var id := Id(n + 1, 1);
      HasBlobs(s, Step(Step(Step(Step(s, StartAttempt(n + 1, 0)), Generate(id, MANIFEST)), UploadTile(id, TILES[0])),
                       UploadManifest(id)), id)
  {
    hide IsCandidate, Demote;
  }

  lemma RowsNext(s: State, t: State, n: nat)
    requires Published(s, n) && HasBlobs(s, t, Id(n + 1, 1))
    ensures
      var u := Step(Step(t, InsertRow(Id(n + 1, 1))), Promote(Id(n + 1, 1)));
      && Published(u, n + 1) && u.pointer == s.pointer
      && Id(n + 1, 1) in u.generated && u.generated[Id(n + 1, 1)] == MANIFEST
  {
    hide Step, Demote, TilesStored, RowsUpTo;
    NothingNewer(s, n);
    Recorded(s, t, Id(n + 1, 1));
    NextRows(t.rows, n);
  }

  lemma NothingNewer(s: State, n: nat)
    requires Published(s, n)
    ensures Id(n + 1, 1) !in s.rows
  {
  }

  lemma NextRows(rows: map<Id, Row>, n: nat)
    requires RowsUpTo(rows, n)
    ensures
      var id := Id(n + 1, 1);
      RowsUpTo(Demote(rows[id := Row("v1", 0, false, false)])[id := Row("v1", 0, true, false)], n + 1)
  {
    DemotedRows(rows[Id(n + 1, 1) := Row("v1", 0, false, false)]);
    hide Demote;
  }

  lemma Recorded(s: State, t: State, id: Id)
    requires HasBlobs(s, t, id) && id !in s.rows && s.now == 0
    ensures
      Step(Step(t, InsertRow(id)), Promote(id))
      == t.(rows := Demote(t.rows[id := Row("v1", 0, false, false)])[id := Row("v1", 0, true, false)])
  {
    hide IsCandidate;
    assert TilesStored(t, id, TILES);
  }

  lemma DemotedRows(rows: map<Id, Row>)
    ensures forall id | id in rows :: id in Demote(rows) && Demote(rows)[id] == rows[id].(latest := false)
    ensures forall id | id in Demote(rows) :: id in rows
  {
  }

  lemma {:induction false} PublicationsDone(retentionDays: nat, protectedPrior: nat, n: nat)
    ensures
      var s := Run(Empty(retentionDays, protectedPrior), Publications(n));
      Published(s, n + 1) && s.pointer == Some(LatestPointer(Id(1, 1), "sha"))
  {
    hide Run, Published, UpToPointer;
    var start := Empty(retentionDays, protectedPrior);
    if n == 0 {
      FirstPublication(start);
    } else {
      PublicationsDone(retentionDays, protectedPrior, n - 1);
      RunOn(start, Publications(n - 1), UpToPointer(Id(n + 1, 1)));
      PublishUpToPointer(Run(start, Publications(n - 1)), n);
    }
  }

  lemma FirstPublication(start: State)
    requires start == Empty(start.retentionDays, start.protectedPrior)
    ensures
      var s := Run(start, UpToPointer(Id(1, 1)) + [UploadPointer(Id(1, 1))]);
      Published(s, 1) && s.pointer == Some(LatestPointer(Id(1, 1), "sha"))
  {
    hide Run, UpToPointer, Published;
    NothingPublished(start);
    PublishUpToPointer(start, 0);
    var before := Run(start, UpToPointer(Id(1, 1)));
    var log, s := Then(start, UpToPointer(Id(1, 1)), before, UploadPointer(Id(1, 1)));
    PointTo(before, Id(1, 1));
  }

  lemma NothingPublished(s: State)
    requires s == Empty(s.retentionDays, s.protectedPrior)
    ensures Published(s, 0)
  {
  }

  lemma PointTo(s: State, id: Id)
    requires Published(s, 1) && id == Id(1, 1) && id in s.generated && s.generated[id] == MANIFEST
    ensures
      var t := Step(s, UploadPointer(id));
      Published(t, 1) && t.pointer == Some(LatestPointer(id, "sha"))
  {
  }

  /** The sets of ingests 2 to n are newer than that of the first. */
  lemma {:induction false} ManyAreNewer(s: State, n: nat) returns (newer: set<Id>)
    requires n >= 1 && forall i | 1 <= i <= n :: Id(i, 1) in s.rows && s.rows[Id(i, 1)].createdAt == 0
    requires forall i | 1 <= i <= n :: !s.rows[Id(i, 1)].deleted && s.rows[Id(i, 1)].version == "v1"
    ensures newer <= NewerLive(s.rows, Id(1, 1)) && |newer| == n - 1 && forall id | id in newer :: id.ingest <= n
  {
    if n == 1 {
      newer := {};
    } else {
      var fewer := ManyAreNewer(s, n - 1);
      newer := fewer + {Id(n, 1)};
    }
  }

  /** The set of the first ingest is the oldest, and has one tile. */
  lemma NothingInTheWay(s: State, n: nat, blobLimit: nat)
    requires Published(s, n) && n >= 1 && blobLimit >= 1
    ensures Id(1, 1) in s.rows && Blockers(s, Id(1, 1), blobLimit) == {} && Fits(s, Id(1, 1), blobLimit)
  {
    var id := Id(1, 1);
    hide Fits;
    forall q | q in s.rows ensures !Older(s.rows, q, id) {
      assert q == Id(q.ingest, 1) && 1 <= q.ingest <= n;
      assert s.rows[q].createdAt == 0 == s.rows[id].createdAt;
    }
    OneTileFits(s, id, blobLimit);
  }

  lemma OneTileFits(s: State, id: Id, blobLimit: nat)
    requires blobLimit >= 1 && forall b | b in s.blobs && b.TileBlob? :: b.coord == TILES[0]
    ensures Fits(s, id, blobLimit)
  {
    var tile := TileBlob(id, TILES[0]);
    forall b | b in TileBlobsOf(s, id) ensures b in {tile} {
      assert b == TileBlob(b.id, b.coord);
    }
    SubsetSize(TileBlobsOf(s, id), {tile});
  }

  lemma FirstIsServed(s: State, id: Id)
    requires Inv(s) && s.pointer.Some? && id == s.pointer.value.id && id !in s.targeted
    ensures PointerIsServed(s)
  {
  }

  /** However many prior sets are protected: that many publications and one more which stop before
    * their pointer uploads, and the pointer, served so far, refers to a set that cleanup takes apart. */
  lemma PointerMayOutliveItsManifest(retentionDays: nat, protectedPrior: nat, batchLimit: nat, blobLimit: nat)
    returns (turns: seq<Turn>)
    requires retentionDays >= 1 && batchLimit >= 1 && blobLimit >= 1
    ensures
      var s := Run(Empty(retentionDays, protectedPrior), Publications(protectedPrior + 1));
      && s.pointer == Some(LatestPointer(Id(1, 1), "sha")) && PointerIsServed(s)
      && TakenApartBy(s, turns, Id(1, 1), batchLimit, blobLimit)
  {
    hide Run, Publications, TakenApartBy, PointerIsServed;
    var id, log := Id(1, 1), Publications(protectedPrior + 1);
    var s := Run(Empty(retentionDays, protectedPrior), log);
    PublicationsDone(retentionDays, protectedPrior, protectedPrior + 1);
    EveryRunIsSafe(retentionDays, protectedPrior, log);
    var newer := ManyAreNewer(s, protectedPrior + 2);
    SubsetSize(newer, NewerLive(s.rows, id));
    NothingInTheWay(s, protectedPrior + 2, blobLimit);
    NotOldYet(s, id);
    FirstIsServed(s, id);
    hide Inv, Published, Blockers, Fits, NewerLive;
    turns := TakeApart(s, id, batchLimit, blobLimit);
  }

  lemma NotOldYet(s: State, id: Id)
    requires Inv(s) && s.now == 0
    ensures id !in s.targeted
  {
  }
}
