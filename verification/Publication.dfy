/** Publishing one tile set and recording the outcome of its message
  * (backend/processing-svc/src/publish.rs, backend/processing-svc/src/db.rs,
  * backend/processing-svc/src/process/message.rs). */
module Publication {
  import opened Wrappers
  import opened SlippyTiles
  import opened TileStore

  datatype PublishError = Storage | Database | TileMath(error: TileMathError)

  // ----------------------------------------------------------------- what a process may rely on

  /** From s to t nothing recorded is forgotten, and only blobs of recorded sets are deleted. */
  ghost predicate Extends(s: State, t: State) {
    && s.retentionDays == t.retentionDays && s.protectedPrior == t.protectedPrior && s.now <= t.now
    && (forall id | id in s.startedBy :: id in t.startedBy && t.startedBy[id] == s.startedBy[id])
    && (forall id | id in s.generated :: id in t.generated && t.generated[id] == s.generated[id])
    && (forall id | id in s.rows ::
          && id in t.rows && t.rows[id].version == s.rows[id].version && t.rows[id].createdAt == s.rows[id].createdAt
          && (s.rows[id].deleted ==> t.rows[id].deleted))
    && s.targeted <= t.targeted
    && (forall b | b in s.blobs :: b in t.blobs || b.id in t.rows)
    && (forall i | i in s.processing :: i in t.processing && s.processing[i].attempts <= t.processing[i].attempts)
  }

  lemma StepExtends(s: State, e: Event)
    requires IdsAreAttempts(s)
    ensures Extends(s, Step(s, e))
  {
    StepKeepsRowsAndBlobs(s, e);
    hide IsCandidate, TilesStored;
  }

  lemma StepKeepsRowsAndBlobs(s: State, e: Event)
    ensures
      var t := Step(s, e);
      && (forall b | b in s.blobs :: b in t.blobs || b.id in t.rows)
      && (forall id | id in s.rows ::
            && id in t.rows && t.rows[id].version == s.rows[id].version && t.rows[id].createdAt == s.rows[id].createdAt
            && (s.rows[id].deleted ==> t.rows[id].deleted))
  {
    hide IsCandidate, TilesStored;
  }

  lemma ExtendsTransitive(s: State, t: State, u: State)
    requires Extends(s, t) && Extends(t, u)
    ensures Extends(s, u)
  {
  }

  lemma ExtendsItself(s: State)
    ensures Extends(s, s)
  {
  }

  /** What a publisher knows does not go stale, and neither does what a cleanup run knows.  The
    * promotion is the exception: it must come within a day of the insertion. */
  lemma KnowledgeIsStable(s: State, t: State, e: Event)
    requires Extends(s, t) && Enabled(s, e)
    requires !e.Generate? && !e.Promote? && !e.Target?
    ensures Enabled(t, e)
  {
    if e.InsertRow? && e.id !in t.rows {
      var tiles := s.generated[e.id].tiles;
      forall i | 0 <= i < |tiles| ensures TileBlob(e.id, tiles[i]) in t.blobs {
        assert TileBlob(e.id, tiles[i]) in s.blobs;
      }
    }
  }

  // -------------------------------------------------------------------------------- the services

  /** Database and blob store as one process sees them; before and after each of its statements
    * other publishers and cleanup runs may act, unless it is alone. */
  class TileService {
    const alone: bool
    const process: nat
    const start: State
    var state: State
    ghost var log: seq<Event>
    ghost var issued: seq<Event> // the statements this process has issued, applied or not

    ghost predicate Valid()
      reads `state, `log
    {
      && start == Empty(start.retentionDays, start.protectedPrior) && start.retentionDays >= 1
      && state == Run(start, log)
    }

    constructor (retentionDays: nat, protectedPrior: nat, process: nat, alone: bool)
      requires retentionDays >= 1
      ensures Valid() && start == state == Empty(retentionDays, protectedPrior) && log == issued == []
      ensures this.alone == alone && this.process == process
    {
      this.alone, this.process := alone, process;
      start := Empty(retentionDays, protectedPrior);
      state := Empty(retentionDays, protectedPrior);
      log, issued := [], [];
    }

    lemma SafeNow()
      requires Valid()
      ensures Inv(state)
    {
      EveryRunIsSafe(start.retentionDays, start.protectedPrior, log);
    }

    method Apply(e: Event)
      requires Valid()
      modifies this
      ensures Valid() && state == Step(old(state), e) && log == old(log) + [e] && issued == old(issued)
      ensures Extends(old(state), state)
    {
      hide Step, Inv, Extends;
      SafeNow();
      IdsAreSafe(state);
      StepExtends(state, e);
      state := Step(state, e);
      log := log + [e];
      assert log[..|log| - 1] == old(log);
    }

    /** Other publishers and cleanup runs act; a publisher renders only attempts it has started. */
    method Interfere()
      requires Valid()
      modifies this
      ensures Valid() && old(log) <= log && Extends(old(state), state) && issued == old(issued)
      ensures forall id | Rendered(state, process, id) :: id in old(state).generated
      ensures alone ==> state == old(state) && log == old(log)
    {
      hide Run, Valid, Step, Extends, Rendered, Inv, IsOthers;
      ExtendsItself(state);
      RenderedAreGenerated(state, process);
      if alone {
        return;
      }
      var events: int := *;
      while events > 0
        invariant Valid() && old(log) <= log && Extends(old(state), state) && issued == old(issued)
        invariant forall id | Rendered(state, process, id) :: id in old(state).generated
      {
        var e: Event := *;
        if IsOthers(state, process, e) {
          ghost var before := state;
          SafeNow();
          IdsAreSafe(before);
          Apply(e);
          OthersRenderTheirOwn(before, e, process);
          ExtendsTransitive(old(state), before, state);
        }
        events := events - 1;
      }
    }

    /** Issues one statement.  An error leaves open whether it was applied. */
    method Execute(e: Event) returns (ok: bool)
      requires Valid() && Enabled(state, e) && !e.Generate? && !e.Promote? && !e.Target?
      modifies this
      ensures Valid() && old(log) <= log && Extends(old(state), state) && issued == old(issued) + [e]
      ensures ok ==> Done(state, e)
      ensures alone ==> state == Step(old(state), e) || (!ok && state == old(state))
    {
      hide Run, Valid, Extends, Enabled, Step, Done, Rendered;
      ghost var s0 := state;
      issued := issued + [e];
      Interfere();
      ghost var s1 := state;
      KnowledgeIsStable(s0, s1, e);
      ExtendsItself(s1);
      ok := *;
      var applied: bool := *;
      if ok || applied {
        Apply(e);
        DoneNow(s1, e);
      }
      ghost var s2 := state;
      Interfere();
      ExtendsTransitive(s0, s1, s2);
      ExtendsTransitive(s0, s2, state);
      if ok {
        DoneStays(s2, state, e);
      }
    }

    /** The tiles of an attempt this process has started are rendered. */
    method RecordGenerated(id: Id, manifest: Manifest)
      requires Valid() && id in state.startedBy && state.startedBy[id] == process && id !in state.generated
      modifies this
      ensures Valid() && old(log) <= log && Extends(old(state), state)
      ensures issued == old(issued) + [Generate(id, manifest)]
      ensures state == Step(old(state), Generate(id, manifest))
      ensures id in state.generated && state.generated[id] == manifest
    {
      hide Run, Valid;
      issued := issued + [Generate(id, manifest)];
      Apply(Generate(id, manifest));
    }

    /** Fails when the id is taken, as the table's primary key demands. */
    method InsertTileSet(id: Id) returns (ok: bool, ghost at: nat)
      requires Valid() && Enabled(state, InsertRow(id))
      modifies this
      ensures Valid() && old(log) <= log && Extends(old(state), state) && issued == old(issued) + [InsertRow(id)]
      ensures ok ==>
        && |old(log)| <= at < |log| && log[at] == InsertRow(id)
        && id !in At(start, log, at).rows && id in At(start, log, at + 1).rows && id in state.rows
      ensures alone && ok ==> state == Step(old(state), InsertRow(id))
    {
      hide Run, Valid, Extends, Enabled, Step, At, Rendered;
      ghost var s0 := state;
      issued := issued + [InsertRow(id)];
      Interfere();
      ghost var s1, before := state, log;
      at := |before|;
      StateIsRun();
      KnowledgeIsStable(s0, s1, InsertRow(id));
      ExtendsItself(s1);
      ok := *;
      var applied: bool := *;
      ok := ok && id !in state.rows;
      if ok || applied {
        Apply(InsertRow(id));
      }
      ghost var s2 := state;
      Interfere();
      ExtendsTransitive(s0, s1, s2);
      ExtendsTransitive(s0, s2, state);
      if ok {
        InsertedNow(s1, id, state);
        Positions(before, InsertRow(id));
      }
    }

    /** An event applied at the end of an earlier log stands at that place for ever. */
    lemma Positions(before: seq<Event>, e: Event)
      requires before + [e] <= log
      ensures |before| < |log| && log[|before|] == e
      ensures At(start, log, |before|) == Run(start, before)
      ensures At(start, log, |before| + 1) == Step(Run(start, before), e)
    {
      var after := before + [e];
      AtPrefix(start, before, log, |before|);
      AtEnd(start, before);
      AtNext(start, log, |before|);
      assert after[|before|] == log[|before|];
    }

    lemma StateIsRun()
      requires Valid()
      ensures state == Run(start, log)
    {
    }

    /** One transaction.  A promotion later than a day after the insertion is taken to fail. */
    method PromoteLatestTileSet(id: Id) returns (ok: bool, ghost at: nat)
      requires Valid() && id in state.rows
      modifies this
      ensures Valid() && old(log) <= log && Extends(old(state), state) && issued == old(issued) + [Promote(id)]
      ensures ok ==> |old(log)| <= at < |log| && log[at] == Promote(id) && IsTheLatest(At(start, log, at + 1), id)
      ensures alone && ok ==> state == Step(old(state), Promote(id)) && IsTheLatest(state, id)
    {
      hide Run, Valid, Extends, Demote, Step, At, Rendered, IsTheLatest;
      ghost var s0 := state;
      issued := issued + [Promote(id)];
      Interfere();
      ghost var s1, before := state, log;
      at := |before|;
      StateIsRun();
      ExtendsItself(s1);
      RowStays(s0, s1, id);
      ok := *;
      var applied: bool := *;
      ok := ok && state.now < state.rows[id].createdAt + DAY;
      if ok || applied {
        Apply(Promote(id));
      }
      ghost var s2 := state;
      Interfere();
      ExtendsTransitive(s0, s1, s2);
      ExtendsTransitive(s0, s2, state);
      if ok {
        PromotedNow(s1, id);
        Positions(before, Promote(id));
      }
    }

    /** A new attempt of an ingest, with the number that its place in the log gives it.  No process
      * had started that attempt before, and no other process renders it. */
    method UpsertProcessingStarted(ingest: nat) returns (r: Result<nat, PublishError>, ghost at: nat)
      requires Valid()
      modifies this
      ensures Valid() && old(log) <= log && Extends(old(state), state)
      ensures issued == old(issued) + [StartAttempt(ingest, process)]
      ensures r.Success? ==>
        && |old(log)| <= at < |log| && log[at] == StartAttempt(ingest, process)
        && r.value == AttemptAt(start, log, at) && r.value >= 1
        && Id(ingest, r.value) !in At(start, log, at).startedBy
        && Id(ingest, r.value) in state.startedBy && state.startedBy[Id(ingest, r.value)] == process
        && Id(ingest, r.value) !in state.generated && Id(ingest, r.value) !in old(state).startedBy
    {
      hide Run, Valid, Extends, Step, At, Rendered, Inv;
      ghost var s0 := state;
      issued := issued + [StartAttempt(ingest, process)];
      Interfere();
      ghost var s1, before := state, log;
      at := |before|;
      StateIsRun();
      SafeNow();
      ExtendsItself(s1);
      var ok: bool := *;
      var applied: bool := *;
      var attempt := 0;
      if ok || applied {
        Apply(StartAttempt(ingest, process));
        attempt := Attempts(state, ingest);
      }
      ghost var s2 := state;
      Interfere();
      ExtendsTransitive(s0, s1, s2);
      ExtendsTransitive(s0, s2, state);
      if !ok {
        return Failure(Database), at;
      }
      StartedNow(s1, ingest, process, state);
      StartedStays(s0, s1, Id(ingest, attempt));
      Positions(before, StartAttempt(ingest, process));
      return Success(attempt), at;
    }
  }

  /** An attempt that this process has started and rendered. */
  predicate Rendered(s: State, process: nat, id: Id) {
    id in s.generated && id in s.startedBy && s.startedBy[id] == process
  }

  /** The event is of another process: no process starts an attempt in another's name, or renders
    * an attempt that another has started. */
  predicate IsOthers(s: State, process: nat, e: Event) {
    && (e.StartAttempt? ==> e.process != process)
    && (e.Generate? && e.id in s.startedBy ==> s.startedBy[e.id] != process)
  }

  lemma RenderedAreGenerated(s: State, process: nat)
    ensures forall id | Rendered(s, process, id) :: id in s.generated
  {
  }

  lemma OthersRenderTheirOwn(s: State, e: Event, process: nat)
    requires IsOthers(s, process, e) && IdsAreAttempts(s)
    ensures forall id | Rendered(Step(s, e), process, id) :: Rendered(s, process, id)
  {
    hide IsCandidate, TilesStored;
  }

  lemma IdsAreSafe(s: State)
    requires Inv(s)
    ensures IdsAreAttempts(s)
  {
  }

  lemma RowStays(s: State, t: State, id: Id)
    requires Extends(s, t) && id in s.rows
    ensures id in t.rows
  {
  }

  lemma InsertedNow(s: State, id: Id, t: State)
    requires Enabled(s, InsertRow(id)) && Extends(Step(s, InsertRow(id)), t)
    ensures id in Step(s, InsertRow(id)).rows && id in t.rows
  {
  }

  /** The set is recorded, and it alone is marked as the latest one. */
  predicate IsTheLatest(s: State, id: Id) {
    id in s.rows && forall j | j in s.rows :: s.rows[j].latest <==> j == id
  }

  lemma PromotedNow(s: State, id: Id)
    requires Enabled(s, Promote(id))
    ensures IsTheLatest(Step(s, Promote(id)), id)
  {
  }

  lemma StartedStays(s: State, t: State, id: Id)
    requires Extends(s, t) && id !in t.startedBy
    ensures id !in s.startedBy
  {
  }

  /** A new attempt was not started before, so what its process has rendered does not include it. */
  lemma StartedNow(s: State, ingest: nat, process: nat, t: State)
    requires Inv(s) && Extends(Step(s, StartAttempt(ingest, process)), t)
    requires forall id | Rendered(t, process, id) :: id in Step(s, StartAttempt(ingest, process)).generated
    ensures
      var id := Id(ingest, Attempts(Step(s, StartAttempt(ingest, process)), ingest));
      && id.attempt >= 1 && id !in s.startedBy
      && id in t.startedBy && t.startedBy[id] == process && id !in t.generated
  {
    var id := Id(ingest, Attempts(Step(s, StartAttempt(ingest, process)), ingest));
    assert Rendered(t, process, id) <==> id in t.generated;
  }

  // ---------------------------------------------------------------------------- publishing a set

  ghost predicate TilesHeld(s: State, id: Id, tiles: seq<TileCoord>, n: nat)
    requires n <= |tiles|
  {
    forall i | 0 <= i < n :: Done(s, UploadTile(id, tiles[i]))
  }

  lemma TilesStayHeld(s: State, t: State, id: Id, tiles: seq<TileCoord>, n: nat)
    requires n <= |tiles| && Extends(s, t) && TilesHeld(s, id, tiles, n)
    ensures TilesHeld(t, id, tiles, n)
  {
    forall i | 0 <= i < n ensures Done(t, UploadTile(id, tiles[i])) {
      DoneStays(s, t, UploadTile(id, tiles[i]));
    }
  }

  lemma HoldOneMore(s: State, id: Id, tiles: seq<TileCoord>, n: nat)
    requires n < |tiles| && TilesHeld(s, id, tiles, n) && Done(s, UploadTile(id, tiles[n]))
    ensures TilesHeld(s, id, tiles, n + 1)
  {
  }

  lemma ManifestStays(s: State, t: State, id: Id)
    requires Extends(s, t) && id in s.generated
    ensures id in t.generated && t.generated[id] == s.generated[id]
    ensures id in s.rows ==> id in t.rows
  {
  }

  lemma MayInsert(s: State, id: Id)
    requires id in s.generated && TilesHeld(s, id, s.generated[id].tiles, |s.generated[id].tiles|)
    requires Done(s, UploadManifest(id))
    ensures Enabled(s, InsertRow(id))
  {
    if id !in s.rows {
      var tiles := s.generated[id].tiles;
      forall i | 0 <= i < |tiles| ensures TileBlob(id, tiles[i]) in s.blobs {
        assert Done(s, UploadTile(id, tiles[i]));
      }
    }
  }

  function Uploads(id: Id, tiles: seq<TileCoord>): seq<Event> {
    if tiles == [] then [] else Uploads(id, tiles[..|tiles| - 1]) + [UploadTile(id, tiles[|tiles| - 1])]
  }

  /** Everything a publication does, in order: tiles, manifest, row, promotion, pointer. */
  function PublicationPlan(id: Id, tiles: seq<TileCoord>): seq<Event> {
    Uploads(id, tiles) + PublicationTail(id)
  }

  function PublicationTail(id: Id): seq<Event> {
    [UploadManifest(id), InsertRow(id), Promote(id), UploadPointer(id)]
  }

  lemma {:induction false} UploadsPrefix(id: Id, tiles: seq<TileCoord>, n: nat)
    requires n <= |tiles|
    ensures Uploads(id, tiles[..n]) <= PublicationPlan(id, tiles)
    ensures n < |tiles| ==> Uploads(id, tiles[..n + 1]) == Uploads(id, tiles[..n]) + [UploadTile(id, tiles[n])]
    decreases |tiles| - n
  {
    if n < |tiles| {
      assert tiles[..n + 1][..n] == tiles[..n];
      UploadsPrefix(id, tiles, n + 1);
    } else {
      assert tiles[..n] == tiles;
    }
  }

  /** Uploads every tile, then the manifest, and only then records and promotes the set. */
  method PublishTileSet(store: TileService, id: Id, manifest: Manifest)
    returns (r: Result<LatestPointer, PublishError>, ghost statements: seq<Event>)
    requires store.Valid() && id in store.state.generated && store.state.generated[id] == manifest
    modifies store
    ensures store.Valid() && Extends(old(store.state), store.state)
    ensures store.issued == old(store.issued) + statements && statements <= PublicationPlan(id, manifest.tiles)
    ensures r.Success? ==>
      && statements == PublicationPlan(id, manifest.tiles)
      && id in store.state.rows && r.value == LatestPointer(id, manifest.sha256)
    ensures r.Failure? && r.error.TileMath? ==>
      exists i :: 0 <= i < |manifest.tiles| && ValidateTileCoord(manifest.tiles[i]) == Failure(r.error.error)
  {
    hide Run, TileService.Valid, Extends, Done, TilesHeld, Uploads, PublicationPlan, PublicationTail, ValidateTileCoord;
    var tiles := manifest.tiles;
    statements := [];
    ghost var s0 := store.state;
    ExtendsItself(s0);
    NothingHeld(s0, id, tiles);
    UploadsPrefix(id, tiles, 0);
    for i := 0 to |tiles|
      invariant store.Valid() && Extends(s0, store.state)
      invariant id in store.state.generated && store.state.generated[id] == manifest
      invariant statements == Uploads(id, tiles[..i]) && store.issued == old(store.issued) + statements
      invariant TilesHeld(store.state, id, tiles, i)
    {
      UploadsPrefix(id, tiles, i);
      var path := ValidateTileCoord(tiles[i]);
      if path.Failure? {
        return Failure(TileMath(path.error)), statements;
      }
      ghost var s := store.state;
      var ok := store.Execute(UploadTile(id, tiles[i]));
      ExtendsTransitive(s0, s, store.state);
      ManifestStays(s, store.state, id);
      TilesStayHeld(s, store.state, id, tiles, i);
      statements := statements + [UploadTile(id, tiles[i])];
      if !ok {
        UploadsPrefix(id, tiles, i + 1);
        return Failure(Storage), statements;
      }
      HoldOneMore(store.state, id, tiles, i);
    }
    ghost var s1 := store.state;
    ghost var last;
    assert tiles[..|tiles|] == tiles;
    r, last := PublishTileManifest(store, id, manifest);
    ExtendsTransitive(s0, s1, store.state);
    PlanPrefix(id, tiles, last);
    statements := statements + last;
  }

  lemma MayPoint(s: State, id: Id)
    requires id in s.rows && id in s.generated
    ensures Enabled(s, UploadPointer(id))
  {
  }

  lemma PointedNow(s: State, id: Id)
    requires id in s.rows && id in s.generated
    ensures
      var t := Step(s, UploadPointer(id));
      t.pointer == Some(LatestPointer(id, s.generated[id].sha256)) && (IsTheLatest(s, id) ==> IsTheLatest(t, id))
  {
  }

  lemma MayUpload(s: State, id: Id)
    requires id in s.generated
    ensures Enabled(s, UploadManifest(id))
  {
  }

  lemma NothingHeld(s: State, id: Id, tiles: seq<TileCoord>)
    ensures TilesHeld(s, id, tiles, 0) && Uploads(id, tiles[..0]) == []
  {
  }

  lemma PlanPrefix(id: Id, tiles: seq<TileCoord>, last: seq<Event>)
    requires last <= PublicationTail(id)
    ensures Uploads(id, tiles) + last <= PublicationPlan(id, tiles)
    ensures last == PublicationTail(id) ==> Uploads(id, tiles) + last == PublicationPlan(id, tiles)
  {
  }

  method PublishTileManifest(store: TileService, id: Id, manifest: Manifest)
    returns (r: Result<LatestPointer, PublishError>, ghost statements: seq<Event>)
    requires store.Valid() && id in store.state.generated && store.state.generated[id] == manifest
    requires TilesHeld(store.state, id, manifest.tiles, |manifest.tiles|)
    modifies store
    ensures store.Valid() && Extends(old(store.state), store.state)
    ensures store.issued == old(store.issued) + statements && statements <= PublicationTail(id)
    ensures r.Success? ==>
      statements == PublicationTail(id) && id in store.state.rows && r.value == LatestPointer(id, manifest.sha256)
    ensures r.Failure? ==> !r.error.TileMath?
    ensures store.alone && r.Success? ==> store.state.pointer == Some(r.value) && IsTheLatest(store.state, id)
  {
    hide Run, TileService.Valid, Extends, Done, TilesHeld, Enabled, Step, At, IsTheLatest;
    ghost var s0 := store.state;
    statements := [UploadManifest(id)];
    MayUpload(s0, id);
    var ok := store.Execute(UploadManifest(id));
    ghost var s1 := store.state;
    ManifestStays(s0, s1, id);
    TilesStayHeld(s0, s1, id, manifest.tiles, |manifest.tiles|);
    if !ok {
      return Failure(Storage), statements;
    }
    MayInsert(s1, id);
    ghost var at;
    ok, at := store.InsertTileSet(id);
    statements := [UploadManifest(id), InsertRow(id)];
    ghost var s2 := store.state;
    ManifestStays(s1, s2, id);
    ExtendsTransitive(s0, s1, s2);
    if !ok {
      return Failure(Database), statements;
    }
    ok, at := store.PromoteLatestTileSet(id);
    statements := [UploadManifest(id), InsertRow(id), Promote(id)];
    ghost var s3 := store.state;
    ManifestStays(s2, s3, id);
    ExtendsTransitive(s0, s2, s3);
    if !ok {
      return Failure(Database), statements;
    }
    MayPoint(s3, id);
    ok := store.Execute(UploadPointer(id));
    statements := PublicationTail(id);
    PointedNow(s3, id);
    ManifestStays(s3, store.state, id);
    ExtendsTransitive(s0, s3, store.state);
    return if ok then Success(LatestPointer(id, manifest.sha256)) else Failure(Storage), statements;
  }

  /** The publishing part of one message: a new attempt, its tiles, its publication, and the log
    * row that names what was published. */
  method ProcessMessage(store: TileService, ingest: nat, render: nat -> Result<Manifest, PublishError>)
    returns (r: Result<Id, PublishError>)
    requires store.Valid()
    modifies store
    ensures store.Valid() && Extends(old(store.state), store.state)
    ensures r.Success? ==>
      && r.value.ingest == ingest && r.value in store.state.rows && r.value !in old(store.state).startedBy
      && render(r.value.attempt).Success?
      && var manifest := render(r.value.attempt).value;
         store.issued == old(store.issued) + [StartAttempt(ingest, store.process)] + [Generate(r.value, manifest)]
                         + PublicationPlan(r.value, manifest.tiles) + [MarkProcessed(r.value)]
  {
    hide Run, TileService.Valid, Extends, Done, PublicationPlan;
    ghost var s0 := store.state;
    var attempt, at := store.UpsertProcessingStarted(ingest);
    if attempt.Failure? {
      return Failure(attempt.error);
    }
    ghost var s1 := store.state;
    var id := Id(ingest, attempt.value);
    var manifest := render(attempt.value);
    if manifest.Failure? {
      return Failure(manifest.error);
    }
    store.RecordGenerated(id, manifest.value);
    ghost var s2 := store.state;
    ExtendsTransitive(s0, s1, s2);
    var published, _ := PublishTileSet(store, id, manifest.value);
    ghost var s3 := store.state;
    ExtendsTransitive(s0, s2, s3);
    if published.Failure? {
      return Failure(published.error);
    }
    var ok := store.Execute(MarkProcessed(id));
    ExtendsTransitive(s0, s3, store.state);
    ManifestStays(s2, s3, id);
    ManifestStays(s3, store.state, id);
    return if ok then Success(id) else Failure(Database);
  }

  /** The effects that stay, once a statement is known to be applied. */
  ghost predicate Done(s: State, e: Event) {
    match e
    case UploadTile(id, c) => TileBlob(id, c) in s.blobs || id in s.rows
    case UploadManifest(id) => ManifestBlob(id) in s.blobs || id in s.rows
    case _ => true
  }

  lemma DoneNow(s: State, e: Event)
    requires Enabled(s, e)
    ensures Done(Step(s, e), e)
  {
  }

  lemma DoneStays(s: State, t: State, e: Event)
    requires Extends(s, t) && Done(s, e)
    ensures Done(t, e)
  {
  }
}
