/** Retention cleanup of processed tile sets (backend/processing-svc/src/retention.rs). */
module Retention {
  import opened Wrappers
  import opened TileStore
  import opened Publication

  datatype CleanupOutcome = Deleted | Skipped
  datatype RetentionSummary = RetentionSummary(selected: nat, deleted: nat, skipped: nat)
  datatype RetentionError = BlobStore | Database

  /** An answer to the candidate query: candidates, oldest first, as many as the batch holds. */
  predicate IsBatch(s: State, limit: nat, ids: seq<Id>) {
    && |ids| <= limit
    && (forall i | 0 <= i < |ids| :: ids[i] in s.rows && IsCandidate(s, ids[i]))
    && (forall i, j | 0 <= i < j < |ids| :: Older(s.rows, ids[i], ids[j]))
    && (forall id | id in s.rows && IsCandidate(s, id) && id !in ids ::
          |ids| == limit && forall i | 0 <= i < |ids| :: Older(s.rows, ids[i], id))
  }

  function Members(ids: seq<Id>): set<Id> {
    set id | id in ids
  }

  /** The blobs under the prefix of a tile set: by ArtifactNames.PrefixMatchesOwnTiles, its tiles. */
  function TileBlobsOf(s: State, id: Id): set<Blob> {
    set b | b in s.blobs && b.TileBlob? && b.id == id
  }

  /** Selects a batch, as the tables stood at one moment of the log; when the run executes, its
    * members count as targeted from that moment on. */
  method SelectCandidates(store: TileService, execute: bool, limit: nat)
    returns (r: Result<seq<Id>, RetentionError>, ghost at: nat)
    requires store.Valid()
    modifies store
    ensures store.Valid() && old(store.log) <= store.log && Extends(old(store.state), store.state)
    ensures store.issued == old(store.issued)
    ensures r.Success? ==>
      && |old(store.log)| <= at <= |store.log| && IsBatch(At(store.start, store.log, at), limit, r.value)
      && (execute ==>
            && at < |store.log| && store.log[at] == Target(Members(r.value))
            && AreTargets(store.state, r.value))
    ensures store.alone && r.Success? ==>
      && IsBatch(old(store.state), limit, r.value)
      && store.state == if execute
                        then old(store.state).(targeted := old(store.state).targeted + Members(r.value))
                        else old(store.state)
    ensures store.alone && r.Failure? ==> store.state == old(store.state)
  {
    hide Run, TileService.Valid, Extends, IsCandidate, At;
    ghost var s0 := store.state;
    store.Interfere();
    ghost var s1, before := store.state, store.log;
    store.StateIsRun();
    at := |before|;
    AtEnd(store.start, before);
    var ids: seq<Id> := *;
    if !IsBatch(store.state, limit, ids) {
      return Failure(RetentionError.Database), at;
    }
    ExtendsItself(s1);
    if execute {
      store.Apply(Target(Members(ids)));
    }
    ghost var s2 := store.state;
    store.Interfere();
    ExtendsTransitive(s0, s1, s2);
    ExtendsTransitive(s0, s2, store.state);
    AtPrefix(store.start, before, store.log, at);
    if execute {
      store.Positions(before, Target(Members(ids)));
      TargetsStay(s2, store.state, ids, {});
    }
    return Success(ids), at;
  }

  lemma TargetsStay(s: State, t: State, ids: seq<Id>, gone: set<Id>)
    requires Extends(s, t)
    ensures AreTargets(s, ids) ==> AreTargets(t, ids)
    ensures AreDeleted(s, gone) ==> AreDeleted(t, gone)
  {
  }

  lemma TargetStays(s: State, t: State, id: Id)
    requires Extends(s, t) && id in s.targeted && id in s.rows
    ensures id in t.targeted && id in t.rows && (s.rows[id].deleted ==> t.rows[id].deleted)
  {
  }

  /** Deletes the blobs of one targeted set, its manifest last, and marks its row; a set with more
    * tiles than one listing holds is left alone. */
  method ExecuteTileSetCleanup(store: TileService, id: Id, blobLimit: nat)
    returns (r: Result<CleanupOutcome, RetentionError>, ghost lost: set<Blob>)
    requires store.Valid() && id in store.state.targeted && id in store.state.rows
    modifies store
    ensures store.Valid() && old(store.log) <= store.log && Extends(old(store.state), store.state)
    ensures r == Success(Deleted) ==> id in store.state.rows && store.state.rows[id].deleted
    ensures store.alone && r == Success(Deleted) ==>
      && Fits(old(store.state), id, blobLimit) && IsMarkable(old(store.state), id)
      && store.state == CleanSet(old(store.state), id, blobLimit)
    ensures store.alone && r == Success(Skipped) ==>
      !Fits(old(store.state), id, blobLimit) && store.state == old(store.state)
    ensures store.alone && r.Failure? ==> FailsPartway(old(store.state), store.state, id, lost, blobLimit)
  {
    hide Run, TileService.Valid, Extends, FailsPartway, IsMarkable, CleanSet, Step;
    lost := {};
    ghost var s0 := store.state;
    store.Interfere();
    ghost var s1 := store.state;
    TargetStays(s0, s1, id);
    var listed := TileBlobsOf(store.state, id);
    if |listed| > blobLimit {
      return Success(Skipped), lost;
    }
    var deleted;
    deleted, lost := DeleteBlobs(store, id, listed);
    ghost var s2 := store.state;
    ExtendsTransitive(s0, s1, s2);
    TargetStays(s1, s2, id);
    if !deleted {
      Partway(s1, store.state, id, lost, blobLimit);
      return Failure(BlobStore), lost;
    }
    r := DeleteManifestAndMark(store, id);
    ExtendsTransitive(s0, s2, store.state);
    lost := if ManifestBlob(id) in store.state.blobs then listed else listed + {ManifestBlob(id)};
    if store.alone {
      TileBlobsFirst(s1, s2, store.state, id, blobLimit);
      Partway(s1, store.state, id, lost, blobLimit);
    }
  }

  /** The end of the cleanup of a set whose tiles are deleted. */
  method DeleteManifestAndMark(store: TileService, id: Id) returns (r: Result<CleanupOutcome, RetentionError>)
    requires store.Valid() && id in store.state.targeted && id in store.state.rows
    modifies store
    ensures store.Valid() && old(store.log) <= store.log && Extends(old(store.state), store.state)
    ensures r.Success? ==> r.value == Deleted && id in store.state.rows && store.state.rows[id].deleted
    ensures store.alone && r.Success? ==>
      IsMarkable(old(store.state), id) && store.state == MarkedWithout(old(store.state), id)
    ensures store.alone ==>
      || store.state == old(store.state)
      || store.state == old(store.state).(blobs := old(store.state).blobs - {ManifestBlob(id)})
      || (id in old(store.state).rows && store.state == MarkedWithout(old(store.state), id))
  {
    hide Run, TileService.Valid, Extends, At;
    ghost var s0 := store.state;
    var ok := store.Execute(DeleteBlob(ManifestBlob(id)));
    ghost var s1 := store.state;
    TargetStays(s0, s1, id);
    if !ok {
      return Failure(BlobStore);
    }
    ghost var at;
    ok, at := MarkRetentionDeleted(store, id);
    ExtendsTransitive(s0, s1, store.state);
    return if ok then Success(Deleted) else Failure(RetentionError.Database);
  }

  function MarkedWithout(s: State, id: Id): State
    requires id in s.rows
  {
    s.(blobs := s.blobs - {ManifestBlob(id)}, rows := s.rows[id := s.rows[id].(deleted := true)])
  }

  lemma TileBlobsFirst(s: State, u: State, t: State, id: Id, blobLimit: nat)
    requires id in s.rows && Fits(s, id, blobLimit) && u == s.(blobs := s.blobs - TileBlobsOf(s, id))
    ensures MarkedWithout(u, id) == CleanSet(s, id, blobLimit) && IsMarkable(u, id) == IsMarkable(s, id)
    ensures t == u || t == u.(blobs := u.blobs - {ManifestBlob(id)}) ==>
              var tiles := TileBlobsOf(s, id);
              t == s.(blobs := s.blobs - if ManifestBlob(id) in t.blobs then tiles else tiles + {ManifestBlob(id)})
  {
    assert u.blobs - {ManifestBlob(id)} == s.blobs - (TileBlobsOf(s, id) + {ManifestBlob(id)});
    if ManifestBlob(id) !in u.blobs {
      assert u.blobs == u.blobs - {ManifestBlob(id)};
    }
  }

  /** A cleanup of the set that fails leaves it without some of its blobs, or as if it had succeeded. */
  ghost predicate FailsPartway(s: State, t: State, id: Id, lost: set<Blob>, blobLimit: nat) {
    && Fits(s, id, blobLimit) && (forall b | b in lost :: b.id == id)
    && (t == s.(blobs := s.blobs - lost) || t == CleanSet(s, id, blobLimit))
  }

  lemma Partway(s: State, t: State, id: Id, lost: set<Blob>, blobLimit: nat)
    requires Fits(s, id, blobLimit) && forall b | b in lost :: b.id == id
    ensures t == s.(blobs := s.blobs - lost) || t == CleanSet(s, id, blobLimit)
            ==> FailsPartway(s, t, id, lost, blobLimit)
  {
  }

  method DeleteBlobs(store: TileService, id: Id, listed: set<Blob>) returns (ok: bool, ghost lost: set<Blob>)
    requires store.Valid() && id in store.state.targeted && id in store.state.rows
    requires forall b | b in listed :: b.id == id
    modifies store
    ensures store.Valid() && old(store.log) <= store.log && Extends(old(store.state), store.state)
    ensures lost <= listed && (ok ==> lost == listed)
    ensures store.alone ==> store.state == old(store.state).(blobs := old(store.state).blobs - lost)
  {
    hide Run, TileService.Valid, Extends;
    ghost var s0 := store.state;
    ExtendsItself(s0);
    var left := listed;
    while left != {}
      invariant store.Valid() && old(store.log) <= store.log && Extends(s0, store.state) && left <= listed
      invariant id in store.state.targeted && id in store.state.rows
      invariant store.alone ==> store.state == s0.(blobs := s0.blobs - (listed - left))
      decreases |left|
    {
      var b :| b in left;
      ghost var s := store.state;
      ok := store.Execute(DeleteBlob(b));
      ExtendsTransitive(s0, s, store.state);
      TargetStays(s, store.state, id);
      if !ok {
        lost := if b in store.state.blobs then listed - left else listed - left + {b};
        return false, lost;
      }
      assert s0.blobs - (listed - left) - {b} == s0.blobs - (listed - (left - {b}));
      left := left - {b};
    }
    assert listed - {} == listed;
    return true, listed;
  }

  /** The guarded update: a success found the set neither latest nor marked, at one moment of the log. */
  method MarkRetentionDeleted(store: TileService, id: Id) returns (ok: bool, ghost at: nat)
    requires store.Valid() && id in store.state.targeted && id in store.state.rows
    modifies store
    ensures store.Valid() && old(store.log) <= store.log && Extends(old(store.state), store.state)
    ensures ok ==>
      && |old(store.log)| <= at < |store.log| && store.log[at] == MarkDeleted(id)
      && IsMarkable(At(store.start, store.log, at), id)
      && id in store.state.rows && store.state.rows[id].deleted
    ensures store.alone && ok ==> IsMarkable(old(store.state), id)
    ensures store.alone ==>
      store.state == Step(old(store.state), MarkDeleted(id)) || (!ok && store.state == old(store.state))
  {
    hide Run, TileService.Valid, Extends, At, Step, Enabled;
    ghost var s0 := store.state;
    store.Interfere();
    ghost var s1, before := store.state, store.log;
    store.StateIsRun();
    at := |before|;
    TargetStays(s0, s1, id);
    ExtendsItself(s1);
    var affected := !store.state.rows[id].latest && !store.state.rows[id].deleted;
    var reported: bool := *;
    var applied: bool := *;
    if reported || applied {
      store.Apply(MarkDeleted(id));
      MarkedNow(s1, id);
    }
    ghost var s2 := store.state;
    store.Interfere();
    ExtendsTransitive(s0, s1, s2);
    ExtendsTransitive(s0, s2, store.state);
    TargetStays(s2, store.state, id);
    if reported {
      store.Positions(before, MarkDeleted(id));
    }
    return reported && affected, at;
  }

  predicate IsMarkable(s: State, id: Id) {
    id in s.rows && !s.rows[id].latest && !s.rows[id].deleted
  }

  lemma MarkedNow(s: State, id: Id)
    requires id in s.targeted && id in s.rows
    ensures
      var t := Step(s, MarkDeleted(id));
      && id in t.rows && id in t.targeted && (IsMarkable(s, id) ==> t.rows[id].deleted)
      && (!IsMarkable(s, id) ==> t == s)
  {
  }


  /** What a cleanup that nobody disturbs makes of the selected sets: those whose tiles fit one
    * listing lose their blobs and are marked, the others are left as they are. */
  function CleanSets(s: State, ids: seq<Id>, blobLimit: nat): State {
    if ids == [] then s else CleanSet(CleanSets(s, ids[..|ids| - 1], blobLimit), ids[|ids| - 1], blobLimit)
  }

  /** One listing shows all tiles of the set. */
  predicate Fits(s: State, id: Id, blobLimit: nat) {
    |TileBlobsOf(s, id)| <= blobLimit
  }

  function CleanSet(s: State, id: Id, blobLimit: nat): State {
    if id !in s.rows || !Fits(s, id, blobLimit) then s
    else s.(blobs := s.blobs - TileBlobsOf(s, id) - {ManifestBlob(id)},
            rows := s.rows[id := s.rows[id].(deleted := true)])
  }

  /** The sets that the first n steps of such a cleanup take apart. */
  function Cleaned(s: State, ids: seq<Id>, blobLimit: nat): set<Id> {
    set id | id in ids && |TileBlobsOf(s, id)| <= blobLimit
  }

  /** What happens while nothing is published: time passes, or an executing run works on a batch.
    * It may stop early, having dealt with the first done sets and lost some blobs of the next one. */
  datatype Turn = Wait(seconds: nat) | Cleanup(ids: seq<Id>, done: nat, lost: set<Blob>)

  ghost predicate IsTurn(s: State, turn: Turn, batchLimit: nat, blobLimit: nat) {
    match turn
    case Wait(_) => true
    case Cleanup(ids, done, lost) =>
      && IsBatch(s, batchLimit, ids) && done <= |ids|
      && (lost != {} ==> done < |ids| && Fits(s, ids[done], blobLimit) && forall b | b in lost :: b.id == ids[done])
  }

  predicate IsComplete(turn: Turn) {
    turn.Cleanup? && turn.done == |turn.ids| && turn.lost == {}
  }

  function After(s: State, turn: Turn, blobLimit: nat): State {
    match turn
    case Wait(seconds) => s.(now := s.now + seconds)
    case Cleanup(ids, done, lost) =>
      var chosen := s.(targeted := s.targeted + Members(ids));
      var t := CleanSets(chosen, if done <= |ids| then ids[..done] else ids, blobLimit);
      t.(blobs := t.blobs - lost)
  }

  /** The sets gone have lost their blobs and are marked, and nothing else is touched. */
  ghost predicate OnlyGone(s: State, t: State, gone: set<Id>) {
    && t == s.(blobs := t.blobs, rows := t.rows)
    && t.blobs == (set b | b in s.blobs && b.id !in gone)
    && t.rows == (map id | id in s.rows :: if id in gone then s.rows[id].(deleted := true) else s.rows[id])
  }

  /** Every selected set that fits is gone; the sets that do not fit, those not selected and the
    * other tables are as before. */
  lemma {:induction false} CleanSetsEffect(s: State, ids: seq<Id>, blobLimit: nat)
    requires forall i | 0 <= i < |ids| :: ids[i] in s.rows
    ensures OnlyGone(s, CleanSets(s, ids, blobLimit), Cleaned(s, ids, blobLimit))
  {
    hide OnlyGone, CleanSet;
    if ids == [] {
      NothingGone(s, Cleaned(s, ids, blobLimit));
    } else {
      var last, fewer := ids[|ids| - 1], ids[..|ids| - 1];
      CleanSetsEffect(s, fewer, blobLimit);
      var gone := Cleaned(s, fewer, blobLimit);
      assert ids == fewer + [last];
      OneMoreGone(s, CleanSets(s, fewer, blobLimit), gone, last, blobLimit);
      assert Cleaned(s, ids, blobLimit) == gone + if |TileBlobsOf(s, last)| <= blobLimit then {last} else {};
      assert last in gone ==> |TileBlobsOf(s, last)| <= blobLimit;
    }
  }

  lemma NothingGone(s: State, gone: set<Id>)
    requires gone == {}
    ensures OnlyGone(s, s, gone)
  {
    assert s.blobs == set b | b in s.blobs && b.id !in gone;
  }

  lemma OneMoreGone(s: State, t: State, gone: set<Id>, id: Id, blobLimit: nat)
    requires OnlyGone(s, t, gone) && id in s.rows && (id in gone ==> |TileBlobsOf(s, id)| <= blobLimit)
    ensures OnlyGone(s, CleanSet(t, id, blobLimit), gone + if |TileBlobsOf(s, id)| <= blobLimit then {id} else {})
  {
    TilesAfter(s, t, gone, id);
    hide TileBlobsOf;
    var u := CleanSet(t, id, blobLimit);
    if |TileBlobsOf(s, id)| <= blobLimit {
      OwnBlobs(t, id);
      assert u.blobs == set b | b in s.blobs && b.id !in gone + {id};
      assert u.rows == map i | i in s.rows :: if i in gone + {id} then s.rows[i].(deleted := true) else s.rows[i];
    } else {
      assert gone + {} == gone;
    }
  }

  lemma TilesAfter(s: State, t: State, gone: set<Id>, id: Id)
    requires OnlyGone(s, t, gone)
    ensures TileBlobsOf(t, id) == if id in gone then {} else TileBlobsOf(s, id)
  {
  }

  lemma OwnBlobs(s: State, id: Id)
    ensures s.blobs - TileBlobsOf(s, id) - {ManifestBlob(id)} == set b | b in s.blobs && b.id != id
  {
    forall b | b in s.blobs && b.id == id ensures b in TileBlobsOf(s, id) || b == ManifestBlob(id) {
      match b {
        case TileBlob(_, _) =>
        case ManifestBlob(_) =>
      }
    }
  }

  /** One cleanup run; a dry run only selects.  The sets counted as deleted are marked, and a run
    * that nobody disturbs takes apart exactly the selected sets that fit.  A run that fails and that
    * nobody disturbs is a turn that stops early. */
  method RunRetentionCleanup(store: TileService, execute: bool, batchLimit: nat, blobLimit: nat)
    returns (r: Result<RetentionSummary, RetentionError>, ghost selected: seq<Id>, ghost at: nat, ghost gone: set<Id>,
             ghost turn: Turn)
    requires store.Valid()
    modifies store
    ensures store.Valid() && old(store.log) <= store.log && Extends(old(store.state), store.state) && Inv(store.state)
    ensures r.Success? ==>
      && |old(store.log)| <= at <= |store.log| && IsBatch(At(store.start, store.log, at), batchLimit, selected)
      && r.value.selected == |selected| <= batchLimit && r.value.deleted == |gone| && gone <= Members(selected)
      && AreDeleted(store.state, gone)
      && r.value.deleted + r.value.skipped == if execute then |selected| else 0
    ensures !execute ==> store.issued == old(store.issued) && (store.alone ==> store.state == old(store.state))
    ensures store.alone && execute && r.Success? ==>
      var chosen := old(store.state).(targeted := old(store.state).targeted + Members(selected));
      && IsBatch(old(store.state), batchLimit, selected)
      && gone == Cleaned(chosen, selected, blobLimit) && store.state == CleanSets(chosen, selected, blobLimit)
    ensures store.alone && execute ==>
      && IsTurn(old(store.state), turn, batchLimit, blobLimit)
      && store.state == After(old(store.state), turn, blobLimit)
      && (r.Success? ==> turn == Cleanup(selected, |selected|, {}))
  {
    hide After, IsTurn;
    hide Run, TileService.Valid, Extends, IsBatch, Inv, At, CleanSets, Cleaned;
    ghost var first := store.state;
    gone, turn := {}, Wait(0);
    NothingHappens(first, batchLimit, blobLimit);
    var candidates;
    candidates, at := SelectCandidates(store, execute, batchLimit);
    ghost var before, s0 := store.log, store.state;
    store.SafeNow();
    if candidates.Failure? {
      return Failure(RetentionError.Database), [], at, gone, turn;
    }
    selected := candidates.value;
    BatchIsDistinct(At(store.start, store.log, at), batchLimit, selected);
    ghost var done, lost;
    r, gone, done, lost := CleanCandidates(store, execute, candidates.value, blobLimit);
    turn := Cleanup(selected, done, lost);
    if store.alone && execute {
      RunIsTurn(first, s0, store.state, selected, done, lost, batchLimit, blobLimit);
    }
    store.SafeNow();
    ExtendsTransitive(first, s0, store.state);
    AtPrefix(store.start, before, store.log, at);
  }

  lemma NothingHappens(s: State, batchLimit: nat, blobLimit: nat)
    ensures IsTurn(s, Wait(0), batchLimit, blobLimit) && After(s, Wait(0), blobLimit) == s
  {
  }

  lemma RunIsTurn(s: State, u: State, t: State, ids: seq<Id>, done: nat, lost: set<Blob>,
                  batchLimit: nat, blobLimit: nat)
    requires IsBatch(s, batchLimit, ids) && u == s.(targeted := s.targeted + Members(ids))
    requires StopsAt(u, t, ids, done, lost, blobLimit)
    ensures IsTurn(s, Cleanup(ids, done, lost), batchLimit, blobLimit)
    ensures t == After(s, Cleanup(ids, done, lost), blobLimit)
  {
    hide IsBatch, CleanSets;
    if lost != {} {
      assert TileBlobsOf(u, ids[done]) == TileBlobsOf(s, ids[done]);
    }
  }

  /** The first done sets are dealt with, and the next one, if it fits, has lost some blobs. */
  ghost predicate StopsAt(s: State, t: State, ids: seq<Id>, done: nat, lost: set<Blob>, blobLimit: nat) {
    && done <= |ids|
    && (lost != {} ==> done < |ids| && Fits(s, ids[done], blobLimit) && forall b | b in lost :: b.id == ids[done])
    && var u := CleanSets(s, ids[..done], blobLimit);
       t == u.(blobs := u.blobs - lost)
  }

  method CleanCandidates(store: TileService, execute: bool, candidates: seq<Id>, blobLimit: nat)
    returns (r: Result<RetentionSummary, RetentionError>, ghost gone: set<Id>, ghost done: nat, ghost lost: set<Blob>)
    requires store.Valid() && forall j, k | 0 <= j < k < |candidates| :: candidates[j] != candidates[k]
    requires execute ==> AreTargets(store.state, candidates)
    modifies store
    ensures store.Valid() && old(store.log) <= store.log && Extends(old(store.state), store.state)
    ensures gone <= Members(candidates) && AreDeleted(store.state, gone)
    ensures r.Success? ==>
      && r.value.selected == |candidates| && r.value.deleted == |gone|
      && r.value.deleted + r.value.skipped == if execute then |candidates| else 0
    ensures !execute ==> store.state == old(store.state) && store.issued == old(store.issued)
    ensures store.alone && execute && r.Success? ==>
      && gone == Cleaned(old(store.state), candidates, blobLimit)
      && store.state == CleanSets(old(store.state), candidates, blobLimit)
      && done == |candidates| && lost == {}
    ensures store.alone && execute ==> StopsAt(old(store.state), store.state, candidates, done, lost, blobLimit)
  {
    hide Run, TileService.Valid, Extends, StopsAt, FailsPartway, CleanSets, Cleaned, AreTargets, AreDeleted;
    hide TileBlobsOf, Step, Members;
    ghost var s0 := store.state;
    gone, done, lost := {}, 0, {};
    NothingCleaned(s0, candidates, blobLimit);
    ExtendsItself(s0);
    var summary := RetentionSummary(|candidates|, 0, 0);
    for i := 0 to |candidates|
      invariant store.Valid() && old(store.log) <= store.log && Extends(s0, store.state)
      invariant execute ==> AreTargets(store.state, candidates)
      invariant summary.selected == |candidates| && summary.deleted == |gone|
      invariant summary.deleted + summary.skipped == if execute then i else 0
      invariant gone <= Members(candidates[..i]) && AreDeleted(store.state, gone)
      invariant !execute ==> store.state == s0 && store.issued == old(store.issued)
      invariant execute && store.alone ==>
        store.state == CleanSets(s0, candidates[..i], blobLimit) && gone == Cleaned(s0, candidates[..i], blobLimit)
    {
      MembersGrow(candidates, i);
      if execute {
        ghost var s := store.state;
        TargetOf(s, candidates, i);
        var outcome;
        outcome, lost := ExecuteTileSetCleanup(store, candidates[i], blobLimit);
        ExtendsTransitive(s0, s, store.state);
        TargetsStay(s, store.state, candidates, gone);
        CleanNext(s0, candidates, i, blobLimit);
        if outcome.Failure? {
          done := i;
          if store.alone {
            done, lost := StopsPartway(s0, s, store.state, candidates, i, lost, blobLimit);
          }
          return Failure(outcome.error), gone, done, lost;
        }
        match outcome.value {
          case Deleted =>
            OneMoreDeleted(store.state, gone, candidates, i);
            summary := summary.(deleted := summary.deleted + 1);
            gone := gone + {candidates[i]};
          case Skipped => summary := summary.(skipped := summary.skipped + 1);
        }
      }
    }
    assert candidates[..|candidates|] == candidates;
    AllDone(s0, candidates, blobLimit);
    return Success(summary), gone, |candidates|, {};
  }

  lemma AllDone(s: State, ids: seq<Id>, blobLimit: nat)
    ensures StopsAt(s, CleanSets(s, ids, blobLimit), ids, |ids|, {}, blobLimit)
  {
    assert ids[..|ids|] == ids;
    hide CleanSets;
    assert CleanSets(s, ids, blobLimit).blobs - {} == CleanSets(s, ids, blobLimit).blobs;
  }

  lemma StopsPartway(s: State, u: State, t: State, ids: seq<Id>, i: nat, lost: set<Blob>, blobLimit: nat)
    returns (done: nat, left: set<Blob>)
    requires i < |ids| && AreTargets(s, ids) && forall j, k | 0 <= j < k < |ids| :: ids[j] != ids[k]
    requires u == CleanSets(s, ids[..i], blobLimit) && FailsPartway(u, t, ids[i], lost, blobLimit)
    ensures StopsAt(s, t, ids, done, left, blobLimit)
  {
    CleanNext(s, ids, i, blobLimit);
    hide CleanSets, CleanSet, Cleaned, TileBlobsOf;
    if t == u.(blobs := u.blobs - lost) {
      done, left := i, lost;
    } else {
      done, left := i + 1, {};
      assert t.blobs - {} == t.blobs;
    }
  }


  predicate AreTargets(s: State, ids: seq<Id>) {
    forall i | 0 <= i < |ids| :: ids[i] in s.targeted && ids[i] in s.rows
  }

  predicate AreDeleted(s: State, ids: set<Id>) {
    forall id | id in ids :: id in s.rows && s.rows[id].deleted
  }

  lemma TargetOf(s: State, ids: seq<Id>, i: nat)
    requires AreTargets(s, ids) && i < |ids|
    ensures ids[i] in s.targeted && ids[i] in s.rows
  {
  }

  lemma MembersGrow(ids: seq<Id>, n: nat)
    requires n < |ids| && forall j, k | 0 <= j < k < |ids| :: ids[j] != ids[k]
    ensures Members(ids[..n + 1]) == Members(ids[..n]) + {ids[n]} && ids[n] !in Members(ids[..n])
    ensures Members(ids[..n]) <= Members(ids)
  {
    assert ids[..n + 1] == ids[..n] + [ids[n]];
    assert forall id | id in ids[..n] :: id in ids;
  }

  lemma OneMoreDeleted(s: State, gone: set<Id>, ids: seq<Id>, i: nat)
    requires i < |ids| && AreDeleted(s, gone) && ids[i] in s.rows && s.rows[ids[i]].deleted
    ensures AreDeleted(s, gone + {ids[i]})
  {
  }

  lemma NothingCleaned(s: State, ids: seq<Id>, blobLimit: nat)
    ensures CleanSets(s, ids[..0], blobLimit) == s && Cleaned(s, ids[..0], blobLimit) == {}
    ensures AreDeleted(s, {})
  {
  }

  lemma CleanNext(s: State, ids: seq<Id>, i: nat, blobLimit: nat)
    requires i < |ids| && AreTargets(s, ids)
    requires forall j, k | 0 <= j < k < |ids| :: ids[j] != ids[k]
    ensures
      var t, gone := CleanSets(s, ids[..i], blobLimit), Cleaned(s, ids[..i], blobLimit);
      && ids[i] !in gone && ids[i] in t.rows
      && CleanSets(s, ids[..i + 1], blobLimit) == CleanSet(t, ids[i], blobLimit)
      && Cleaned(s, ids[..i + 1], blobLimit)
         == gone + if |TileBlobsOf(t, ids[i])| <= blobLimit then {ids[i]} else {}
    ensures Fits(CleanSets(s, ids[..i], blobLimit), ids[i], blobLimit) == Fits(s, ids[i], blobLimit)
  {
    hide CleanSet;
    CleanSetsEffect(s, ids[..i], blobLimit);
    assert ids[..i + 1][..i] == ids[..i] && ids[..i + 1] == ids[..i] + [ids[i]];
    TilesAfter(s, CleanSets(s, ids[..i], blobLimit), Cleaned(s, ids[..i], blobLimit), ids[i]);
    assert Cleaned(s, ids[..i + 1], blobLimit)
        == Cleaned(s, ids[..i], blobLimit) + if |TileBlobsOf(s, ids[i])| <= blobLimit then {ids[i]} else {};
  }

  lemma BatchIsDistinct(s: State, limit: nat, ids: seq<Id>)
    requires IsBatch(s, limit, ids)
    ensures |ids| <= limit && forall i, j | 0 <= i < j < |ids| :: ids[i] != ids[j]
  {
  }

  /** The candidate query always has an answer. */
  lemma BatchExists(s: State, limit: nat) returns (ids: seq<Id>)
    ensures IsBatch(s, limit, ids)
  {
    hide Older;
    var all := OldestFirst(s.rows, set id | id in s.rows && IsCandidate(s, id));
    ids := if |all| <= limit then all else all[..limit];
    forall id | id in s.rows && IsCandidate(s, id) && id !in ids
      ensures |ids| == limit && forall i | 0 <= i < |ids| :: Older(s.rows, ids[i], id)
    {
      assert id in Members(all);
      var j :| 0 <= j < |all| && all[j] == id;
    }
    forall i | 0 <= i < |ids| ensures ids[i] in s.rows && IsCandidate(s, ids[i]) {
      assert ids[i] in Members(all);
    }
  }

  lemma {:induction false} OldestFirst(rows: map<Id, Row>, ids: set<Id>) returns (s: seq<Id>)
    requires forall id | id in ids :: id in rows
    ensures Members(s) == ids && forall i | 0 <= i < |s| :: s[i] in rows
    ensures forall i, j | 0 <= i < j < |s| :: Older(rows, s[i], s[j])
    decreases |ids|
  {
    hide Older;
    if ids == {} {
      s := [];
    } else {
      var z := Newest(rows, ids);
      var rest := OldestFirst(rows, ids - {z});
      assert forall i | 0 <= i < |rest| :: rest[i] in Members(rest);
      s := rest + [z];
      assert Members(s) == Members(rest) + {z};
    }
  }
}
