/** Retention over many cleanup runs: which tile sets they ever take apart, and how soon
  * (backend/processing-svc/src/retention.rs, backend/processing-svc/src/db.rs). */
module CleanupRuns {
  import opened Wrappers
  import opened TileStore
  import opened Retention

  // ------------------------------------------------------------------------ what keeps a set

  /** The set is the latest one, or among the protected newest live sets of its version. */
  predicate IsProtected(s: State, id: Id)
    requires id in s.rows
  {
    s.rows[id].latest || |NewerLive(s.rows, id)| <= s.protectedPrior
  }

  /** The set is a candidate once it is old enough. */
  predicate IsObsolete(s: State, id: Id)
    requires id in s.rows
  {
    !s.rows[id].deleted && !IsProtected(s, id)
  }

  predicate IsOldEnough(s: State, id: Id)
    requires id in s.rows
  {
    s.rows[id].createdAt + s.retentionDays * DAY < s.now
  }

  /** The sets that come before id in every batch and never leave it: they hold more tiles than one
    * listing shows, so each run skips them. */
  function Blockers(s: State, id: Id, blobLimit: nat): set<Id>
    requires id in s.rows
  {
    set q | q in s.rows && IsObsolete(s, q) && Older(s.rows, q, id) && !Fits(s, q, blobLimit)
  }

  /** The sets that come before id in a batch until a run deletes them. */
  function Ahead(s: State, id: Id, blobLimit: nat): set<Id>
    requires id in s.rows
  {
    set q | q in s.rows && IsObsolete(s, q) && Older(s.rows, q, id) && Fits(s, q, blobLimit)
  }

  /** Cleanup takes the set apart sooner or later. */
  predicate CanGo(s: State, id: Id, batchLimit: nat, blobLimit: nat)
    requires id in s.rows
  {
    IsObsolete(s, id) && Fits(s, id, blobLimit) && |Blockers(s, id, blobLimit)| < batchLimit
  }

  // ------------------------------------------------------------------------------- one turn

  /** From s to t only blobs of chosen sets that fit are lost, and only such sets are marked; each of
    * them has more newer live sets than are protected. */
  ghost predicate Takes(s: State, t: State, chosen: set<Id>, blobLimit: nat) {
    && t == s.(blobs := t.blobs, rows := t.rows, targeted := t.targeted, now := t.now) && s.now <= t.now
    && (forall id | id in chosen :: id in s.rows && |NewerLive(s.rows, id)| > s.protectedPrior)
    && t.rows.Keys == s.rows.Keys
    && (forall id | id in s.rows ::
          || t.rows[id] == s.rows[id]
          || (id in chosen && Fits(s, id, blobLimit) && t.rows[id] == s.rows[id].(deleted := true)))
    && t.blobs <= s.blobs
    && (forall b | b in s.blobs && b !in t.blobs :: b.id in chosen && Fits(s, b.id, blobLimit))
  }

  /** The set is taken apart: its row is marked, and no blob of it is left. */
  ghost predicate IsGone(s: State, id: Id) {
    id in s.rows && s.rows[id].deleted && forall b | b in s.blobs :: b.id != id
  }

  function Chosen(turn: Turn): set<Id> {
    match turn
    case Wait(_) => {}
    case Cleanup(ids, _, _) => Members(ids)
  }

  lemma TurnTakes(s: State, turn: Turn, batchLimit: nat, blobLimit: nat)
    requires IsTurn(s, turn, batchLimit, blobLimit)
    ensures Takes(s, After(s, turn, blobLimit), Chosen(turn), blobLimit)
    ensures forall id | id in s.rows && After(s, turn, blobLimit).rows[id] != s.rows[id] ::
              IsGone(After(s, turn, blobLimit), id)
  {
    if turn.Cleanup? {
      forall id | id in turn.ids ensures id in s.rows && |NewerLive(s.rows, id)| > s.protectedPrior {
        CandidateExactly(s, id);
      }
      hide IsCandidate, Fits, CleanSets, Older, NewerLive;
      var u := s.(targeted := s.targeted + Members(turn.ids));
      var done := turn.ids[..turn.done];
      CleanSetsEffect(u, done, blobLimit);
      SameFits(s, u, blobLimit);
      GoneTakes(s, u, CleanSets(u, done, blobLimit), done, turn.ids, turn.lost, blobLimit);
    }
  }

  lemma SameFits(s: State, t: State, blobLimit: nat)
    requires t.blobs == s.blobs
    ensures forall id :: Fits(t, id, blobLimit) == Fits(s, id, blobLimit)
  {
    forall id ensures Fits(t, id, blobLimit) == Fits(s, id, blobLimit) {
      assert TileBlobsOf(t, id) == TileBlobsOf(s, id);
    }
  }

  lemma GoneTakes(s: State, u: State, t: State, done: seq<Id>, ids: seq<Id>, lost: set<Blob>, blobLimit: nat)
    requires u == s.(targeted := u.targeted) && OnlyGone(u, t, Cleaned(u, done, blobLimit)) && done <= ids
    requires forall id | id in ids :: id in s.rows && |NewerLive(s.rows, id)| > s.protectedPrior
    requires forall b | b in lost :: b.id in ids && Fits(s, b.id, blobLimit)
    ensures Takes(s, t.(blobs := t.blobs - lost), Members(ids), blobLimit)
    ensures forall id | id in s.rows && t.rows[id] != s.rows[id] :: IsGone(t.(blobs := t.blobs - lost), id)
  {
    SameFits(s, u, blobLimit);
    forall id | id in Cleaned(u, done, blobLimit) ensures id in ids && Fits(s, id, blobLimit) {
      CleanedFits(u, done, blobLimit, id);
    }
    hide Fits, Cleaned, NewerLive;
  }

  lemma CleanedFits(s: State, ids: seq<Id>, blobLimit: nat, id: Id)
    ensures id in Cleaned(s, ids, blobLimit) <==> id in ids && Fits(s, id, blobLimit)
  {
  }

  /** A protected set stays protected, and an unprotected one does not become protected: the
    * selected sets leave behind enough newer ones. */
  lemma ProtectionStays(s: State, t: State, chosen: set<Id>, blobLimit: nat, id: Id)
    requires Takes(s, t, chosen, blobLimit) && id in s.rows
    ensures id in t.rows && IsProtected(t, id) == IsProtected(s, id)
  {
    hide Fits;
    NewerLiveShrinks(s, t, chosen, blobLimit, id);
    SubsetSize(NewerLive(t.rows, id), NewerLive(s.rows, id));
    if |NewerLive(s.rows, id)| > s.protectedPrior {
      var safe := EnoughSafe(s.rows, chosen + {id}, s.protectedPrior + 1, id);
      SafeStaysLive(s, t, chosen, blobLimit, id, safe);
      SubsetSize(safe, NewerLive(t.rows, id));
    }
  }

  lemma NewerLiveShrinks(s: State, t: State, chosen: set<Id>, blobLimit: nat, id: Id)
    requires Takes(s, t, chosen, blobLimit) && id in s.rows
    ensures NewerLive(t.rows, id) <= NewerLive(s.rows, id)
  {
    hide Fits, IsCandidate;
  }

  lemma SafeStaysLive(s: State, t: State, chosen: set<Id>, blobLimit: nat, id: Id, safe: set<Id>)
    requires Takes(s, t, chosen, blobLimit) && id in s.rows
    requires safe <= NewerLive(s.rows, id) && forall j | j in safe :: j !in chosen
    ensures safe <= NewerLive(t.rows, id)
  {
    hide Fits, IsCandidate;
  }

  lemma FitsStays(s: State, t: State, chosen: set<Id>, blobLimit: nat, id: Id)
    requires Takes(s, t, chosen, blobLimit)
    ensures Fits(t, id, blobLimit) == Fits(s, id, blobLimit)
  {
    hide IsCandidate;
    assert TileBlobsOf(t, id) <= TileBlobsOf(s, id);
    SubsetSize(TileBlobsOf(t, id), TileBlobsOf(s, id));
    if !Fits(s, id, blobLimit) {
      assert TileBlobsOf(t, id) == TileBlobsOf(s, id);
    }
  }

  lemma OrderStays(s: State, t: State, chosen: set<Id>, blobLimit: nat, a: Id, b: Id)
    requires Takes(s, t, chosen, blobLimit) && a in s.rows && b in s.rows
    ensures a in t.rows && b in t.rows && Older(t.rows, a, b) == Older(s.rows, a, b)
    ensures !Fits(s, a, blobLimit) || a !in chosen ==> t.rows[a] == s.rows[a]
    ensures s.rows[a].deleted ==> t.rows[a].deleted
  {
    hide IsCandidate, Fits;
  }

  lemma BlockersStay(s: State, t: State, chosen: set<Id>, blobLimit: nat, id: Id)
    requires Takes(s, t, chosen, blobLimit) && id in s.rows
    ensures id in t.rows && Blockers(t, id, blobLimit) == Blockers(s, id, blobLimit)
    ensures Ahead(t, id, blobLimit) <= Ahead(s, id, blobLimit)
  {
    hide Fits, IsProtected, IsCandidate, Older;
    forall q | q in s.rows
      ensures q in t.rows && Fits(t, q, blobLimit) == Fits(s, q, blobLimit)
      ensures id in t.rows && Older(t.rows, q, id) == Older(s.rows, q, id)
      ensures IsObsolete(t, q) ==> IsObsolete(s, q)
      ensures !Fits(s, q, blobLimit) ==> IsObsolete(t, q) == IsObsolete(s, q)
    {
      FitsStays(s, t, chosen, blobLimit, q);
      OrderStays(s, t, chosen, blobLimit, q, id);
      ProtectionStays(s, t, chosen, blobLimit, q);
    }
    hide IsObsolete;
  }

  // ------------------------------------------------------------------------- sequences of turns

  function AfterAll(s: State, turns: seq<Turn>, blobLimit: nat): State {
    if turns == [] then s else After(AfterAll(s, turns[..|turns| - 1], blobLimit), turns[|turns| - 1], blobLimit)
  }

  /** Each cleanup run works on an answer to the candidate query of its moment. */
  ghost predicate AreTurns(s: State, turns: seq<Turn>, batchLimit: nat, blobLimit: nat) {
    turns != [] ==>
      var before := turns[..|turns| - 1];
      && AreTurns(s, before, batchLimit, blobLimit)
      && IsTurn(AfterAll(s, before, blobLimit), turns[|turns| - 1], batchLimit, blobLimit)
  }

  // ---------------------------------------------------------------------- sets that never go

  lemma CandidateExactly(s: State, id: Id)
    requires id in s.rows
    ensures IsCandidate(s, id) <==> IsObsolete(s, id) && IsOldEnough(s, id)
  {
  }

  lemma OlderIsOldEnough(s: State, a: Id, b: Id)
    requires a in s.rows && b in s.rows && Older(s.rows, a, b) && IsOldEnough(s, b)
    ensures IsOldEnough(s, a)
  {
  }

  /** If a batch holds the set, it holds every candidate that comes before. */
  lemma BatchHoldsOlder(s: State, batchLimit: nat, ids: seq<Id>, id: Id, q: Id)
    requires IsBatch(s, batchLimit, ids) && id in ids && q in s.rows && IsCandidate(s, q) && Older(s.rows, q, id)
    ensures q in ids
  {
    hide IsCandidate;
    var i :| 0 <= i < |ids| && ids[i] == id;
    if q !in ids {
      OlderIsTransitive(s.rows, id, q, id);
    }
  }

  lemma MemberCount(ids: seq<Id>)
    ensures |Members(ids)| <= |ids|
  {
    if ids != [] {
      var fewer := ids[..|ids| - 1];
      MemberCount(fewer);
      assert ids == fewer + [ids[|ids| - 1]];
      assert Members(ids) == Members(fewer) + {ids[|ids| - 1]};
    }
  }

  /** As many blockers as a batch holds fill every batch. */
  lemma BlockedIsOut(s: State, batchLimit: nat, blobLimit: nat, ids: seq<Id>, id: Id)
    requires IsBatch(s, batchLimit, ids) && id in ids
    ensures id in s.rows && IsObsolete(s, id) && |Blockers(s, id, blobLimit)| < batchLimit
  {
    hide IsCandidate, Older, Fits, IsObsolete;
    CandidateExactly(s, id);
    var blockers := Blockers(s, id, blobLimit);
    forall q | q in blockers ensures q in Members(ids) && q != id {
      OlderIsOldEnough(s, q, id);
      CandidateExactly(s, q);
      BatchHoldsOlder(s, batchLimit, ids, id, q);
      NotOlderThanItself(s.rows, q);
    }
    assert |blockers + {id}| == |blockers| + 1;
    SubsetSize(blockers + {id}, Members(ids));
    MemberCount(ids);
  }

  lemma NotOlderThanItself(rows: map<Id, Row>, id: Id)
    requires id in rows
    ensures !Older(rows, id, id)
  {
  }

  /** The row of the set and each of its blobs are as before. */
  ghost predicate Kept(s: State, t: State, id: Id) {
    && id in s.rows && id in t.rows && t.rows[id] == s.rows[id]
    && t.pointer == s.pointer && t.generated == s.generated
    && forall b: Blob | b.id == id :: b in t.blobs <==> b in s.blobs
  }

  lemma TurnKeeps(s: State, turn: Turn, batchLimit: nat, blobLimit: nat, id: Id)
    requires IsTurn(s, turn, batchLimit, blobLimit) && id in s.rows && !CanGo(s, id, batchLimit, blobLimit)
    ensures
      var t := After(s, turn, blobLimit);
      Kept(s, t, id) && !CanGo(t, id, batchLimit, blobLimit)
  {
    var t, chosen := After(s, turn, blobLimit), Chosen(turn);
    TurnTakes(s, turn, batchLimit, blobLimit);
    if id in chosen {
      BlockedIsOut(s, batchLimit, blobLimit, turn.ids, id);
    }
    hide IsTurn, After, IsCandidate, Fits;
    FitsStays(s, t, chosen, blobLimit, id);
    BlockersStay(s, t, chosen, blobLimit, id);
    ProtectionStays(s, t, chosen, blobLimit, id);
    hide IsProtected, Blockers, Ahead;
  }

  /** A set that is marked, protected, too large for one listing, or behind a batch of such sets is
    * never touched, however often cleanup runs and wherever the runs stop. */
  lemma {:induction false} TurnsKeep(s: State, turns: seq<Turn>, batchLimit: nat, blobLimit: nat, id: Id)
    requires AreTurns(s, turns, batchLimit, blobLimit) && id in s.rows && !CanGo(s, id, batchLimit, blobLimit)
    ensures
      var t := AfterAll(s, turns, blobLimit);
      Kept(s, t, id) && !CanGo(t, id, batchLimit, blobLimit)
  {
    hide CanGo, After, IsTurn;
    if turns != [] {
      var before := turns[..|turns| - 1];
      TurnsKeep(s, before, batchLimit, blobLimit, id);
      TurnKeeps(AfterAll(s, before, blobLimit), turns[|turns| - 1], batchLimit, blobLimit, id);
    }
  }

  // ----------------------------------------------------------------------- runs side by side

  /** What any number of cleanup runs do that work at the same time and stop where they will: a run
    * selects a batch, or deletes a blob of a set it has selected and found to fit one listing, or
    * marks such a set. */
  ghost predicate IsCoded(s: State, selected: set<Id>, e: Event, batchLimit: nat, blobLimit: nat) {
    match e
    case Tick(_) => true
    case Target(chosen) => exists ids :: IsBatch(s, batchLimit, ids) && chosen == Members(ids)
    case DeleteBlob(b) => b.id in selected && Fits(s, b.id, blobLimit)
    case MarkDeleted(id) => id in selected && Fits(s, id, blobLimit)
    case _ => false
  }

  function Selected(log: seq<Event>): set<Id> {
    if log == [] then {}
    else
      var e := log[|log| - 1];
      Selected(log[..|log| - 1]) + if e.Target? then e.ids else {}
  }

  ghost predicate AreCoded(s: State, log: seq<Event>, batchLimit: nat, blobLimit: nat) {
    log != [] ==>
      var before := log[..|log| - 1];
      && AreCoded(s, before, batchLimit, blobLimit)
      && IsCoded(Run(s, before), Selected(before), log[|log| - 1], batchLimit, blobLimit)
  }

  lemma CodedTakes(s: State, selected: set<Id>, e: Event, batchLimit: nat, blobLimit: nat) returns (chosen: set<Id>)
    requires Inv(s) && IsCoded(s, selected, e, batchLimit, blobLimit)
    ensures Takes(s, Step(s, e), chosen, blobLimit) && chosen <= selected
  {
    hide IsCandidate, NewerLive, Fits, Inv, Demote, IsBatch, TilesStored;
    chosen := if e.DeleteBlob? && e.blob.id in s.targeted then {e.blob.id}
              else if e.MarkDeleted? && e.id in s.targeted then {e.id} else {};
    forall id | id in chosen ensures id in s.rows && |NewerLive(s.rows, id)| > s.protectedPrior {
      TargetHasNewer(s, id);
    }
  }

  lemma TargetHasNewer(s: State, id: Id)
    requires Inv(s) && id in s.targeted
    ensures id in s.rows && |NewerLive(s.rows, id)| > s.protectedPrior
  {
    NewerLiveAreSafe(s, id);
  }

  lemma CodedKeeps(s: State, selected: set<Id>, e: Event, batchLimit: nat, blobLimit: nat, id: Id)
    requires Inv(s) && IsCoded(s, selected, e, batchLimit, blobLimit)
    requires id in s.rows && !CanGo(s, id, batchLimit, blobLimit) && (id in selected ==> !Fits(s, id, blobLimit))
    ensures Kept(s, Step(s, e), id) && !CanGo(Step(s, e), id, batchLimit, blobLimit)
    ensures id in selected || (e.Target? && id in e.ids) ==> !Fits(Step(s, e), id, blobLimit)
  {
    var t := Step(s, e);
    var chosen := CodedTakes(s, selected, e, batchLimit, blobLimit);
    if e.Target? && id in e.ids {
      var ids :| IsBatch(s, batchLimit, ids) && e.ids == Members(ids);
      BlockedIsOut(s, batchLimit, blobLimit, ids, id);
    }
    hide IsCoded, Step, IsCandidate, Fits, Inv;
    FitsStays(s, t, chosen, blobLimit, id);
    BlockersStay(s, t, chosen, blobLimit, id);
    ProtectionStays(s, t, chosen, blobLimit, id);
    hide IsProtected, Blockers, Ahead;
  }

  /** In every reachable state, whatever cleanup runs work side by side and wherever they stop: a set
    * that cannot go is not touched. */
  lemma {:induction false} ConcurrentRunsKeep(s: State, log: seq<Event>, batchLimit: nat, blobLimit: nat, id: Id)
    requires Inv(s) && s.retentionDays >= 1 && AreCoded(s, log, batchLimit, blobLimit)
    requires id in s.rows && !CanGo(s, id, batchLimit, blobLimit)
    ensures
      var t := Run(s, log);
      && Inv(t) && t.retentionDays == s.retentionDays
      && Kept(s, t, id) && !CanGo(t, id, batchLimit, blobLimit)
      && (id in Selected(log) ==> !Fits(t, id, blobLimit))
  {
    hide CanGo, Inv, Step, IsCoded, Fits;
    if log != [] {
      var before, e := log[..|log| - 1], log[|log| - 1];
      ConcurrentRunsKeep(s, before, batchLimit, blobLimit, id);
      var t := Run(s, before);
      StepKeepsInv(t, e);
      SettingsStay(t, e);
      CodedKeeps(t, Selected(before), e, batchLimit, blobLimit, id);
    }
  }

  // ------------------------------------------------------------------------- sets that go

  lemma GoneStays(s: State, turn: Turn, batchLimit: nat, blobLimit: nat, id: Id)
    requires IsTurn(s, turn, batchLimit, blobLimit) && IsGone(s, id)
    ensures IsGone(After(s, turn, blobLimit), id)
  {
    TurnTakes(s, turn, batchLimit, blobLimit);
    hide IsTurn, After, IsCandidate, Fits;
  }

  /** The sets that the run deletes. */
  lemma DealtWithIsGone(s: State, turn: Turn, batchLimit: nat, blobLimit: nat, i: nat)
    requires turn.Cleanup? && IsTurn(s, turn, batchLimit, blobLimit)
    requires i < turn.done && Fits(s, turn.ids[i], blobLimit)
    ensures IsGone(After(s, turn, blobLimit), turn.ids[i])
  {
    hide IsCandidate, CleanSets;
    var u := s.(targeted := s.targeted + Members(turn.ids));
    var done := turn.ids[..turn.done];
    CleanSetsEffect(u, done, blobLimit);
    SameFits(s, u, blobLimit);
    assert done[i] == turn.ids[i];
    CleanedFits(u, done, blobLimit, turn.ids[i]);
    hide Fits;
  }

  /** A turn in which the set is not marked leaves it to go, with no more sets ahead of it. */
  lemma TurnWaits(s: State, turn: Turn, batchLimit: nat, blobLimit: nat, id: Id)
    requires IsTurn(s, turn, batchLimit, blobLimit) && id in s.rows && CanGo(s, id, batchLimit, blobLimit)
    ensures
      var t := After(s, turn, blobLimit);
      && id in t.rows && (IsOldEnough(s, id) ==> IsOldEnough(t, id))
      && Ahead(t, id, blobLimit) <= Ahead(s, id, blobLimit)
      && Blockers(t, id, blobLimit) == Blockers(s, id, blobLimit)
      && (IsGone(t, id) || CanGo(t, id, batchLimit, blobLimit))
  {
    var t, chosen := After(s, turn, blobLimit), Chosen(turn);
    TurnTakes(s, turn, batchLimit, blobLimit);
    FitsStays(s, t, chosen, blobLimit, id);
    BlockersStay(s, t, chosen, blobLimit, id);
    ProtectionStays(s, t, chosen, blobLimit, id);
  }

  lemma {:induction false} BatchCount(rows: map<Id, Row>, ids: seq<Id>)
    requires forall i | 0 <= i < |ids| :: ids[i] in rows
    requires forall i, j | 0 <= i < j < |ids| :: Older(rows, ids[i], ids[j])
    ensures |Members(ids)| == |ids|
  {
    if ids != [] {
      var fewer, last := ids[..|ids| - 1], ids[|ids| - 1];
      BatchCount(rows, fewer);
      assert ids == fewer + [last];
      assert Members(ids) == Members(fewer) + {last};
      if last in fewer {
        NotOlderThanItself(rows, last);
      }
    }
  }

  /** A complete run that does not reach the set deletes as many sets ahead of it as its batch has
    * room for beside the blockers. */
  lemma CompleteRun(s: State, turn: Turn, batchLimit: nat, blobLimit: nat, id: Id)
    requires IsTurn(s, turn, batchLimit, blobLimit) && IsComplete(turn)
    requires id in s.rows && CanGo(s, id, batchLimit, blobLimit) && IsOldEnough(s, id)
    ensures
      var t := After(s, turn, blobLimit);
      && id in t.rows
      && (IsGone(t, id)
          || |Ahead(t, id, blobLimit)| + (batchLimit - |Blockers(s, id, blobLimit)|) <= |Ahead(s, id, blobLimit)|)
  {
    var t := After(s, turn, blobLimit);
    TurnWaits(s, turn, batchLimit, blobLimit, id);
    CandidateExactly(s, id);
    if id in turn.ids {
      var i :| 0 <= i < |turn.ids| && turn.ids[i] == id;
      DealtWithIsGone(s, turn, batchLimit, blobLimit, i);
    } else {
      BatchCount(s.rows, turn.ids);
      var fit := set q | q in turn.ids && Fits(s, q, blobLimit);
      var unfit := set q | q in turn.ids && !Fits(s, q, blobLimit);
      BatchIsAhead(s, turn, batchLimit, blobLimit, id, fit, unfit);
      hide IsTurn, After, Fits, Blockers, Ahead, IsGone, CanGo;
      assert Members(turn.ids) == fit + unfit;
      SubsetSize(unfit, Blockers(s, id, blobLimit));
      SubsetSize(Ahead(t, id, blobLimit), Ahead(s, id, blobLimit) - fit);
      SubsetDifference(fit, Ahead(s, id, blobLimit));
    }
  }

  lemma BatchIsAhead(s: State, turn: Turn, batchLimit: nat, blobLimit: nat, id: Id, fit: set<Id>, unfit: set<Id>)
    requires IsTurn(s, turn, batchLimit, blobLimit) && IsComplete(turn) && id !in turn.ids
    requires id in s.rows && IsObsolete(s, id) && IsOldEnough(s, id)
    requires fit == (set q | q in turn.ids && Fits(s, q, blobLimit))
    requires unfit == (set q | q in turn.ids && !Fits(s, q, blobLimit))
    ensures
      var t := After(s, turn, blobLimit);
      && |turn.ids| == batchLimit && id in t.rows
      && unfit <= Blockers(s, id, blobLimit) && fit <= Ahead(s, id, blobLimit)
      && Ahead(t, id, blobLimit) <= Ahead(s, id, blobLimit) - fit
  {
    var t := After(s, turn, blobLimit);
    CandidateExactly(s, id);
    TurnTakes(s, turn, batchLimit, blobLimit);
    BlockersStay(s, t, Chosen(turn), blobLimit, id);
    hide IsCandidate, Older;
    forall q | q in turn.ids ensures q in s.rows && IsObsolete(s, q) && Older(s.rows, q, id) {
      CandidateExactly(s, q);
    }
    hide IsBatch;
    forall q | q in fit ensures q !in Ahead(t, id, blobLimit) {
      var i :| 0 <= i < |turn.ids| && turn.ids[i] == q;
      DealtWithIsGone(s, turn, batchLimit, blobLimit, i);
    }
  }

  function CompleteRuns(turns: seq<Turn>): nat {
    if turns == [] then 0
    else CompleteRuns(turns[..|turns| - 1]) + if IsComplete(turns[|turns| - 1]) then 1 else 0
  }

  /** After n complete runs the set is gone, or n times the room beside the blockers has been used
    * for sets ahead of it. */
  ghost predicate Approaches(s: State, t: State, n: nat, batchLimit: nat, blobLimit: nat, id: Id) {
    && id in s.rows && id in t.rows
    && (IsGone(t, id)
        || (CanGo(t, id, batchLimit, blobLimit) && IsOldEnough(t, id)
            && Blockers(t, id, blobLimit) == Blockers(s, id, blobLimit)
            && |Ahead(t, id, blobLimit)| + n * (batchLimit - |Blockers(s, id, blobLimit)|)
               <= |Ahead(s, id, blobLimit)|))
  }

  lemma TurnApproaches(s: State, t: State, n: nat, turn: Turn, batchLimit: nat, blobLimit: nat, id: Id)
    requires Approaches(s, t, n, batchLimit, blobLimit, id) && IsTurn(t, turn, batchLimit, blobLimit)
    ensures Approaches(s, After(t, turn, blobLimit), n + if IsComplete(turn) then 1 else 0, batchLimit, blobLimit, id)
  {
    hide After, IsTurn, Ahead, Blockers, IsObsolete, Fits, IsGone, CanGo;
    if IsGone(t, id) {
      GoneStays(t, turn, batchLimit, blobLimit, id);
      GoneIsRecorded(After(t, turn, blobLimit), id);
    } else {
      TurnWaits(t, turn, batchLimit, blobLimit, id);
      SubsetSize(Ahead(After(t, turn, blobLimit), id, blobLimit), Ahead(t, id, blobLimit));
      if IsComplete(turn) {
        CompleteRun(t, turn, batchLimit, blobLimit, id);
        OneMoreRun(n, batchLimit - |Blockers(s, id, blobLimit)|);
      }
    }
  }

  lemma GoneIsRecorded(s: State, id: Id)
    requires IsGone(s, id)
    ensures id in s.rows
  {
  }

  lemma OneMoreRun(n: nat, room: int)
    ensures (n + 1) * room == n * room + room
  {
  }

  lemma {:induction false} TurnsApproach(s: State, turns: seq<Turn>, batchLimit: nat, blobLimit: nat, id: Id)
    requires AreTurns(s, turns, batchLimit, blobLimit)
    requires id in s.rows && CanGo(s, id, batchLimit, blobLimit) && IsOldEnough(s, id)
    ensures Approaches(s, AfterAll(s, turns, blobLimit), CompleteRuns(turns), batchLimit, blobLimit, id)
  {
    hide CanGo, After, IsTurn, IsGone, Ahead, Blockers, IsComplete;
    if turns != [] {
      var before := turns[..|turns| - 1];
      TurnsApproach(s, before, batchLimit, blobLimit, id);
      hide Approaches;
      TurnApproaches(s, AfterAll(s, before, blobLimit), CompleteRuns(before), turns[|turns| - 1],
                     batchLimit, blobLimit, id);
    }
  }

  /** With f sets ahead of it and b blockers, a set that can go and is old enough is gone after any
    * turns with more than f / (batchLimit - b) complete runs among them. */
  lemma GoneWithin(s: State, turns: seq<Turn>, batchLimit: nat, blobLimit: nat, id: Id)
    requires AreTurns(s, turns, batchLimit, blobLimit)
    requires id in s.rows && CanGo(s, id, batchLimit, blobLimit) && IsOldEnough(s, id)
    requires CompleteRuns(turns) * (batchLimit - |Blockers(s, id, blobLimit)|) > |Ahead(s, id, blobLimit)|
    ensures IsGone(AfterAll(s, turns, blobLimit), id)
  {
    hide AreTurns, CanGo, IsGone, Ahead, Blockers, AfterAll, CompleteRuns;
    TurnsApproach(s, turns, batchLimit, blobLimit, id);
  }

  // ------------------------------------------------------------------------ exactly which sets go

  lemma OneMoreTurn(s: State, turns: seq<Turn>, turn: Turn, batchLimit: nat, blobLimit: nat)
    requires AreTurns(s, turns, batchLimit, blobLimit)
    requires IsTurn(AfterAll(s, turns, blobLimit), turn, batchLimit, blobLimit)
    ensures AreTurns(s, turns + [turn], batchLimit, blobLimit)
    ensures AfterAll(s, turns + [turn], blobLimit) == After(AfterAll(s, turns, blobLimit), turn, blobLimit)
    ensures CompleteRuns(turns + [turn]) == CompleteRuns(turns) + if IsComplete(turn) then 1 else 0
  {
    assert (turns + [turn])[..|turns|] == turns;
    hide IsTurn, After;
  }

  /** There is a sequence of any number of complete runs. */
  lemma {:induction false} RunRepeatedly(s: State, n: nat, batchLimit: nat, blobLimit: nat) returns (turns: seq<Turn>)
    ensures AreTurns(s, turns, batchLimit, blobLimit) && CompleteRuns(turns) == n
  {
    if n == 0 {
      turns := [];
    } else {
      var before := RunRepeatedly(s, n - 1, batchLimit, blobLimit);
      var t := AfterAll(s, before, blobLimit);
      var ids := BatchExists(t, batchLimit);
      hide IsBatch;
      var turn := Cleanup(ids, |ids|, {});
      OneMoreTurn(s, before, turn, batchLimit, blobLimit);
      turns := before + [turn];
    }
  }

  lemma {:induction false} TurnsAfter(s: State, first: Turn, turns: seq<Turn>, batchLimit: nat, blobLimit: nat)
    requires IsTurn(s, first, batchLimit, blobLimit)
    requires AreTurns(After(s, first, blobLimit), turns, batchLimit, blobLimit)
    ensures AreTurns(s, [first] + turns, batchLimit, blobLimit)
    ensures AfterAll(s, [first] + turns, blobLimit) == AfterAll(After(s, first, blobLimit), turns, blobLimit)
  {
    hide IsTurn, After;
    if turns == [] {
      assert [first] + turns == [first] && [first][..0] == [];
    } else {
      var before := turns[..|turns| - 1];
      TurnsAfter(s, first, before, batchLimit, blobLimit);
      assert ([first] + turns)[..|turns|] == [first] + before;
    }
  }

  ghost predicate TakenApartBy(s: State, turns: seq<Turn>, id: Id, batchLimit: nat, blobLimit: nat) {
    AreTurns(s, turns, batchLimit, blobLimit) && IsGone(AfterAll(s, turns, blobLimit), id)
  }

  /** A set is taken apart by some turns if and only if it can go: its row is not marked, it is
    * neither the latest nor among the protected newest of its version, one listing shows its
    * tiles, and fewer sets than a batch holds block it. */
  lemma TakenApartExactly(s: State, id: Id, batchLimit: nat, blobLimit: nat)
    requires id in s.rows && !IsGone(s, id)
    ensures CanGo(s, id, batchLimit, blobLimit) <==>
            exists turns :: TakenApartBy(s, turns, id, batchLimit, blobLimit)
  {
    hide CanGo, IsGone, AfterAll, AreTurns;
    if CanGo(s, id, batchLimit, blobLimit) {
      var turns := TakeApart(s, id, batchLimit, blobLimit);
      assert TakenApartBy(s, turns, id, batchLimit, blobLimit);
    } else {
      forall turns | TakenApartBy(s, turns, id, batchLimit, blobLimit) ensures false {
        TurnsKeep(s, turns, batchLimit, blobLimit, id);
        KeptIsNotGone(s, AfterAll(s, turns, blobLimit), id);
      }
    }
  }

  lemma KeptIsNotGone(s: State, t: State, id: Id)
    requires Kept(s, t, id)
    ensures IsGone(s, id) == IsGone(t, id)
  {
  }

  lemma TakeApart(s: State, id: Id, batchLimit: nat, blobLimit: nat) returns (turns: seq<Turn>)
    requires id in s.rows && CanGo(s, id, batchLimit, blobLimit)
    ensures TakenApartBy(s, turns, id, batchLimit, blobLimit)
  {
    var wait := Wait(s.rows[id].createdAt + s.retentionDays * DAY + 1);
    var t := After(s, wait, blobLimit);
    TurnWaits(s, wait, batchLimit, blobLimit, id);
    SameRowsStay(s, t, id);
    var n := |Ahead(t, id, blobLimit)| + 1;
    hide CanGo, Ahead, Blockers, AfterAll, AreTurns, IsGone;
    var runs := RunRepeatedly(t, n, batchLimit, blobLimit);
    RoomForOne(t, id, batchLimit, blobLimit);
    TimesAtLeast(n, batchLimit - |Blockers(t, id, blobLimit)|);
    GoneWithin(t, runs, batchLimit, blobLimit, id);
    TurnsAfter(s, wait, runs, batchLimit, blobLimit);
    turns := [wait] + runs;
  }

  lemma SameRowsStay(s: State, t: State, id: Id)
    requires id in s.rows && t.rows == s.rows && !s.rows[id].deleted
    ensures !IsGone(t, id)
  {
  }

  lemma RoomForOne(s: State, id: Id, batchLimit: nat, blobLimit: nat)
    requires id in s.rows && CanGo(s, id, batchLimit, blobLimit)
    ensures |Blockers(s, id, blobLimit)| < batchLimit
  {
  }

  lemma TimesAtLeast(n: nat, room: nat)
    requires room >= 1
    ensures n * room >= n
  {
  }
}
