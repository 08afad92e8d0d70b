/** Which unfinished rows recovery never reaches, and how they get there
  * (backend/ingest-svc/src/jobs/recovery.rs, backend/ingest-svc/src/jobs/pipeline.rs). */
module IngestStranded {
  import opened Wrappers
  import opened IngestLog
  import opened IngestTables
  import opened IngestPipeline
  import opened IngestRecovery

  predicate Waits(r: Row) {
    r.status == Validated || r.status == ReplayPending
  }

  /** The row is neither enqueued nor rejected, yet no query of recovery selects it: its status is
    * not a recoverable one, and none of its outbox records is eligible. */
  ghost predicate Stranded(s: State, id: nat) {
    && id in s.rows && s.rows[id].status != IngestStatus.Enqueued && s.rows[id].status != Rejected
    && !Recoverable(s.rows[id])
    && forall k | 0 <= k < |s.outbox| && s.outbox[k].ingestId == id :: !IsEligible(s, k)
  }

  /** In every reachable state exactly the failed rows are stranded, and those that wait for their
    * message without a pending record. */
  lemma StrandedExactly(s: State, id: nat)
    requires Inv(s) && id in s.rows
    ensures Stranded(s, id) <==>
              s.rows[id].status == Failed || (Waits(s.rows[id]) && PendingFrom(s.outbox, id, 0).None?)
  {
    var pending := PendingFrom(s.outbox, id, 0);
    if Waits(s.rows[id]) && pending.Some? {
      assert IsEligible(s, pending.value);
    }
  }

  /** The statement that strands a row: its pipeline failed; it waits from now on, and its record is
    * not made yet; or its record is the pending one and has used its last attempt, or was completed
    * although the row went back to waiting. */
  predicate Strands(s: State, e: Event, id: nat)
    requires id in s.rows
  {
    match e
    case MarkStatus(row, status) =>
      row == id && (status == Failed || (status == Validated && id in s.signed && PendingFrom(s.outbox, id, 0).None?))
    case Replay(row) => row == id && s.rows[id].status == Rejected && PendingFrom(s.outbox, id, 0).None?
    case FailOutbox(k) =>
      k < |s.outbox| && IsEligible(s, k) && s.outbox[k].ingestId == id
      && s.outbox[k].attempts + 1 >= OUTBOX_MAX_ATTEMPTS
    case CompleteOutbox(k) =>
      k < |s.outbox| && IsEligible(s, k) && s.outbox[k].ingestId == id && Accepted(s, id)
    case _ => false
  }

  lemma HowRowsStrand(s: State, e: Event, id: nat)
    requires Inv(s) && id in s.rows && !Stranded(s, id)
    ensures id in Step(s, e).rows && (Stranded(Step(s, e), id) <==> Strands(s, e, id))
  {
    hide Inv, Stranded, Step, HasPending, PendingFrom;
    var t := Step(s, e);
    StepIsSafe(s, e);
    RowAfter(s, e, id);
    StrandedExactly(s, id);
    StrandedExactly(t, id);
    PendingIsFound(s, id);
    PendingIsFound(t, id);
    PendingAfter(s, e, id);
  }

  lemma StepIsSafe(s: State, e: Event)
    requires Inv(s)
    ensures Inv(Step(s, e)) && OnePending(s)
  {
    hide Step, OnePending, EnqueuedMeansAccepted, MessagesAreJustified, TablesAreConsistent, AttemptsAreBounded;
    StepKeepsEnqueuedMeansAccepted(s, e);
    StepKeepsOutbox(s, e);
    StepKeepsMessages(s, e);
    StepKeepsTables(s, e);
  }

  /** The status of a row after a statement. */
  lemma RowAfter(s: State, e: Event, id: nat)
    requires id in s.rows
    ensures id in Step(s, e).rows
    ensures Step(s, e).rows[id].status ==
            if e.MarkStatus? && e.id == id && Enabled(s, e) then e.status
            else if e.Replay? && e.id == id && s.rows[id].status == Rejected then ReplayPending
            else s.rows[id].status
  {
    hide Message, KeyTaken, Accepted;
  }

  ghost predicate PendingAt(s: State, k: nat, id: nat) {
    k < |s.outbox| && s.outbox[k].ingestId == id && s.outbox[k].status == Pending
  }

  ghost predicate HasPending(s: State, id: nat) {
    exists k :: PendingAt(s, k, id)
  }

  lemma PendingIsFound(s: State, id: nat)
    ensures HasPending(s, id) <==> PendingFrom(s.outbox, id, 0).Some?
  {
    var found := PendingFrom(s.outbox, id, 0);
    if found.Some? {
      assert PendingAt(s, found.value, id);
    }
  }

  /** Whether the ingest has a pending record after a statement. */
  lemma PendingAfter(s: State, e: Event, id: nat)
    requires OnePending(s)
    ensures HasPending(Step(s, e), id) <==>
              if e.CreateOutbox? && e.id == id && Enabled(s, e) then true
              else if e.FailOutbox? && PendingAt(s, e.k, id) then s.outbox[e.k].attempts + 1 < OUTBOX_MAX_ATTEMPTS
              else if e.CompleteOutbox? && PendingAt(s, e.k, id) && Enabled(s, e) then false
              else HasPending(s, id)
  {
    hide Message, KeyTaken, Accepted;
    var t := Step(s, e);
    if e.CreateOutbox? && e.id == id && Enabled(s, e) {
      PendingIsFound(s, id);
      if !HasPending(s, id) {
        assert PendingAt(t, |s.outbox|, id);
      } else {
        assert t == s;
      }
    } else if e.FailOutbox? && PendingAt(s, e.k, id) {
      assert PendingAt(t, e.k, id) <==> s.outbox[e.k].attempts + 1 < OUTBOX_MAX_ATTEMPTS;
      OthersStay(s, t, e.k, id);
    } else if e.CompleteOutbox? && PendingAt(s, e.k, id) && Enabled(s, e) {
      assert !PendingAt(t, e.k, id);
      OthersStay(s, t, e.k, id);
    } else {
      assert forall k: nat :: PendingAt(s, k, id) <==> PendingAt(t, k, id);
    }
  }

  /** The pending record k of the ingest is its only one, so what becomes of it decides. */
  lemma OthersStay(s: State, t: State, k: nat, id: nat)
    requires OnePending(s) && PendingAt(s, k, id) && |t.outbox| == |s.outbox|
    requires forall i | 0 <= i < |s.outbox| && i != k :: t.outbox[i] == s.outbox[i]
    ensures HasPending(t, id) <==> PendingAt(t, k, id)
  {
    forall i: nat | PendingAt(t, i, id) ensures i == k {
      if i != k { OnlyOnePending(s, i, k, id); }
    }
  }

  lemma OnlyOnePending(s: State, i: nat, k: nat, id: nat)
    requires OnePending(s) && PendingAt(s, i, id) && PendingAt(s, k, id)
    ensures i == k
  {
  }

  /** A stranded row has a last statement that stranded it. */
  lemma {:induction false} WhyStranded(log: seq<Event>, p: nat, id: nat) returns (i: nat)
    requires p <= |log| && Stranded(At(log, p), id)
    ensures i < p && id in At(log, i).rows && !Stranded(At(log, i), id) && Strands(At(log, i), log[i], id)
    ensures forall j | i < j <= p :: Stranded(At(log, j), id)
  {
    hide At, Inv, Stranded, Strands, Step;
    NothingIsStranded(log, id);
    AtNext(log, p - 1);
    AtIsSafe(log, p - 1);
    if id in At(log, p - 1).rows && !Stranded(At(log, p - 1), id) {
      HowRowsStrand(At(log, p - 1), log[p - 1], id);
      i := p - 1;
    } else {
      NewRowsAreRecoverable(At(log, p - 1), log[p - 1], id);
      i := WhyStranded(log, p - 1, id);
    }
  }

  lemma NothingIsStranded(log: seq<Event>, id: nat)
    ensures !Stranded(At(log, 0), id)
  {
  }

  lemma NewRowsAreRecoverable(s: State, e: Event, id: nat)
    requires Stranded(Step(s, e), id)
    ensures id in s.rows
  {
    hide Message, KeyTaken, Accepted, PendingFrom;
  }

  // ------------------------------------------------------------- recovery leaves them stranded

  /** The row and the records of an ingest are the same in both states, up to records that joined. */
  ghost predicate SameIngest(s: State, t: State, id: nat) {
    && (id in s.rows <==> id in t.rows) && (id in s.rows ==> t.rows[id] == s.rows[id])
    && |s.outbox| <= |t.outbox|
    && (forall k | 0 <= k < |s.outbox| ::
          t.outbox[k].ingestId == s.outbox[k].ingestId && (s.outbox[k].ingestId == id ==> t.outbox[k] == s.outbox[k]))
    && (forall k | |s.outbox| <= k < |t.outbox| :: t.outbox[k].ingestId != id)
  }

  lemma SameIngestStranded(s: State, t: State, id: nat)
    requires SameIngest(s, t, id) && Stranded(s, id)
    ensures Stranded(t, id)
  {
    forall k | 0 <= k < |t.outbox| && t.outbox[k].ingestId == id ensures !IsEligible(t, k) {
      assert !IsEligible(s, k);
    }
  }

  lemma {:induction false} ExaminationLeaves(s: State, ids: seq<nat>, download: nat -> Option<Bytes>, id: nat)
    requires id !in ids
    ensures SameIngest(s, Examine(s, ids, download), id)
  {
    if ids != [] {
      ExaminationLeaves(s, ids[..|ids| - 1], download, id);
      hide PendingFrom;
    }
  }

  lemma {:induction false} DrainLeaves(s: State, ks: seq<nat>, sent: seq<bool>, id: nat)
    requires |ks| == |sent| && forall i | 0 <= i < |ks| :: ks[i] < |s.outbox| && s.outbox[ks[i]].ingestId != id
    ensures SameIngest(s, Drain(s, ks, sent), id)
    decreases |ks|
  {
    if ks != [] {
      var last := |ks| - 1;
      DrainLeaves(s, ks[..last], sent[..last], id);
      assert Drain(s, ks[..last], sent[..last]).outbox[ks[last]].ingestId != id;
    }
  }

  /** A recovery run that no other process disturbs leaves a stranded row stranded. */
  lemma RecoveryLeavesStranded(s: State, ids: seq<nat>, download: nat -> Option<Bytes>,
                               ks: seq<nat>, sent: seq<bool>, u: State, id: nat)
    requires Stranded(s, id) && IsRecoverySelection(s.rows, ids)
    requires ks == DrainSelection(Examine(s, ids, download)) && DrainedSoFar(Examine(s, ids, download), u, ks, sent)
    ensures Stranded(u, id)
  {
    var t := Examine(s, ids, download);
    assert id !in ids;
    ExaminationLeaves(s, ids, download, id);
    SameIngestStranded(s, t, id);
    hide Examine, IsRecoverySelection;
    forall i | 0 <= i < |ks| ensures t.outbox[ks[i]].ingestId != id {
      assert IsEligible(t, ks[i]);
    }
    DrainLeaves(t, ks, sent, id);
    SameIngestStranded(t, Drain(t, ks, sent), id);
    hide Drain, DrainSelection;
    SameIngestStranded(Drain(t, ks, sent), u, id);
  }

  // ------------------------------------------------------------------------- runs that strand a row

  lemma Append(log: seq<Event>, s: State, e: Event) returns (longer: seq<Event>, t: State)
    requires s == Run(EMPTY, log)
    ensures longer == log + [e] && t == Step(s, e) == Run(EMPTY, longer)
  {
    longer, t := log + [e], Step(s, e);
    assert longer[..|log|] == log;
  }

  lemma UntilDownload(granule: Granule, id: nat) returns (log: seq<Event>, s: State)
    ensures log == UntilDownloaded(id, granule) && s == Run(EMPTY, log)
    ensures s == EMPTY.(rows := map[id := Row(granule, Downloaded, 1, 2)], clock := 2)
  {
    log, s := [], EMPTY;
    log, s := Append(log, s, InsertRow(id, granule));
    log, s := Append(log, s, MarkStatus(id, Downloaded));
  }

  /** A pipeline that stops before it makes the outbox record of a validated row. */
  lemma StopAfterValidation(granule: Granule, id: nat) returns (log: seq<Event>, s: State)
    ensures log == UntilValidated(id, granule, HDF5_MAGIC) && s == Run(EMPTY, log)
    ensures s == EMPTY.(rows := map[id := Row(granule, Validated, 1, 3)], signed := {id}, clock := 3)
    ensures Stranded(s, id)
  {
    log, s := UntilDownload(granule, id);
    log, s := Append(log, s, SeeSignature(id, HDF5_MAGIC));
    log, s := Append(log, s, MarkStatus(id, Validated));
    assert log == UntilValidated(id, granule, HDF5_MAGIC);
  }

  /** A replay that stops between the update of the row and the insertion of its outbox record. */
  lemma StopInReplay(granule: Granule, id: nat) returns (log: seq<Event>, s: State)
    ensures log == UntilDownloaded(id, granule) + [MarkStatus(id, Rejected)] + [Replay(id)] && s == Run(EMPTY, log)
    ensures Stranded(s, id) && s.rows[id].status == ReplayPending
  {
    log, s := UntilDownload(granule, id);
    log, s := Append(log, s, MarkStatus(id, Rejected));
    log, s := Append(log, s, Replay(id));
  }

  /** A pipeline whose send fails, and which records that: the pending record stays behind. */
  lemma FailedSend(granule: Granule, id: nat) returns (log: seq<Event>, s: State)
    ensures log == UntilValidated(id, granule, HDF5_MAGIC) + [CreateOutbox(id)] + [MarkStatus(id, Failed)]
    ensures s == Run(EMPTY, log) && Stranded(s, id)
    ensures s.rows[id].status == Failed && s.outbox == [OutboxRecord(id, Pending, 0)]
  {
    log, s := StopAfterValidation(granule, id);
    log, s := Append(log, s, CreateOutbox(id));
    log, s := Append(log, s, MarkStatus(id, Failed));
  }

  /** Three drains whose sends fail: the record gives up, and its row waits for ever. */
  lemma AttemptsUsedUp(granule: Granule, id: nat) returns (log: seq<Event>, s: State)
    ensures log == UntilValidated(id, granule, HDF5_MAGIC) + [CreateOutbox(id)]
                   + [FailOutbox(0)] + [FailOutbox(0)] + [FailOutbox(0)]
    ensures s == Run(EMPTY, log) && Stranded(s, id)
    ensures s.rows[id].status == Validated && s.outbox == [OutboxRecord(id, GaveUp, 3)]
  {
    log, s := StopAfterValidation(granule, id);
    log, s := Append(log, s, CreateOutbox(id));
    log, s := Append(log, s, FailOutbox(0));
    log, s := Append(log, s, FailOutbox(0));
    log, s := Append(log, s, FailOutbox(0));
  }
}
