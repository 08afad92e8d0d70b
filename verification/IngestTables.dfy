/** The ingest tables as one of the processes that share them sees them: queries and statements
  * (backend/ingest-svc/src/jobs/ingest_log.rs). */
module IngestTables {
  import opened Wrappers
  import opened IngestLog
  import BlobPaths

  // ----------------------------------------------------------------------------- selections

  predicate Recoverable(r: Row) {
    r.status == Downloading || r.status == Downloaded || r.status == RecoveryPending
  }

  /** ORDER BY updated_at, created_at. */
  predicate NotYounger(a: Row, b: Row) {
    a.updatedAt < b.updatedAt || (a.updatedAt == b.updatedAt && a.createdAt <= b.createdAt)
  }

  /** An answer to the query for recoverable rows: the oldest ones, oldest first, ties either way. */
  predicate IsRecoverySelection(rows: map<nat, Row>, ids: seq<nat>) {
    && |ids| <= SELECTION_LIMIT
    && (forall i | 0 <= i < |ids| :: ids[i] in rows && Recoverable(rows[ids[i]]))
    && (forall i, j | 0 <= i < j < |ids| :: ids[i] != ids[j] && NotYounger(rows[ids[i]], rows[ids[j]]))
    && (forall id | id in rows && Recoverable(rows[id]) && id !in ids ::
          |ids| == SELECTION_LIMIT && forall i | 0 <= i < |ids| :: NotYounger(rows[ids[i]], rows[id]))
  }

  predicate IsEligible(s: State, k: nat)
    requires k < |s.outbox|
  {
    var r := s.outbox[k];
    r.status == Pending && r.ingestId in s.rows
    && (s.rows[r.ingestId].status == Validated || s.rows[r.ingestId].status == ReplayPending)
  }

  /** The records below index n that the drain query matches, in creation order. */
  function EligibleUpTo(s: State, n: nat): (ks: seq<nat>)
    requires n <= |s.outbox|
    ensures forall i | 0 <= i < |ks| :: ks[i] < n && IsEligible(s, ks[i])
  {
    if n == 0 then []
    else EligibleUpTo(s, n - 1) + if IsEligible(s, n - 1) then [n - 1] else []
  }

  /** The answer to the drain query. */
  function DrainSelection(s: State): (ks: seq<nat>)
    ensures forall i | 0 <= i < |ks| :: ks[i] < |s.outbox| && IsEligible(s, ks[i])
    ensures |ks| <= SELECTION_LIMIT
  {
    FirstOf(EligibleUpTo(s, |s.outbox|), SELECTION_LIMIT)
  }

  function FirstOf<T>(s: seq<T>, limit: nat): seq<T> {
    if |s| <= limit then s else s[..limit]
  }

  ghost predicate SameTables(s: State, t: State) {
    s.rows == t.rows && s.outbox == t.outbox && s.clock == t.clock
  }

  lemma EnqueueIsAccepted(s: State, e: Event)
    requires e.Enqueue? && Enabled(s, e)
    ensures e.message in Step(s, e).accepted
  {
    assert Step(s, e).accepted[|s.accepted|] == e.message;
  }

  lemma AppliedThen(before: seq<Event>, after: seq<Event>, log: seq<Event>, e: Event)
    requires after == before + [e] && after <= log && Enabled(Run(EMPTY, before), e)
    ensures AppliedAt(log, |before|, e)
  {
    AtEnd(before);
    AtPrefix(before, log, |before|);
  }

  lemma CreatedHappened(log: seq<Event>, p: nat, i: nat, id: nat)
    requires p <= i && AppliedAt(log, i, CreateOutbox(id))
    ensures Happened(log, p, CreateOutbox(id))
  {
  }

  lemma AppliedNow(before: seq<Event>, e: Event)
    requires Enabled(At(before, |before|), e)
    ensures Happened(before + [e], |before|, e)
  {
    hide At, Enabled;
    AtPrefix(before, before + [e], |before|);
    assert AppliedAt(before + [e], |before|, e);
  }

  lemma MarkIsStamped(s: State, t: State, e: Event, u: State)
    requires Extends(s, t) && e.MarkStatus? && Enabled(t, e) && Extends(Step(t, e), u) && e.id in s.rows
    ensures e.id in u.rows && u.rows[e.id].updatedAt > s.clock
  {
  }

  lemma AcceptedStaysIn(s: State, t: State, m: BlobPaths.ProcessingMessage)
    requires Extends(s, t) && m in s.accepted
    ensures m in t.accepted
  {
  }

  lemma ReplayStays(s: State, t: State, id: nat)
    requires Extends(s, t) && id in s.rows && id in s.replayed
    ensures id in t.rows && id in t.replayed
  {
  }

  lemma RowStays(s: State, t: State, id: nat)
    requires Extends(s, t)
    ensures id in s.rows ==> id in t.rows && t.rows[id].granule == s.rows[id].granule
    ensures id in s.signed ==> id in t.signed
  {
  }

  // -------------------------------------------------------------------------------- the store

  datatype PendingRecord = PendingRecord(k: nat, ingestId: nat, granule: Granule)

  /** The shared tables as one process sees them.  Before and after each of its statements other
    * processes may issue any statements of their own, unless the store is its alone. */
  class IngestStore {
    const alone: bool
    var rows: map<nat, Row>
    var outbox: seq<OutboxRecord>
    var accepted: seq<BlobPaths.ProcessingMessage>
    var signed: set<nat>
    var replayed: set<nat>
    var clock: nat
    ghost var log: seq<Event>
    ghost var issued: seq<Event> // the statements this process has issued, applied or not
    ghost var completed: seq<Event> // those of them that reported success

    function State(): State
      reads this
    {
      IngestLog.State(rows, outbox, accepted, signed, replayed, clock)
    }

    ghost predicate Valid()
      reads this
    {
      State() == Run(EMPTY, log)
    }

    constructor (alone: bool)
      ensures Valid() && log == issued == completed == [] && this.alone == alone
    {
      this.alone := alone;
      rows, outbox, accepted, signed, replayed, clock := map[], [], [], {}, {}, 0;
      log, issued, completed := [], [], [];
    }

    method Apply(e: Event)
      requires Valid()
      modifies this
      ensures Valid() && log == old(log) + [e] && State() == Step(old(State()), e) && issued == old(issued)
        && completed == old(completed)
      ensures Extends(old(State()), State())
    {
      var t := Step(State(), e);
      StepExtends(State(), e);
      rows, outbox, accepted := t.rows, t.outbox, t.accepted;
      signed, replayed, clock := t.signed, t.replayed, t.clock;
      log := log + [e];
      assert log[..|log| - 1] == old(log);
    }

    /** The statements of other processes. */
    method Interfere()
      requires Valid()
      modifies this
      ensures Valid() && old(log) <= log && Extends(old(State()), State()) && issued == old(issued)
        && completed == old(completed)
      ensures alone ==> State() == old(State()) && log == old(log)
    {
      if alone {
        return;
      }
      var statements: int := *;
      while statements > 0
        invariant Valid() && old(log) <= log && Extends(old(State()), State()) && issued == old(issued)
          && completed == old(completed)
      {
        var e: Event := *;
        label Before:
        Apply(e);
        ExtendsTransitive(old(State()), old@Before(State()), State());
        statements := statements - 1;
      }
    }

    /** Issues one statement.  An error leaves open whether it was applied. */
    method Execute(e: Event) returns (ok: bool)
      requires Valid() && Enabled(State(), e) && !e.InsertRow?
      modifies this
      ensures Valid() && old(log) <= log && Extends(old(State()), State())
      ensures issued == old(issued) + [e]
      ensures completed == if ok then old(completed) + [e] else old(completed)
      ensures ok ==> Happened(log, |old(log)|, e)
      ensures ok && e.Enqueue? ==> e.message in accepted
      ensures ok && e.MarkStatus? && e.id in old(rows) ==> e.id in rows && rows[e.id].updatedAt > old(clock)
      ensures alone ==> State() == Step(old(State()), e) || (!ok && State() == old(State()))
    {
      hide Enabled, Run, Extends, Step, Message, At, Happened;
      ghost var s0 := State();
      issued := issued + [e];
      Interfere();
      ghost var s1, before := State(), log;
      EnabledIsStable(s0, s1, e);
      ExtendsItself(s1);
      ok := *;
      var applied: bool := *;
      if ok || applied {
        completed := if ok then completed + [e] else completed;
        AtEnd(before);
        Apply(e);
        AppliedNow(before, e);
      }
      ghost var s2, after := State(), log;
      Interfere();
      ExtendsTransitive(s0, s1, s2);
      ExtendsTransitive(s0, s2, State());
      if ok {
        HappenedStays(after, log, |before|, |old(log)|, e);
      }
      if ok && e.Enqueue? {
        EnqueueIsAccepted(s1, e);
        AcceptedStaysIn(s2, State(), e.message);
      }
      if ok && e.MarkStatus? && e.id in s0.rows {
        MarkIsStamped(s0, s1, e, State());
      }
    }

    method MarkDownloaded(id: nat) returns (ok: bool)
      requires Valid()
      modifies this
      ensures Valid() && old(log) <= log && Extends(old(State()), State())
      ensures issued == old(issued) + [MarkStatus(id, Downloaded)]
      ensures completed == if ok then old(completed) + [MarkStatus(id, Downloaded)] else old(completed)
    {
      ok := Execute(MarkStatus(id, Downloaded));
    }

    method MarkValidated(id: nat) returns (ok: bool)
      requires Valid() && id in signed
      modifies this
      ensures Valid() && old(log) <= log && Extends(old(State()), State())
      ensures issued == old(issued) + [MarkStatus(id, Validated)]
      ensures completed == if ok then old(completed) + [MarkStatus(id, Validated)] else old(completed)
      ensures ok && id in old(rows) ==> id in rows && rows[id].updatedAt > old(clock)
      ensures alone && ok ==> State() == UpdateStatus(old(State()), id, Validated)
    {
      ok := Execute(MarkStatus(id, Validated));
    }

    method MarkRecoveryPending(id: nat) returns (ok: bool)
      requires Valid()
      modifies this
      ensures Valid() && old(log) <= log && Extends(old(State()), State())
      ensures issued == old(issued) + [MarkStatus(id, RecoveryPending)]
      ensures completed == if ok then old(completed) + [MarkStatus(id, RecoveryPending)] else old(completed)
      ensures ok && id in old(rows) ==> id in rows && rows[id].updatedAt > old(clock)
      ensures alone && ok ==> State() == UpdateStatus(old(State()), id, RecoveryPending)
    {
      ok := Execute(MarkStatus(id, RecoveryPending));
    }

    method MarkEnqueued(id: nat) returns (ok: bool)
      requires Valid() && Accepted(State(), id)
      modifies this
      ensures Valid() && old(log) <= log && Extends(old(State()), State())
      ensures issued == old(issued) + [MarkStatus(id, IngestStatus.Enqueued)]
      ensures completed == if ok then old(completed) + [MarkStatus(id, IngestStatus.Enqueued)] else old(completed)
      ensures alone && ok ==> State() == UpdateStatus(old(State()), id, IngestStatus.Enqueued)
    {
      ok := Execute(MarkStatus(id, IngestStatus.Enqueued));
    }

    method MarkFailed(id: nat) returns (ok: bool)
      requires Valid()
      modifies this
      ensures Valid() && old(log) <= log && Extends(old(State()), State())
      ensures issued == old(issued) + [MarkStatus(id, Failed)]
      ensures completed == if ok then old(completed) + [MarkStatus(id, Failed)] else old(completed)
    {
      ok := Execute(MarkStatus(id, Failed));
    }

    method MarkRejected(id: nat) returns (ok: bool)
      requires Valid()
      modifies this
      ensures Valid() && old(log) <= log && Extends(old(State()), State())
      ensures issued == old(issued) + [MarkStatus(id, Rejected)]
      ensures completed == if ok then old(completed) + [MarkStatus(id, Rejected)] else old(completed)
      ensures ok && id in old(rows) ==> id in rows && rows[id].updatedAt > old(clock)
      ensures alone && ok ==> State() == UpdateStatus(old(State()), id, Rejected)
    {
      ok := Execute(MarkStatus(id, Rejected));
    }

    /** Sends a message; an accepted message stays accepted. */
    method EnqueueProcessingMessage(m: BlobPaths.ProcessingMessage) returns (ok: bool)
      requires Valid() && Enabled(State(), Enqueue(m))
      modifies this
      ensures Valid() && old(log) <= log && Extends(old(State()), State())
      ensures issued == old(issued) + [Enqueue(m)]
      ensures completed == if ok then old(completed) + [Enqueue(m)] else old(completed)
      ensures ok ==> m in accepted && Accepted(State(), m.ingestId)
      ensures alone ==> SameTables(old(State()), State())
    {
      ok := Execute(Enqueue(m));
    }

    method MarkOutboxCompleted(k: nat) returns (ok: bool)
      requires Valid() && k < |outbox| && Accepted(State(), outbox[k].ingestId)
      modifies this
      ensures Valid() && old(log) <= log && Extends(old(State()), State())
      ensures issued == old(issued) + [CompleteOutbox(k)]
      ensures completed == if ok then old(completed) + [CompleteOutbox(k)] else old(completed)
      ensures ok ==> Happened(log, |old(log)|, CompleteOutbox(k))
      ensures alone && ok ==> State() == Step(old(State()), CompleteOutbox(k))
    {
      ok := Execute(CompleteOutbox(k));
    }

    method MarkOutboxFailed(k: nat) returns (ok: bool)
      requires Valid() && k < |outbox|
      modifies this
      ensures Valid() && old(log) <= log && Extends(old(State()), State())
      ensures issued == old(issued) + [FailOutbox(k)]
      ensures completed == if ok then old(completed) + [FailOutbox(k)] else old(completed)
      ensures ok ==> Happened(log, |old(log)|, FailOutbox(k))
      ensures alone && ok ==> State() == Step(old(State()), FailOutbox(k))
    {
      ok := Execute(FailOutbox(k));
    }

    /** A look at downloaded bytes that carry the signature; nothing but memory is involved. */
    method SeeSignature(id: nat, bytes: Bytes)
      requires Valid() && HDF5_MAGIC <= bytes
      modifies this
      ensures Valid() && old(log) <= log && Extends(old(State()), State()) && id in signed
      ensures issued == old(issued) + [Event.SeeSignature(id, bytes)]
      ensures completed == old(completed) + [Event.SeeSignature(id, bytes)]
      ensures alone ==> State() == Step(old(State()), Event.SeeSignature(id, bytes))
    {
      issued := issued + [Event.SeeSignature(id, bytes)];
      completed := completed + [Event.SeeSignature(id, bytes)];
      Apply(Event.SeeSignature(id, bytes));
    }

    /** The row id of a granule not seen before, or none exactly when its key was taken. */
    method InsertDownloadingRow(granule: Granule) returns (r: Result<Option<nat>, ()>, ghost at: nat)
      requires Valid()
      modifies this
      ensures Valid() && old(log) <= log && Extends(old(State()), State())
      ensures r.Success? ==>
        && |old(log)| <= at < |log| && log[at].InsertRow? && log[at].granule == granule
        && (r.value.None? <==> KeyTaken(At(log, at).rows, granule))
        && issued == old(issued) + [log[at]] && completed == old(completed) + [log[at]]
        && (r.value.Some? ==>
              && log[at].id == r.value.value
              && r.value.value in rows && rows[r.value.value].granule == granule)
      ensures r.Failure? ==>
        && completed == old(completed)
        && (issued == old(issued)
            || (|issued| > 0 && issued == old(issued) + [issued[|issued| - 1]]
                && issued[|issued| - 1].InsertRow? && issued[|issued| - 1].granule == granule))
    {
      hide Run, Extends, KeyTaken, Message, At;
      ghost var s0 := State();
      Interfere();
      ghost var s1, before := State(), log;
      at := |before|;
      var id: nat := *;
      var ok: bool := *;
      var applied: bool := *;
      if id in rows {
        return Failure(()), at;
      }
      issued := issued + [InsertRow(id, granule)];
      var taken := KeyTaken(rows, granule);
      ExtendsItself(s1);
      if ok || applied {
        Apply(InsertRow(id, granule));
      }
      ghost var s2, after := State(), log;
      Interfere();
      ExtendsTransitive(s0, s1, s2);
      ExtendsTransitive(s0, s2, State());
      if !ok {
        return Failure(()), at;
      }
      completed := completed + [InsertRow(id, granule)];
      AtEnd(before);
      AtPrefix(before, log, at);
      assert after[at] == InsertRow(id, granule);
      if !taken {
        InsertedStays(s1, InsertRow(id, granule), State());
      }
      return Success(if taken then None else Some(id)), at;
    }

    /** The pending record of the row, newly made or already there. */
    method CreatePendingEnqueueOutbox(id: nat) returns (r: Result<nat, ()>, ghost at: nat)
      requires Valid() && Enabled(State(), CreateOutbox(id))
      modifies this
      ensures Valid() && old(log) <= log && Extends(old(State()), State())
      ensures issued == old(issued) + [CreateOutbox(id)]
      ensures completed == if r.Success? then old(completed) + [CreateOutbox(id)] else old(completed)
      ensures r.Success? ==>
        && |old(log)| <= at && AppliedAt(log, at, CreateOutbox(id))
        && PendingFrom(At(log, at + 1).outbox, id, 0) == Some(r.value)
        && r.value < |outbox| && outbox[r.value].ingestId == id
      ensures alone ==> State() == Step(old(State()), CreateOutbox(id)) || (r.Failure? && State() == old(State()))
    {
      hide Enabled, Run, Extends, Message, At, PendingFrom, Step;
      ghost var s0 := State();
      issued := issued + [CreateOutbox(id)];
      Interfere();
      ghost var s1, before := State(), log;
      at := |before|;
      EnabledIsStable(s0, s1, CreateOutbox(id));
      ExtendsItself(s1);
      var ok: bool := *;
      var applied: bool := *;
      r := Failure(());
      if ok || applied {
        Apply(CreateOutbox(id));
        CreatedIsPending(s1, id);
        if ok {
          completed := completed + [CreateOutbox(id)];
          r := Success(PendingFrom(outbox, id, 0).value);
        }
      }
      ghost var s2, after := State(), log;
      Interfere();
      ExtendsTransitive(s0, s1, s2);
      ExtendsTransitive(s0, s2, State());
      if ok {
        AtEnd(after);
        AtPrefix(after, log, at + 1);
        AppliedThen(before, after, log, CreateOutbox(id));
        RecordStays(s2, State(), r.value);
      }
    }

    /** Sends a rejected row back for processing; false exactly when it was not rejected. */
    method ReplayRejected(id: nat) returns (r: Result<bool, ()>, ghost at: nat)
      requires Valid()
      modifies this
      ensures Valid() && old(log) <= log && Extends(old(State()), State())
      ensures r.Success? ==>
        && |old(log)| <= at < |log| && log[at] == Replay(id)
        && (r.value <==> id in At(log, at).rows && At(log, at).rows[id].status == Rejected)
        && completed == old(completed) + [Replay(id)] + if r.value then [CreateOutbox(id)] else []
      ensures r == Success(true) ==> id in rows && id in replayed && Happened(log, at, CreateOutbox(id))
    {
      hide Run, Extends, KeyTaken, Message, At, Enabled;
      ghost var s0 := State();
      Interfere();
      ghost var s1, before := State(), log;
      at := |before|;
      var updated := id in rows && rows[id].status == Rejected;
      var ok: bool := *;
      var applied: bool := *;
      ExtendsItself(s1);
      issued := issued + [Replay(id)];
      if ok || applied {
        Apply(Replay(id));
      }
      ghost var s2, after := State(), log;
      ExtendsTransitive(s0, s1, s2);
      Interfere();
      ghost var s3 := State();
      ExtendsTransitive(s0, s2, s3);
      if !ok {
        return Failure(()), at;
      }
      completed := completed + [Replay(id)];
      AtEnd(before);
      assert after[at] == Replay(id);
      AtPrefix(before, log, at);
      if !updated {
        return Success(false), at;
      }
      ReplayIsKnown(s1, id);
      ReplayStays(s2, s3, id);
      EnabledIsStable(s2, s3, CreateOutbox(id));
      ghost var middle := log;
      var k, c := CreatePendingEnqueueOutbox(id);
      ReplayStays(s3, State(), id);
      ExtendsTransitive(s0, s3, State());
      AtPrefix(middle, log, at);
      if k.Failure? {
        return Failure(()), at;
      }
      CreatedHappened(log, at, c, id);
      return Success(true), at;
    }

    /** The rows to recover, as they stood at one moment of the log. */
    method RecoverableRawRows() returns (r: Result<seq<nat>, ()>, ghost at: nat)
      requires Valid()
      modifies this
      ensures Valid() && old(log) <= log && Extends(old(State()), State())
      ensures |old(log)| <= at <= |log| && Extends(At(log, at), State())
      ensures r.Success? ==>
        && IsRecoverySelection(At(log, at).rows, r.value)
        && forall i | 0 <= i < |r.value| :: r.value[i] in rows
      ensures alone ==> State() == old(State()) && log == old(log)
    {
      hide Run, Extends, At, Message, NotYounger;
      ghost var s0 := State();
      Interfere();
      ghost var s1, before := State(), log;
      at := |before|;
      var ids: seq<nat> := *;
      var ok := IsRecoverySelection(rows, ids);
      Interfere();
      ExtendsTransitive(s0, s1, State());
      AtEnd(before);
      AtPrefix(before, log, at);
      if !ok {
        return Failure(()), at;
      }
      RowsStay(s1, State(), ids);
      return Success(ids), at;
    }

    /** The records to send, with the data of their rows, as they stood at one moment of the log. */
    method PendingEnqueueOutbox() returns (r: Result<seq<PendingRecord>, ()>, ghost at: nat)
      requires Valid()
      modifies this
      ensures Valid() && old(log) <= log && Extends(old(State()), State())
      ensures |old(log)| <= at <= |log| && Extends(At(log, at), State())
      ensures r.Success? ==>
        && Keys(r.value) == DrainSelection(At(log, at))
        && forall i | 0 <= i < |r.value| ::
             && r.value[i].k < |outbox| && outbox[r.value[i].k].ingestId == r.value[i].ingestId
             && r.value[i].ingestId in rows && rows[r.value[i].ingestId].granule == r.value[i].granule
      ensures alone ==> State() == old(State()) && log == old(log)
    {
      hide Run, Extends, At, Message, DrainSelection;
      ghost var s0 := State();
      Interfere();
      ghost var s1, before := State(), log;
      at := |before|;
      var ok: bool := *;
      var records := RecordsOf(State(), DrainSelection(State()));
      Interfere();
      ExtendsTransitive(s0, s1, State());
      AtEnd(before);
      AtPrefix(before, log, at);
      RecordsStay(s1, State(), records);
      return if ok then Success(records) else Failure(()), at;
    }
  }

  function Keys(records: seq<PendingRecord>): (ks: seq<nat>)
    ensures |ks| == |records| && forall i | 0 <= i < |ks| :: ks[i] == records[i].k
  {
    if records == [] then [] else [records[0].k] + Keys(records[1..])
  }

  /** What the drain query returns for the records with the given indices. */
  function RecordsOf(s: State, ks: seq<nat>): (records: seq<PendingRecord>)
    requires forall i | 0 <= i < |ks| :: ks[i] < |s.outbox| && IsEligible(s, ks[i])
    ensures Keys(records) == ks
    ensures forall i | 0 <= i < |records| ::
      && records[i].k < |s.outbox| && s.outbox[records[i].k].ingestId == records[i].ingestId
      && records[i].ingestId in s.rows && s.rows[records[i].ingestId].granule == records[i].granule
  {
    if ks == [] then []
    else
      var id := s.outbox[ks[0]].ingestId;
      assert IsEligible(s, ks[0]);
      [PendingRecord(ks[0], id, s.rows[id].granule)] + RecordsOf(s, ks[1..])
  }

  lemma RecordsStay(s: State, t: State, records: seq<PendingRecord>)
    requires Extends(s, t)
    requires forall i | 0 <= i < |records| ::
      && records[i].k < |s.outbox| && s.outbox[records[i].k].ingestId == records[i].ingestId
      && records[i].ingestId in s.rows && s.rows[records[i].ingestId].granule == records[i].granule
    ensures forall i | 0 <= i < |records| ::
      && records[i].k < |t.outbox| && t.outbox[records[i].k].ingestId == records[i].ingestId
      && records[i].ingestId in t.rows && t.rows[records[i].ingestId].granule == records[i].granule
  {
  }

  lemma RowsStay(s: State, t: State, ids: seq<nat>)
    requires Extends(s, t) && forall i | 0 <= i < |ids| :: ids[i] in s.rows
    ensures forall i | 0 <= i < |ids| :: ids[i] in t.rows
  {
  }

  lemma RecordStays(s: State, t: State, k: nat)
    requires Extends(s, t) && k < |s.outbox|
    ensures k < |t.outbox| && t.outbox[k].ingestId == s.outbox[k].ingestId
  {
  }

  lemma InsertedStays(s: State, e: Event, t: State)
    requires e.InsertRow? && Enabled(s, e) && Extends(Step(s, e), t) && !KeyTaken(s.rows, e.granule)
    ensures e.id in t.rows && t.rows[e.id].granule == e.granule
  {
  }

  lemma CreatedIsPending(s: State, id: nat)
    requires Enabled(s, CreateOutbox(id))
    ensures PendingFrom(Step(s, CreateOutbox(id)).outbox, id, 0).Some?
  {
    var t := Step(s, CreateOutbox(id));
    if PendingFrom(s.outbox, id, 0).None? {
      assert t.outbox[|s.outbox|] == OutboxRecord(id, Pending, 0);
    }
  }

  lemma ReplayIsKnown(s: State, id: nat)
    requires id in s.rows && s.rows[id].status == Rejected
    ensures id in Step(s, Replay(id)).rows && id in Step(s, Replay(id)).replayed
    ensures Enabled(Step(s, Replay(id)), CreateOutbox(id))
  {
  }
}
