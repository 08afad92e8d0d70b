/** Recovery and replay (backend/ingest-svc/src/jobs/recovery.rs). */
module IngestRecovery {
  import opened Wrappers
  import opened IngestLog
  import opened IngestTables
  import BlobPaths

  datatype RecoverySummary = RecoverySummary(
    rawRowsExamined: nat, rawRowsValidated: nat, rawRowsRejected: nat, outboxExamined: nat, enqueued: nat, failed: nat)

  const NO_RECOVERY := RecoverySummary(0, 0, 0, 0, 0, 0)

  // ------------------------------------------------------------------------ draining the outbox

  function DrainRecord(s: State, k: nat, sent: bool): (t: State)
    requires k < |s.outbox|
    ensures |t.outbox| == |s.outbox|
  {
    if sent then
      UpdateStatus(s, s.outbox[k].ingestId, Enqueued).(
        outbox := s.outbox[k := s.outbox[k].(status := Completed)])
    else s.(outbox := s.outbox[k := FailRecord(s.outbox[k])])
  }

  /** The tables after the records ks were tried in order, with the given fortune. */
  function Drain(s: State, ks: seq<nat>, sent: seq<bool>): (t: State)
    requires |ks| == |sent| && forall i | 0 <= i < |ks| :: ks[i] < |s.outbox|
    ensures |t.outbox| == |s.outbox|
    decreases |ks|
  {
    if ks == [] then s
    else
      var last := |ks| - 1;
      DrainRecord(Drain(s, ks[..last], sent[..last]), ks[last], sent[last])
  }

  function CountTrue(bs: seq<bool>): (n: nat)
    ensures n <= |bs|
  {
    if bs == [] then 0 else CountTrue(bs[..|bs| - 1]) + if bs[|bs| - 1] then 1 else 0
  }

  ghost predicate InPlace(s: State, r: PendingRecord) {
    && r.k < |s.outbox| && s.outbox[r.k].ingestId == r.ingestId
    && r.ingestId in s.rows && s.rows[r.ingestId].granule == r.granule
    && (r.ingestId in s.signed || r.ingestId in s.replayed)
  }

  ghost predicate AllInPlace(s: State, records: seq<PendingRecord>) {
    forall i | 0 <= i < |records| :: InPlace(s, records[i])
  }

  lemma SelectedAreInPlace(db: IngestStore, records: seq<PendingRecord>)
    requires db.Valid()
    requires forall i | 0 <= i < |records| ::
      && records[i].k < |db.outbox| && db.outbox[records[i].k].ingestId == records[i].ingestId
      && records[i].ingestId in db.rows && db.rows[records[i].ingestId].granule == records[i].granule
    ensures AllInPlace(db.State(), records)
  {
    EveryRunIsSafe(db.log);
  }

  lemma PickInPlace(s: State, records: seq<PendingRecord>, i: nat)
    requires i < |records| && AllInPlace(s, records)
    ensures InPlace(s, records[i]) && records[i].k < |s.outbox|
  {
  }

  lemma AllStayInPlace(s: State, t: State, records: seq<PendingRecord>)
    requires Extends(s, t) && AllInPlace(s, records)
    ensures AllInPlace(t, records)
  {
    forall i | 0 <= i < |records| ensures InPlace(t, records[i]) {
      StaysInPlace(s, t, records[i]);
    }
  }

  lemma StaysInPlace(s: State, t: State, r: PendingRecord)
    requires Extends(s, t) && InPlace(s, r)
    ensures InPlace(t, r)
  {
  }

  /** The log from p on says how record k fared. */
  ghost predicate Tried(log: seq<Event>, p: nat, k: nat, sent: bool) {
    Happened(log, p, if sent then CompleteOutbox(k) else FailOutbox(k))
  }

  /** Sends one outbox record: true when the queue took the message, which is then recorded on the
    * row first and the record second; false when an attempt was used instead. */
  method EnqueueRecord(db: IngestStore, record: PendingRecord) returns (r: Result<bool, ()>)
    requires db.Valid() && InPlace(db.State(), record)
    modifies db
    ensures db.Valid() && old(db.log) <= db.log && Extends(old(db.State()), db.State())
    ensures r.Success? ==> Tried(db.log, |old(db.log)|, record.k, r.value)
    ensures r == Success(true) ==>
      var message := IngestLog.Message(record.ingestId, record.granule);
      && message.Success? && Accepted(db.State(), record.ingestId)
      && db.completed == old(db.completed) + [Enqueue(message.value)] + [MarkStatus(record.ingestId, Enqueued)]
                         + [CompleteOutbox(record.k)]
    ensures r == Success(false) ==>
      var message := IngestLog.Message(record.ingestId, record.granule);
      && db.completed == old(db.completed) + [FailOutbox(record.k)]
      && db.issued == old(db.issued) + (if message.Success? then [Enqueue(message.value)] else [])
                       + [FailOutbox(record.k)]
    ensures db.alone && r.Success? ==> SameTables(DrainRecord(old(db.State()), record.k, r.value), db.State())
  {
    hide Message, Run, Accepted, IngestStore.Valid, FailRecord, Extends, Enabled, DrainRecord, SameTables;
    hide Tried, Happened;
    ghost var s0, log0 := db.State(), db.log;
    var message := IngestLog.Message(record.ingestId, record.granule);
    if message.Success? {
      r := SendRecord(db, record, message.value);
      return;
    }
    var marked := db.MarkOutboxFailed(record.k);
    assert db.issued == old(db.issued) + [] + [FailOutbox(record.k)];
    if marked {
      FailedIsTried(log0, db.log, record.k);
    }
    if marked && db.alone {
      FailedTables(s0, s0, db.State(), record.k);
    }
    return if marked then Success(false) else Failure(());
  }

  /** Sends the message of one outbox record. */
  method SendRecord(db: IngestStore, record: PendingRecord, m: BlobPaths.ProcessingMessage)
    returns (r: Result<bool, ()>)
    requires db.Valid() && InPlace(db.State(), record)
    requires IngestLog.Message(record.ingestId, record.granule) == Success(m)
    modifies db
    ensures db.Valid() && old(db.log) <= db.log && Extends(old(db.State()), db.State())
    ensures r.Success? ==> Tried(db.log, |old(db.log)|, record.k, r.value)
    ensures r == Success(true) ==>
      && Accepted(db.State(), record.ingestId)
      && db.completed == old(db.completed) + [Enqueue(m)] + [MarkStatus(record.ingestId, Enqueued)]
                         + [CompleteOutbox(record.k)]
    ensures r == Success(false) ==>
      && db.completed == old(db.completed) + [FailOutbox(record.k)]
      && db.issued == old(db.issued) + [Enqueue(m)] + [FailOutbox(record.k)]
    ensures db.alone && r.Success? ==> SameTables(DrainRecord(old(db.State()), record.k, r.value), db.State())
  {
    hide Message, Run, Accepted, IngestStore.Valid, FailRecord, Extends, DrainRecord, SameTables, UpdateStatus, Step;
    hide Tried;
    ghost var s0, log0 := db.State(), db.log;
    NamesRow(record.ingestId, record.granule);
    var ok := db.EnqueueProcessingMessage(m);
    ghost var s1, log1 := db.State(), db.log;
    StaysInPlace(s0, s1, record);
    if !ok {
      var marked := db.MarkOutboxFailed(record.k);
      ExtendsTransitive(s0, s1, db.State());
      if marked {
        HappenedStays(db.log, db.log, |log1|, |log0|, FailOutbox(record.k));
        FailedIsTried(log0, db.log, record.k);
      }
      if marked && db.alone {
        FailedTables(s0, s1, db.State(), record.k);
      }
      return if marked then Success(false) else Failure(());
    }
    ok := db.MarkEnqueued(record.ingestId);
    ghost var s2, log2 := db.State(), db.log;
    ExtendsTransitive(s0, s1, s2);
    StaysInPlace(s1, s2, record);
    AcceptedGrows(s1, s2, record.ingestId);
    if !ok {
      return Failure(());
    }
    ok := db.MarkOutboxCompleted(record.k);
    ExtendsTransitive(s0, s2, db.State());
    AcceptedGrows(s2, db.State(), record.ingestId);
    if !ok {
      return Failure(());
    }
    HappenedStays(db.log, db.log, |log2|, |log0|, CompleteOutbox(record.k));
    SentIsTried(log0, db.log, record.k);
    if db.alone {
      SentTables(s0, s1, s2, db.State(), record.k);
    }
    return Success(true);
  }

  lemma FailedIsTried(before: seq<Event>, log: seq<Event>, k: nat)
    requires Happened(log, |before|, FailOutbox(k))
    ensures Tried(log, |before|, k, false)
  {
  }

  lemma SentIsTried(before: seq<Event>, log: seq<Event>, k: nat)
    requires Happened(log, |before|, CompleteOutbox(k))
    ensures Tried(log, |before|, k, true)
  {
  }

  lemma FailedTables(s: State, t: State, u: State, k: nat)
    requires SameTables(s, t) && k < |t.outbox| && u == Step(t, FailOutbox(k))
    ensures SameTables(DrainRecord(s, k, false), u)
  {
  }

  lemma SentTables(s: State, t: State, u: State, v: State, k: nat)
    requires SameTables(s, t) && k < |t.outbox| && u == UpdateStatus(t, t.outbox[k].ingestId, Enqueued)
    requires Enabled(u, CompleteOutbox(k)) && v == Step(u, CompleteOutbox(k))
    ensures SameTables(DrainRecord(s, k, true), v)
  {
  }

  lemma NamesRow(id: nat, g: Granule)
    ensures IngestLog.Message(id, g).Success? ==> IngestLog.Message(id, g).value.ingestId == id
  {
  }

  /** A drain between positions p and q of a log: the records ks were the answer to the query at
    * p, and the log up to q says how each of them fared. */
  ghost predicate DrainRun(log: seq<Event>, p: nat, q: nat, ks: seq<nat>, sent: seq<bool>) {
    && p <= q <= |log| && |sent| == |ks|
    && ks == DrainSelection(At(log, p))
    && AllTried(log[..q], p, ks, sent)
  }

  ghost predicate AllTried(log: seq<Event>, p: nat, ks: seq<nat>, sent: seq<bool>)
    requires |sent| <= |ks|
  {
    forall i | 0 <= i < |sent| :: Tried(log, p, ks[i], sent[i])
  }

  lemma TriedNext(log: seq<Event>, longer: seq<Event>, p: nat, ks: seq<nat>, sent: seq<bool>, b: bool)
    requires p <= |log| && log <= longer && |sent| < |ks|
    requires AllTried(log, p, ks, sent) && Tried(longer, |log|, ks[|sent|], b)
    ensures AllTried(longer, p, ks, sent + [b])
  {
    var more := sent + [b];
    forall i | 0 <= i < |more| ensures Tried(longer, p, ks[i], more[i]) {
      var e := if more[i] then CompleteOutbox(ks[i]) else FailOutbox(ks[i]);
      if i < |sent| {
        assert Tried(log, p, ks[i], sent[i]);
        HappenedStays(log, longer, p, p, e);
      } else {
        HappenedStays(longer, longer, |log|, p, e);
      }
    }
  }

  /** Enqueues what the outbox holds for rows that wait for it, at most a batch of it. */
  method EnqueuePendingOutbox(db: IngestStore, before: RecoverySummary)
    returns (r: Result<RecoverySummary, ()>, ghost p: nat, ghost ks: seq<nat>, ghost sent: seq<bool>)
    requires db.Valid()
    modifies db
    ensures db.Valid() && old(db.log) <= db.log && Extends(old(db.State()), db.State())
    ensures r.Success? ==>
      && |old(db.log)| <= p && DrainRun(db.log, p, |db.log|, ks, sent)
      && r.value == before.(outboxExamined := before.outboxExamined + |ks|,
                            enqueued := before.enqueued + CountTrue(sent),
                            failed := before.failed + |ks| - CountTrue(sent))
    ensures db.alone && r.Success? ==> DrainedSoFar(old(db.State()), db.State(), ks, sent)
    ensures db.alone && r.Success? ==> ks == DrainSelection(old(db.State()))
  {
    hide Run, IngestStore.Valid, DrainSelection, SameTables, Extends, InPlace, AllInPlace, At, CountTrue;
    hide DrainedSoFar, AllTried, Message, Accepted;
    p, ks, sent := 0, [], [];
    ghost var start := db.State();
    var selected;
    selected, p := db.PendingEnqueueOutbox();
    if selected.Failure? {
      return Failure(()), p, ks, sent;
    }
    ks := Keys(selected.value);
    ghost var s, queried := db.State(), db.log;
    if db.alone {
      AloneSelection(db, start, p);
    }
    SelectedAreInPlace(db, selected.value);
    r, sent := TryRecords(db, selected.value, before);
    ExtendsTransitive(start, s, db.State());
    if r.Success? {
      TriedEarlier(db.log, p, |queried|, ks, sent);
      AtPrefix(queried, db.log, p);
      assert db.log[..|db.log|] == db.log;
    }
  }

  method TryRecords(db: IngestStore, records: seq<PendingRecord>, before: RecoverySummary)
    returns (r: Result<RecoverySummary, ()>, ghost sent: seq<bool>)
    requires db.Valid() && AllInPlace(db.State(), records)
    modifies db
    ensures db.Valid() && old(db.log) <= db.log && Extends(old(db.State()), db.State())
    ensures r.Success? ==>
      && |sent| == |records| && AllTried(db.log, |old(db.log)|, Keys(records), sent)
      && r.value == before.(outboxExamined := before.outboxExamined + |records|,
                            enqueued := before.enqueued + CountTrue(sent),
                            failed := before.failed + |records| - CountTrue(sent))
    ensures db.alone && r.Success? ==> DrainedSoFar(old(db.State()), db.State(), Keys(records), sent)
  {
    hide Run, IngestStore.Valid, SameTables, DrainRecord, Extends, InPlace, AllInPlace, CountTrue;
    hide DrainedSoFar, AllTried, Tried, Message, Accepted;
    ghost var start, log0, ks := db.State(), db.log, Keys(records);
    sent := [];
    ExtendsItself(start);
    DrainedNothing(start, start);
    CountNothing();
    NothingTried(log0, |log0|, ks);
    var summary := before;
    for i := 0 to |records|
      invariant db.Valid() && log0 <= db.log && Extends(start, db.State()) && |sent| == i
      invariant AllInPlace(db.State(), records) && AllTried(db.log, |log0|, ks, sent)
      invariant summary == before.(outboxExamined := before.outboxExamined + i,
                                   enqueued := before.enqueued + CountTrue(sent),
                                   failed := before.failed + i - CountTrue(sent))
      invariant db.alone ==> DrainedSoFar(start, db.State(), ks[..i], sent)
    {
      ghost var s, log := db.State(), db.log;
      PickInPlace(s, records, i);
      var result := EnqueueRecord(db, records[i]);
      ExtendsTransitive(start, s, db.State());
      AllStayInPlace(s, db.State(), records);
      if result.Failure? {
        return Failure(()), sent;
      }
      summary := summary.(outboxExamined := summary.outboxExamined + 1);
      if result.value {
        summary := summary.(enqueued := summary.enqueued + 1);
      } else {
        summary := summary.(failed := summary.failed + 1);
      }
      if db.alone {
        DrainedNext(start, s, db.State(), ks[..i], sent, records[i].k, result.value);
        assert ks[..i] + [records[i].k] == ks[..i + 1];
      }
      TriedNext(log, db.log, |log0|, ks, sent, result.value);
      CountNext(sent, result.value);
      sent := sent + [result.value];
    }
    assert ks[..|records|] == ks;
    return Success(summary), sent;
  }

  lemma TriedEarlier(log: seq<Event>, p: nat, q: nat, ks: seq<nat>, sent: seq<bool>)
    requires p <= q <= |log| && |sent| <= |ks| && AllTried(log, q, ks, sent)
    ensures AllTried(log, p, ks, sent)
  {
    forall i | 0 <= i < |sent| ensures Tried(log, p, ks[i], sent[i]) {
      assert Tried(log, q, ks[i], sent[i]);
      HappenedStays(log, log, q, p, if sent[i] then CompleteOutbox(ks[i]) else FailOutbox(ks[i]));
    }
  }

  /** What a store without other processes selects is selected from the state it is in. */
  lemma AloneSelection(db: IngestStore, s: State, p: nat)
    requires db.Valid() && db.State() == s && p == |db.log|
    ensures At(db.log, p) == s
  {
    AtEnd(db.log);
  }

  ghost predicate DrainedSoFar(s: State, t: State, ks: seq<nat>, sent: seq<bool>) {
    && |ks| == |sent| && (forall i | 0 <= i < |ks| :: ks[i] < |s.outbox|)
    && SameTables(Drain(s, ks, sent), t)
  }

  lemma DrainedNothing(s: State, t: State)
    requires s == t
    ensures DrainedSoFar(s, t, [], [])
  {
  }

  lemma DrainedNext(s: State, t: State, u: State, ks: seq<nat>, sent: seq<bool>, k: nat, b: bool)
    requires DrainedSoFar(s, t, ks, sent) && k < |t.outbox| && SameTables(DrainRecord(t, k, b), u)
    ensures DrainedSoFar(s, u, ks + [k], sent + [b])
  {
    assert (ks + [k])[..|ks|] == ks && (sent + [b])[..|sent|] == sent;
  }

  lemma NothingTried(log: seq<Event>, p: nat, ks: seq<nat>)
    requires p <= |log|
    ensures AllTried(log, p, ks, [])
  {
  }

  lemma CountNothing()
    ensures CountTrue([]) == 0
  {
  }

  lemma CountNext(sent: seq<bool>, b: bool)
    ensures CountTrue(sent + [b]) == CountTrue(sent) + if b then 1 else 0
  {
    assert (sent + [b])[..|sent|] == sent;
  }

  // ---------------------------------------------------------------------------- examining raw rows

  datatype RowOutcome = Unreadable | RowRejected | RowValidated

  function OutcomeOf(download: Option<Bytes>): RowOutcome {
    if download.None? then Unreadable
    else if HDF5_MAGIC <= download.value then RowValidated
    else RowRejected
  }

  /** The statements that examining a row completes. */
  function RowScript(id: nat, download: Option<Bytes>): seq<Event> {
    match OutcomeOf(download)
    case Unreadable => [MarkStatus(id, RecoveryPending)]
    case RowRejected => [MarkStatus(id, Rejected)]
    case RowValidated => [SeeSignature(id, download.value)] + [MarkStatus(id, Validated)] + [CreateOutbox(id)]
  }

  function AddPending(s: State, id: nat): State {
    if PendingFrom(s.outbox, id, 0).Some? then s else s.(outbox := s.outbox + [OutboxRecord(id, Pending, 0)])
  }

  /** The tables after one row was examined. */
  function ExamineRow(s: State, id: nat, outcome: RowOutcome): State {
    match outcome
    case Unreadable => UpdateStatus(s, id, RecoveryPending)
    case RowRejected => UpdateStatus(s, id, Rejected)
    case RowValidated => AddPending(UpdateStatus(s, id, Validated), id)
  }

  /** The tables after the rows ids were examined in order. */
  function Examine(s: State, ids: seq<nat>, download: nat -> Option<Bytes>): State {
    if ids == [] then s
    else
      var last := |ids| - 1;
      ExamineRow(Examine(s, ids[..last], download), ids[last], OutcomeOf(download(last)))
  }

  /** Examines the stored blob of one row, which may be unreadable. */
  method RecoverRow(db: IngestStore, id: nat, download: Option<Bytes>) returns (r: Result<RowOutcome, ()>)
    requires db.Valid() && id in db.rows
    modifies db
    ensures db.Valid() && old(db.log) <= db.log && Extends(old(db.State()), db.State())
    ensures r.Success? ==>
      && r.value == OutcomeOf(download)
      && db.completed == old(db.completed) + RowScript(id, download)
      && id in db.rows && db.rows[id].updatedAt > old(db.clock)
    ensures r == Success(RowValidated) ==>
      id in db.signed && exists k :: 0 <= k < |db.outbox| && db.outbox[k].ingestId == id
    ensures db.alone && r.Success? ==> SameTables(ExamineRow(old(db.State()), id, r.value), db.State())
  {
    hide Run, IngestStore.Valid, Extends, UpdateStatus, At, PendingFrom, Message, Accepted, SameTables, ExamineRow;
    ghost var s0 := db.State();
    if download.None? {
      var ok := db.MarkRecoveryPending(id);
      if ok && db.alone {
        StatusTables(s0, db.State(), id, Unreadable);
      }
      return if ok then Success(Unreadable) else Failure(());
    }
    if ValidateRawGranuleBytes(download.value).Failure? {
      var ok := db.MarkRejected(id);
      if ok && db.alone {
        StatusTables(s0, db.State(), id, RowRejected);
      }
      return if ok then Success(RowRejected) else Failure(());
    }
    r := RecoverSigned(db, id, download.value);
  }

  method RecoverSigned(db: IngestStore, id: nat, bytes: Bytes) returns (r: Result<RowOutcome, ()>)
    requires db.Valid() && id in db.rows && HDF5_MAGIC <= bytes
    modifies db
    ensures db.Valid() && old(db.log) <= db.log && Extends(old(db.State()), db.State())
    ensures r.Success? ==>
      && r.value == RowValidated
      && db.completed == old(db.completed) + RowScript(id, Some(bytes))
      && id in db.rows && db.rows[id].updatedAt > old(db.clock) && id in db.signed
      && exists k :: 0 <= k < |db.outbox| && db.outbox[k].ingestId == id
    ensures db.alone && r.Success? ==> SameTables(ExamineRow(old(db.State()), id, RowValidated), db.State())
  {
    hide Run, IngestStore.Valid, Extends, UpdateStatus, At, PendingFrom, Message, Accepted, SameTables, ExamineRow;
    hide Step;
    ghost var s0 := db.State();
    db.SeeSignature(id, bytes);
    ghost var s1 := db.State();
    RowStays(s0, s1, id);
    var ok := db.MarkValidated(id);
    ghost var s2 := db.State();
    ExtendsTransitive(s0, s1, s2);
    ClockGrows(s0, s1);
    if !ok {
      return Failure(());
    }
    RowStays(s1, s2, id);
    var k, _ := db.CreatePendingEnqueueOutbox(id);
    RowStays(s2, db.State(), id);
    StampStays(s2, db.State(), id, s0.clock);
    ExtendsTransitive(s0, s2, db.State());
    if k.Failure? {
      return Failure(());
    }
    if db.alone {
      ValidatedTables(s0, s1, s2, db.State(), id, bytes);
    }
    return Success(RowValidated);
  }

  lemma StatusTables(s: State, t: State, id: nat, outcome: RowOutcome)
    requires outcome != RowValidated
    requires t == UpdateStatus(s, id, if outcome == Unreadable then RecoveryPending else Rejected)
    ensures SameTables(ExamineRow(s, id, outcome), t)
  {
  }

  lemma ValidatedTables(s: State, t: State, u: State, v: State, id: nat, bytes: Bytes)
    requires HDF5_MAGIC <= bytes && t == Step(s, SeeSignature(id, bytes)) && u == UpdateStatus(t, id, Validated)
    requires Enabled(u, CreateOutbox(id)) && v == Step(u, CreateOutbox(id))
    ensures SameTables(ExamineRow(s, id, RowValidated), v)
  {
  }

  lemma ClockGrows(s: State, t: State)
    requires Extends(s, t)
    ensures s.clock <= t.clock
  {
  }

  lemma StampStays(s: State, t: State, id: nat, clock: nat)
    requires Extends(s, t) && id in s.rows && s.rows[id].updatedAt > clock && clock <= s.clock
    ensures id in t.rows && t.rows[id].updatedAt > clock
  {
  }

  ghost predicate Stamped(s: State, ids: seq<nat>, clock: nat) {
    forall i | 0 <= i < |ids| :: ids[i] in s.rows && s.rows[ids[i]].updatedAt > clock
  }

  /** The examination of raw rows between positions p and q of a log: the rows ids were the answer
    * to the query at p, and by q each of them carries a stamp newer than p. */
  ghost predicate RecoveryRun(log: seq<Event>, p: nat, q: nat, ids: seq<nat>) {
    && p <= q <= |log| && IsRecoverySelection(At(log, p).rows, ids) && Stamped(At(log, q), ids, At(log, p).clock)
  }

  /** How many of the first n downloads have the outcome. */
  function CountOutcomes(download: nat -> Option<Bytes>, n: nat, outcome: RowOutcome): nat {
    if n == 0 then 0
    else CountOutcomes(download, n - 1, outcome) + if OutcomeOf(download(n - 1)) == outcome then 1 else 0
  }

  /** Examines the selected raw rows; download gives the stored bytes of the i-th one, if readable. */
  method ExamineRawRows(db: IngestStore, download: nat -> Option<Bytes>)
    returns (r: Result<RecoverySummary, ()>, ghost p: nat, ghost ids: seq<nat>)
    requires db.Valid()
    modifies db
    ensures db.Valid() && old(db.log) <= db.log && Extends(old(db.State()), db.State())
    ensures r.Success? ==>
      && |old(db.log)| <= p && RecoveryRun(db.log, p, |db.log|, ids)
      && r.value == RecoverySummary(|ids|, CountOutcomes(download, |ids|, RowValidated),
                                    CountOutcomes(download, |ids|, RowRejected), 0, 0,
                                    CountOutcomes(download, |ids|, Unreadable))
    ensures db.alone && r.Success? ==>
      && IsRecoverySelection(old(db.State()).rows, ids)
      && SameTables(Examine(old(db.State()), ids, download), db.State())
  {
    hide Run, IngestStore.Valid, Extends, IsRecoverySelection, At, Stamped, SameTables, Examine, CountOutcomes;
    p, ids := 0, [];
    ghost var start := db.State();
    var selected;
    selected, p := db.RecoverableRawRows();
    if selected.Failure? {
      return Failure(()), p, ids;
    }
    ids := selected.value;
    ghost var s, queried := db.State(), db.log;
    if db.alone {
      AloneSelection(db, start, p);
    }
    r := ExamineRows(db, selected.value, download);
    ExtendsTransitive(start, s, db.State());
    if r.Success? {
      AtPrefix(queried, db.log, p);
      StampedSince(At(db.log, p), s, db.State(), ids);
      NowAt(db);
    }
  }

  method ExamineRows(db: IngestStore, rows: seq<nat>, download: nat -> Option<Bytes>)
    returns (r: Result<RecoverySummary, ()>)
    requires db.Valid() && forall i | 0 <= i < |rows| :: rows[i] in db.rows
    modifies db
    ensures db.Valid() && old(db.log) <= db.log && Extends(old(db.State()), db.State())
    ensures r.Success? ==>
      && Stamped(db.State(), rows, old(db.clock))
      && r.value == RecoverySummary(|rows|, CountOutcomes(download, |rows|, RowValidated),
                                    CountOutcomes(download, |rows|, RowRejected), 0, 0,
                                    CountOutcomes(download, |rows|, Unreadable))
    ensures db.alone && r.Success? ==> SameTables(Examine(old(db.State()), rows, download), db.State())
  {
    hide Run, IngestStore.Valid, Extends, Stamped, SameTables, Examine, ExamineRow, RowScript;
    ghost var s, log := db.State(), db.log;
    NothingExamined(s, download, s.clock);
    var summary := NO_RECOVERY;
    ExtendsItself(s);
    for i := 0 to |rows|
      invariant db.Valid() && log <= db.log && Extends(s, db.State())
      invariant forall j | 0 <= j < |rows| :: rows[j] in db.rows
      invariant Stamped(db.State(), rows[..i], s.clock)
      invariant summary == RecoverySummary(i, CountOutcomes(download, i, RowValidated),
                                           CountOutcomes(download, i, RowRejected), 0, 0,
                                           CountOutcomes(download, i, Unreadable))
      invariant db.alone ==> SameTables(Examine(s, rows[..i], download), db.State())
    {
      ghost var t := db.State();
      ClockGrows(s, t);
      var outcome := RecoverRow(db, rows[i], download(i));
      ExtendsTransitive(s, t, db.State());
      RowsStay(t, db.State(), rows);
      if outcome.Failure? {
        return Failure(());
      }
      summary := summary.(rawRowsExamined := summary.rawRowsExamined + 1);
      match outcome.value {
        case Unreadable => summary := summary.(failed := summary.failed + 1);
        case RowRejected => summary := summary.(rawRowsRejected := summary.rawRowsRejected + 1);
        case RowValidated => summary := summary.(rawRowsValidated := summary.rawRowsValidated + 1);
      }
      StampedNext(t, db.State(), rows, i, s.clock);
      if db.alone {
        ExaminedNext(s, t, db.State(), rows, i, download);
      }
    }
    assert rows[..|rows|] == rows;
    return Success(summary);
  }

  lemma StampedSince(s: State, t: State, u: State, ids: seq<nat>)
    requires Extends(s, t) && Stamped(u, ids, t.clock)
    ensures Stamped(u, ids, s.clock)
  {
  }

  lemma NowAt(db: IngestStore)
    requires db.Valid()
    ensures At(db.log, |db.log|) == db.State()
  {
    AtEnd(db.log);
  }

  lemma NothingExamined(s: State, download: nat -> Option<Bytes>, clock: nat)
    ensures Stamped(s, [], clock) && SameTables(Examine(s, [], download), s)
  {
  }

  lemma StampedNext(s: State, t: State, ids: seq<nat>, i: nat, clock: nat)
    requires Extends(s, t) && i < |ids| && clock <= s.clock && Stamped(s, ids[..i], clock)
    requires ids[i] in t.rows && t.rows[ids[i]].updatedAt > s.clock
    ensures Stamped(t, ids[..i + 1], clock)
  {
    forall j | 0 <= j < i + 1 ensures ids[j] in t.rows && t.rows[ids[j]].updatedAt > clock {
      if j < i {
        assert ids[..i][j] == ids[j];
        StampStays(s, t, ids[j], clock);
      }
    }
  }

  lemma ExaminedNext(s: State, t: State, u: State, ids: seq<nat>, i: nat, download: nat -> Option<Bytes>)
    requires i < |ids| && SameTables(Examine(s, ids[..i], download), t)
    requires SameTables(ExamineRow(t, ids[i], OutcomeOf(download(i))), u)
    ensures SameTables(Examine(s, ids[..i + 1], download), u)
  {
    assert ids[..i + 1][..i] == ids[..i];
    hide PendingFrom;
  }

  /** One recovery run: raw rows first, then the outbox. */
  method RunRecovery(db: IngestStore, download: nat -> Option<Bytes>)
    returns (r: Result<RecoverySummary, ()>, ghost p: nat, ghost ids: seq<nat>,
             ghost d: nat, ghost ks: seq<nat>, ghost sent: seq<bool>)
    requires db.Valid()
    modifies db
    ensures db.Valid() && old(db.log) <= db.log && Extends(old(db.State()), db.State())
    ensures r.Success? ==>
      && |old(db.log)| <= p <= d && RecoveryRun(db.log, p, d, ids) && DrainRun(db.log, d, |db.log|, ks, sent)
      && r.value == RecoverySummary(|ids|, CountOutcomes(download, |ids|, RowValidated),
                                    CountOutcomes(download, |ids|, RowRejected), |ks|, CountTrue(sent),
                                    CountOutcomes(download, |ids|, Unreadable) + |ks| - CountTrue(sent))
    ensures db.alone && r.Success? ==>
      var examined := Examine(old(db.State()), ids, download);
      && IsRecoverySelection(old(db.State()).rows, ids)
      && ks == DrainSelection(examined) && DrainedSoFar(examined, db.State(), ks, sent)
  {
    hide Run, IngestStore.Valid, Extends, IsRecoverySelection, At, Stamped, SameTables, Examine, DrainSelection;
    hide DrainedSoFar, DrainRun, CountTrue, RecoveryRun;
    p, ids, d, ks, sent := 0, [], 0, [], [];
    ghost var start := db.State();
    var examined;
    examined, p, ids := ExamineRawRows(db, download);
    if examined.Failure? {
      return Failure(()), p, ids, d, ks, sent;
    }
    ghost var s, log := db.State(), db.log;
    r, d, ks, sent := EnqueuePendingOutbox(db, examined.value);
    ExtendsTransitive(start, s, db.State());
    if r.Success? {
      RunOrder(log, p, ids, db.log, d, ks, sent);
      ExaminedUntil(log, db.log, p, d, ids);
    }
    if r.Success? && db.alone {
      SameSelection(s, Examine(start, ids, download));
      SameDrain(Examine(start, ids, download), s, db.State(), ks, sent);
    }
  }

  lemma RunOrder(log: seq<Event>, p: nat, ids: seq<nat>, longer: seq<Event>, d: nat, ks: seq<nat>, sent: seq<bool>)
    requires RecoveryRun(log, p, |log|, ids) && DrainRun(longer, d, |longer|, ks, sent)
    ensures p <= |log| && d <= |longer|
  {
  }

  lemma ExaminedUntil(log: seq<Event>, longer: seq<Event>, p: nat, q: nat, ids: seq<nat>)
    requires log <= longer && |log| <= q <= |longer| && RecoveryRun(log, p, |log|, ids)
    ensures RecoveryRun(longer, p, q, ids)
  {
    AtPrefix(log, longer, p);
    AtPrefix(log, longer, |log|);
    AtExtends(longer, p, |log|);
    AtExtends(longer, |log|, q);
    hide At, IsRecoverySelection;
    forall i | 0 <= i < |ids|
      ensures ids[i] in At(longer, q).rows && At(longer, q).rows[ids[i]].updatedAt > At(longer, p).clock
    {
      StampStays(At(longer, |log|), At(longer, q), ids[i], At(longer, p).clock);
    }
  }

  lemma {:induction false} SameEligible(s: State, t: State, n: nat)
    requires SameTables(s, t) && n <= |s.outbox|
    ensures EligibleUpTo(s, n) == EligibleUpTo(t, n)
  {
    if n > 0 {
      SameEligible(s, t, n - 1);
    }
  }

  lemma SameSelection(s: State, t: State)
    requires SameTables(t, s)
    ensures DrainSelection(s) == DrainSelection(t)
  {
    SameEligible(s, t, |s.outbox|);
  }

  lemma {:induction false} SameDrain(s: State, t: State, u: State, ks: seq<nat>, sent: seq<bool>)
    requires SameTables(s, t) && DrainedSoFar(t, u, ks, sent)
    ensures DrainedSoFar(s, u, ks, sent)
  {
    SameDrained(s, t, ks, sent);
  }

  lemma {:induction false} SameDrained(s: State, t: State, ks: seq<nat>, sent: seq<bool>)
    requires SameTables(s, t) && |ks| == |sent| && forall i | 0 <= i < |ks| :: ks[i] < |s.outbox|
    ensures SameTables(Drain(s, ks, sent), Drain(t, ks, sent))
    decreases |ks|
  {
    if ks != [] {
      SameDrained(s, t, ks[..|ks| - 1], sent[..|ks| - 1]);
    }
  }

  // -------------------------------------------------------------------------------------- replay

  datatype ReplayError = NotRejected | Database

  /** Sends a rejected granule back on an operator's word, and drains the outbox at once.  It is
    * refused exactly when the row was not rejected. */
  method ReplayRejectedGranule(db: IngestStore, id: nat)
    returns (r: Result<RecoverySummary, ReplayError>, ghost at: nat, ghost d: nat, ghost ks: seq<nat>,
             ghost sent: seq<bool>)
    requires db.Valid()
    modifies db
    ensures db.Valid() && old(db.log) <= db.log && Extends(old(db.State()), db.State())
    ensures r.Success? || r == Failure(NotRejected) ==>
      && |old(db.log)| <= at < |db.log| && db.log[at] == Replay(id)
      && (r.Success? <==> id in At(db.log, at).rows && At(db.log, at).rows[id].status == Rejected)
    ensures r.Success? ==>
      && id in db.rows && id in db.replayed && Happened(db.log, at, CreateOutbox(id))
      && at < d && DrainRun(db.log, d, |db.log|, ks, sent)
      && r.value == NO_RECOVERY.(outboxExamined := |ks|, enqueued := CountTrue(sent), failed := |ks| - CountTrue(sent))
  {
    hide Run, IngestStore.Valid, Extends, CountTrue, At, DrainRun, DrainedSoFar;
    d, ks, sent := 0, [], [];
    ghost var s0 := db.State();
    var replayed;
    replayed, at := db.ReplayRejected(id);
    if replayed.Failure? {
      return Failure(Database), at, d, ks, sent;
    }
    if !replayed.value {
      return Failure(NotRejected), at, d, ks, sent;
    }
    ghost var s1, log := db.State(), db.log;
    var drained;
    drained, d, ks, sent := EnqueuePendingOutbox(db, NO_RECOVERY);
    ExtendsTransitive(s0, s1, db.State());
    ReplayStays(s1, db.State(), id);
    AtPrefix(log, db.log, at);
    HappenedStays(log, db.log, at, at, CreateOutbox(id));
    return if drained.Success? then Success(drained.value) else Failure(Database), at, d, ks, sent;
  }
}
