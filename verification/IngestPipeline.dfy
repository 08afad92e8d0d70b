/** The pipeline of one granule (backend/ingest-svc/src/jobs/pipeline.rs). */
module IngestPipeline {
  import opened Wrappers
  import opened IngestLog
  import opened IngestTables
  import BlobPaths

  // ------------------------------------------------------------------- the pipeline of a granule

  datatype Outcome =
    | Skipped
    | FailedBeforeDownloaded
    | FailedAfterDownloaded
    | RejectedAfterDownloaded
    | FailedAfterValidated
    | Enqueued

  function UntilDownloaded(id: nat, granule: Granule): seq<Event> {
    [InsertRow(id, granule)] + [MarkStatus(id, Downloaded)]
  }

  function UntilValidated(id: nat, granule: Granule, bytes: Bytes): seq<Event> {
    UntilDownloaded(id, granule) + ([SeeSignature(id, bytes)] + [MarkStatus(id, Validated)])
  }

  /** How a granule's pipeline can end with an outcome: the statements it has issued and those of
    * them that reported success, both in order.  Each branch but the last stops at one failure,
    * after the attempt to record it where the source makes one. */
  ghost predicate Ends(outcome: Outcome, id: nat, granule: Granule, stored: bool, bytes: Bytes,
                       m: BlobPaths.ProcessingMessage, k: nat, issued: seq<Event>, completed: seq<Event>)
  {
    var inserted := [InsertRow(id, granule)];
    var downloaded := UntilDownloaded(id, granule);
    var validated := UntilValidated(id, granule, bytes);
    var created, failed := [CreateOutbox(id)], [MarkStatus(id, Failed)];
    var marked := [Enqueue(m)] + [MarkStatus(id, IngestStatus.Enqueued)];
    match outcome
    case Skipped => false
    case FailedBeforeDownloaded =>
      if stored then issued == downloaded && completed == inserted
      else issued == inserted + failed && (completed == inserted || completed == issued)
    case RejectedAfterDownloaded =>
      issued == downloaded + [MarkStatus(id, Rejected)] && (completed == downloaded || completed == issued)
    case FailedAfterDownloaded =>
      issued == validated && completed == downloaded + [SeeSignature(id, bytes)]
    case FailedAfterValidated =>
      // No outbox record, or no message.
      || (issued == validated + (created + failed)
          && (completed == validated || completed == validated + failed
              || completed == validated + created || completed == issued))
      // The queue did not take the message.
      || (issued == validated + (created + ([Enqueue(m)] + failed))
          && (completed == validated + created || completed == validated + (created + failed)))
      || (issued == validated + (created + marked) && completed == validated + (created + [Enqueue(m)]))
      || (issued == validated + (created + (marked + [CompleteOutbox(k)]))
          && completed == validated + (created + marked))
    case Enqueued => issued == completed == validated + (created + (marked + [CompleteOutbox(k)]))
  }

  /** Issuing issued and completing completed after the statements of before ends the pipeline. */
  ghost predicate EndsAfter(before: seq<Event>, outcome: Outcome, id: nat, granule: Granule, stored: bool,
                            bytes: Bytes, m: BlobPaths.ProcessingMessage, k: nat,
                            issued: seq<Event>, completed: seq<Event>)
  {
    Ends(outcome, id, granule, stored, bytes, m, k, before + issued, before + completed)
  }

  /** A skipped granule costs at most the insertion, which the key of another row may have refused. */
  ghost predicate SkipsOnly(granule: Granule, issuedBefore: seq<Event>, issued: seq<Event>,
                            completedBefore: seq<Event>, completed: seq<Event>)
  {
    || (issued == issuedBefore && completed == completedBefore)
    || (&& |issued| == |issuedBefore| + 1 && issuedBefore <= issued
        && issued[|issuedBefore|].InsertRow? && issued[|issuedBefore|].granule == granule
        && (completed == completedBefore || completed == completedBefore + [issued[|issuedBefore|]]))
  }

  lemma Prepend(outcome: Outcome, id: nat, g: Granule, bytes: Bytes, m: BlobPaths.ProcessingMessage, k: nat,
                before: seq<Event>, first: seq<Event>, issued: seq<Event>, completed: seq<Event>)
    requires EndsAfter(before + first, outcome, id, g, true, bytes, m, k, issued, completed)
    ensures EndsAfter(before, outcome, id, g, true, bytes, m, k, first + issued, first + completed)
  {
    hide Ends;
    assert before + (first + issued) == before + first + issued;
    assert before + (first + completed) == before + first + completed;
  }

  /** One granule, from its row to its message.  At each step an error ends the pipeline; the
    * attempt to record a failure may itself fail. */
  method ProcessGranuleInner(db: IngestStore, granule: Granule, download: Option<Bytes>, uploaded: bool)
    returns (outcome: Outcome, ghost id: nat, ghost m: BlobPaths.ProcessingMessage, ghost k: nat,
             ghost issued: seq<Event>, ghost completed: seq<Event>)
    requires db.Valid()
    modifies db
    ensures db.Valid()
    ensures outcome != Skipped ==>
      && id in db.rows && db.rows[id].granule == granule
      && db.issued == old(db.issued) + issued && db.completed == old(db.completed) + completed
      && var stored, bytes := uploaded && download.Some?, if download.Some? then download.value else [];
         Ends(outcome, id, granule, stored, bytes, m, k, issued, completed)
    ensures outcome == Skipped ==> SkipsOnly(granule, old(db.issued), db.issued, old(db.completed), db.completed)
    ensures outcome == RejectedAfterDownloaded ==> uploaded && download.Some? && !(HDF5_MAGIC <= download.value)
    ensures outcome == FailedAfterDownloaded || outcome == FailedAfterValidated || outcome == Outcome.Enqueued ==>
      uploaded && download.Some? && HDF5_MAGIC <= download.value && id in db.signed
    ensures outcome == Outcome.Enqueued ==> Message(id, granule) == Success(m) && m in db.accepted
  {
    hide Message, Run, Step, EndsAfter, Ends, Enabled, Accepted, Extends, At, IngestStore.Valid;
    id, m, k, issued, completed := 0, BlobPaths.ProcessingMessage(0, [], [], 0, 0, 0), 0, [], [];
    var inserted, _ := db.InsertDownloadingRow(granule);
    if inserted.Failure? || inserted.value.None? {
      return Skipped, id, m, k, issued, completed;
    }
    var ingestId := inserted.value.value;
    id := ingestId;
    outcome, m, k, issued, completed := StoreRaw(db, ingestId, granule, download, uploaded);
    PrependRow(outcome, id, granule, uploaded && download.Some?, if download.Some? then download.value else [],
               m, k, issued, completed);
    issued, completed := [InsertRow(id, granule)] + issued, [InsertRow(id, granule)] + completed;
  }

  lemma PrependRow(outcome: Outcome, id: nat, g: Granule, stored: bool, bytes: Bytes,
                   m: BlobPaths.ProcessingMessage, k: nat, issued: seq<Event>, completed: seq<Event>)
    requires EndsAfter([InsertRow(id, g)], outcome, id, g, stored, bytes, m, k, issued, completed)
    ensures Ends(outcome, id, g, stored, bytes, m, k, [InsertRow(id, g)] + issued, [InsertRow(id, g)] + completed)
  {
    hide Ends;
  }

  /** The pipeline once the granule has its row: download, upload to raw storage, and on. */
  method StoreRaw(db: IngestStore, id: nat, granule: Granule, download: Option<Bytes>, uploaded: bool)
    returns (outcome: Outcome, ghost m: BlobPaths.ProcessingMessage, ghost k: nat,
             ghost issued: seq<Event>, ghost completed: seq<Event>)
    requires db.Valid() && id in db.rows && db.rows[id].granule == granule
    modifies db
    ensures db.Valid() && id in db.rows && db.rows[id].granule == granule
    ensures outcome != Skipped
    ensures db.issued == old(db.issued) + issued && db.completed == old(db.completed) + completed
    ensures EndsAfter([InsertRow(id, granule)], outcome, id, granule, uploaded && download.Some?,
                      if download.Some? then download.value else [], m, k, issued, completed)
    ensures outcome == RejectedAfterDownloaded ==> uploaded && download.Some? && !(HDF5_MAGIC <= download.value)
    ensures outcome == FailedAfterDownloaded || outcome == FailedAfterValidated || outcome == Outcome.Enqueued ==>
      uploaded && download.Some? && HDF5_MAGIC <= download.value && id in db.signed
    ensures outcome == Outcome.Enqueued ==> Message(id, granule) == Success(m) && m in db.accepted
  {
    hide Message, Run, Step, EndsAfter, UntilDownloaded, Enabled, Accepted, Extends, IngestStore.Valid;
    hide UpdateStatus, SameTables, Happened;
    m, k := BlobPaths.ProcessingMessage(0, [], [], 0, 0, 0), 0;
    ghost var s0 := db.State();
    if download.None? || !uploaded {
      var marked := db.MarkFailed(id);
      RowStays(s0, db.State(), id);
      completed := if marked then [MarkStatus(id, Failed)] else [];
      NotStored(id, granule, if download.Some? then download.value else [], m, k);
      return FailedBeforeDownloaded, m, k, [MarkStatus(id, Failed)], completed;
    }
    var ok := db.MarkDownloaded(id);
    RowStays(s0, db.State(), id);
    DownloadedEnds(id, granule, download.value, m, k);
    if !ok {
      return FailedBeforeDownloaded, m, k, [MarkStatus(id, Downloaded)], [];
    }
    outcome, m, k, issued, completed := ValidateDownloaded(db, id, granule, download.value);
    Prepend(outcome, id, granule, download.value, m, k, [InsertRow(id, granule)], [MarkStatus(id, Downloaded)],
            issued, completed);
    issued, completed := [MarkStatus(id, Downloaded)] + issued, [MarkStatus(id, Downloaded)] + completed;
  }

  /** The pipeline once the raw blob is stored. */
  method ValidateDownloaded(db: IngestStore, id: nat, granule: Granule, bytes: Bytes)
    returns (outcome: Outcome, ghost m: BlobPaths.ProcessingMessage, ghost k: nat,
             ghost issued: seq<Event>, ghost completed: seq<Event>)
    requires db.Valid() && id in db.rows && db.rows[id].granule == granule
    modifies db
    ensures db.Valid() && id in db.rows && db.rows[id].granule == granule
    ensures outcome != Skipped && outcome != FailedBeforeDownloaded
    ensures outcome == RejectedAfterDownloaded <==> !(HDF5_MAGIC <= bytes)
    ensures outcome != RejectedAfterDownloaded ==> id in db.signed
    ensures db.issued == old(db.issued) + issued && db.completed == old(db.completed) + completed
    ensures EndsAfter(UntilDownloaded(id, granule), outcome, id, granule, true, bytes, m, k, issued, completed)
    ensures outcome == Outcome.Enqueued ==> Message(id, granule) == Success(m) && m in db.accepted
  {
    hide Message, Run, Step, EndsAfter, UntilDownloaded;
    hide UntilValidated, Enabled, UpdateStatus, Accepted, SameTables, Extends;
    hide IngestStore.Valid, ValidateRawGranuleBytes;
    m, k := BlobPaths.ProcessingMessage(0, [], [], 0, 0, 0), 0;
    ghost var s0 := db.State();
    if ValidateRawGranuleBytes(bytes).Failure? {
      var marked := db.MarkRejected(id);
      RowStays(s0, db.State(), id);
      issued, completed := [MarkStatus(id, Rejected)], if marked then [MarkStatus(id, Rejected)] else [];
      NotValid(id, granule, bytes, m, k);
      return RejectedAfterDownloaded, m, k, issued, completed;
    }
    db.SeeSignature(id, bytes);
    ghost var s1 := db.State();
    RowStays(s0, s1, id);
    var ok := db.MarkValidated(id);
    RowStays(s1, db.State(), id);
    issued := [SeeSignature(id, bytes)] + [MarkStatus(id, Validated)];
    ValidatedEnds(id, granule, bytes, m, k);
    if !ok {
      return FailedAfterDownloaded, m, k, issued, [SeeSignature(id, bytes)];
    }
    ghost var last: seq<Event>, lastCompleted: seq<Event>;
    outcome, m, k, last, lastCompleted := EnqueueValidated(db, id, granule, bytes);
    Prepend(outcome, id, granule, bytes, m, k, UntilDownloaded(id, granule), issued, last, lastCompleted);
    completed := issued + lastCompleted;
    issued := issued + last;
  }

  /** The tail of the pipeline, once the row is validated. */
  method EnqueueValidated(db: IngestStore, id: nat, granule: Granule, ghost bytes: Bytes)
    returns (outcome: Outcome, ghost m: BlobPaths.ProcessingMessage, ghost k: nat,
             ghost issued: seq<Event>, ghost completed: seq<Event>)
    requires db.Valid() && id in db.rows && db.rows[id].granule == granule && id in db.signed
    modifies db
    ensures db.Valid() && id in db.rows && db.rows[id].granule == granule && id in db.signed
    ensures outcome == FailedAfterValidated || outcome == Outcome.Enqueued
    ensures db.issued == old(db.issued) + issued && db.completed == old(db.completed) + completed
    ensures EndsAfter(UntilValidated(id, granule, bytes), outcome, id, granule, true, bytes, m, k, issued, completed)
    ensures outcome == Outcome.Enqueued ==> Message(id, granule) == Success(m) && m in db.accepted
  {
    hide Message, Run, Step, EndsAfter, UntilValidated, UpdateStatus, Accepted, SameTables, Extends, At, PendingFrom;
    hide IngestStore.Valid;
    m, k := BlobPaths.ProcessingMessage(0, [], [], 0, 0, 0), 0;
    ghost var s0 := db.State();
    var outboxId, _ := db.CreatePendingEnqueueOutbox(id);
    ghost var s1 := db.State();
    RowStays(s0, s1, id);
    if outboxId.Failure? {
      var marked := db.MarkFailed(id);
      RowStays(s1, db.State(), id);
      completed := if marked then [MarkStatus(id, Failed)] else [];
      NotCreated(id, granule, bytes, m, k);
      return FailedAfterValidated, m, k, [CreateOutbox(id)] + [MarkStatus(id, Failed)], completed;
    }
    var message := Message(id, granule);
    if message.Failure? {
      var marked := db.MarkFailed(id);
      RowStays(s1, db.State(), id);
      completed := if marked then [CreateOutbox(id)] + [MarkStatus(id, Failed)] else [CreateOutbox(id)];
      NotCreated(id, granule, bytes, m, k);
      return FailedAfterValidated, m, k, [CreateOutbox(id)] + [MarkStatus(id, Failed)], completed;
    }
    k, m := outboxId.value, message.value;
    MessageNamesRow(id, granule);
    outcome, issued, completed := SendValidated(db, id, granule, bytes, message.value, outboxId.value);
    Prepend(outcome, id, granule, bytes, m, k, UntilValidated(id, granule, bytes), [CreateOutbox(id)],
            issued, completed);
    issued, completed := [CreateOutbox(id)] + issued, [CreateOutbox(id)] + completed;
  }

  /** Sends the message of a row and records that it was sent. */
  method SendValidated(db: IngestStore, id: nat, ghost granule: Granule, ghost bytes: Bytes,
                       m: BlobPaths.ProcessingMessage, k: nat)
    returns (outcome: Outcome, ghost issued: seq<Event>, ghost completed: seq<Event>)
    requires db.Valid() && id in db.rows && db.rows[id].granule == granule && id in db.signed && m.ingestId == id
    requires Message(id, granule) == Success(m)
    requires k < |db.outbox| && db.outbox[k].ingestId == id
    modifies db
    ensures db.Valid() && id in db.rows && db.rows[id].granule == granule && id in db.signed
    ensures outcome == FailedAfterValidated || (outcome == Outcome.Enqueued && m in db.accepted)
    ensures db.issued == old(db.issued) + issued && db.completed == old(db.completed) + completed
    ensures EndsAfter(UntilValidated(id, granule, bytes) + [CreateOutbox(id)], outcome, id, granule, true, bytes, m, k,
                      issued, completed)
  {
    hide Message, Run, Step, UpdateStatus, Accepted, SameTables, EndsAfter, UntilValidated, IngestStore.Valid;
    hide Happened, Extends;
    ghost var s0 := db.State();
    MayEnqueue(s0, id, m);
    hide Enabled;
    var ok := db.EnqueueProcessingMessage(m);
    ghost var s1 := db.State();
    KnownStays(s0, s1, id, m, k);
    if !ok {
      var marked := db.MarkFailed(id);
      KnownStays(s1, db.State(), id, m, k);
      completed := if marked then [MarkStatus(id, Failed)] else [];
      NotCompleted(id, granule, bytes, m, k);
      return FailedAfterValidated, [Enqueue(m)] + [MarkStatus(id, Failed)], completed;
    }
    ok := db.MarkEnqueued(id);
    ghost var s2 := db.State();
    KnownStays(s1, s2, id, m, k);
    issued := [Enqueue(m)] + [MarkStatus(id, IngestStatus.Enqueued)];
    if !ok {
      NotCompleted(id, granule, bytes, m, k);
      return FailedAfterValidated, issued, [Enqueue(m)];
    }
    AcceptedGrows(s1, s2, id);
    ok := db.MarkOutboxCompleted(k);
    KnownStays(s2, db.State(), id, m, k);
    NotCompleted(id, granule, bytes, m, k);
    AllCompleted(id, granule, bytes, m, k);
    completed := if ok then issued + [CompleteOutbox(k)] else issued;
    issued := issued + [CompleteOutbox(k)];
    outcome := if ok then Outcome.Enqueued else FailedAfterValidated;
  }

  lemma MayEnqueue(s: State, id: nat, m: BlobPaths.ProcessingMessage)
    requires id in s.rows && id in s.signed && m.ingestId == id && Message(id, s.rows[id].granule) == Success(m)
    ensures Enabled(s, Enqueue(m))
  {
    hide Message;
  }

  /** What the pipeline knows about its row, its record and its message stays true. */
  lemma KnownStays(s: State, t: State, id: nat, m: BlobPaths.ProcessingMessage, k: nat)
    requires Extends(s, t) && id in s.rows && id in s.signed && k < |s.outbox|
    ensures id in t.rows && t.rows[id].granule == s.rows[id].granule && id in t.signed
    ensures k < |t.outbox| && t.outbox[k].ingestId == s.outbox[k].ingestId
    ensures m in s.accepted ==> m in t.accepted
  {
  }

  // The ways a pipeline can end.

  lemma NotStored(id: nat, g: Granule, bytes: Bytes, m: BlobPaths.ProcessingMessage, k: nat)
    ensures
      var inserted, failed := [InsertRow(id, g)], [MarkStatus(id, Failed)];
      && EndsAfter(inserted, FailedBeforeDownloaded, id, g, false, bytes, m, k, failed, [])
      && EndsAfter(inserted, FailedBeforeDownloaded, id, g, false, bytes, m, k, failed, failed)
  {
  }

  lemma DownloadedEnds(id: nat, g: Granule, bytes: Bytes, m: BlobPaths.ProcessingMessage, k: nat)
    ensures UntilDownloaded(id, g) == [InsertRow(id, g)] + [MarkStatus(id, Downloaded)]
    ensures EndsAfter([InsertRow(id, g)], FailedBeforeDownloaded, id, g, true, bytes, m, k,
                      [MarkStatus(id, Downloaded)], [])
  {
  }

  lemma NotValid(id: nat, g: Granule, bytes: Bytes, m: BlobPaths.ProcessingMessage, k: nat)
    ensures
      var downloaded, rejected := UntilDownloaded(id, g), [MarkStatus(id, Rejected)];
      && EndsAfter(downloaded, RejectedAfterDownloaded, id, g, true, bytes, m, k, rejected, [])
      && EndsAfter(downloaded, RejectedAfterDownloaded, id, g, true, bytes, m, k, rejected, rejected)
  {
  }

  lemma ValidatedEnds(id: nat, g: Granule, bytes: Bytes, m: BlobPaths.ProcessingMessage, k: nat)
    ensures
      var downloaded, seen := UntilDownloaded(id, g), [SeeSignature(id, bytes)];
      && UntilValidated(id, g, bytes) == downloaded + (seen + [MarkStatus(id, Validated)])
      && EndsAfter(downloaded, FailedAfterDownloaded, id, g, true, bytes, m, k,
                   seen + [MarkStatus(id, Validated)], seen)
  {
  }

  lemma NotCreated(id: nat, g: Granule, bytes: Bytes, m: BlobPaths.ProcessingMessage, k: nat)
    ensures
      var v, c, f := UntilValidated(id, g, bytes), [CreateOutbox(id)], [MarkStatus(id, Failed)];
      && EndsAfter(v, FailedAfterValidated, id, g, true, bytes, m, k, c + f, [])
      && EndsAfter(v, FailedAfterValidated, id, g, true, bytes, m, k, c + f, f)
      && EndsAfter(v, FailedAfterValidated, id, g, true, bytes, m, k, c + f, c)
      && EndsAfter(v, FailedAfterValidated, id, g, true, bytes, m, k, c + f, c + f)
  {
    hide UntilValidated;
    var v := UntilValidated(id, g, bytes);
    assert v + [] == v;
  }

  lemma NotCompleted(id: nat, g: Granule, bytes: Bytes, m: BlobPaths.ProcessingMessage, k: nat)
    ensures
      var before := UntilValidated(id, g, bytes) + [CreateOutbox(id)];
      var e, f := [Enqueue(m)], [MarkStatus(id, Failed)];
      var marked := e + [MarkStatus(id, IngestStatus.Enqueued)];
      && EndsAfter(before, FailedAfterValidated, id, g, true, bytes, m, k, e + f, [])
      && EndsAfter(before, FailedAfterValidated, id, g, true, bytes, m, k, e + f, f)
      && EndsAfter(before, FailedAfterValidated, id, g, true, bytes, m, k, marked, e)
      && EndsAfter(before, FailedAfterValidated, id, g, true, bytes, m, k, marked + [CompleteOutbox(k)], marked)
  {
    hide UntilValidated;
    var v, c, e, f := UntilValidated(id, g, bytes), [CreateOutbox(id)], [Enqueue(m)], [MarkStatus(id, Failed)];
    var marked := e + [MarkStatus(id, IngestStatus.Enqueued)];
    assert v + c + (e + f) == v + (c + (e + f)) && v + c + [] == v + c && v + c + f == v + (c + f);
    assert v + c + marked == v + (c + marked) && v + c + e == v + (c + e);
    assert v + c + (marked + [CompleteOutbox(k)]) == v + (c + (marked + [CompleteOutbox(k)]));
  }

  lemma AllCompleted(id: nat, g: Granule, bytes: Bytes, m: BlobPaths.ProcessingMessage, k: nat)
    ensures
      var all := [Enqueue(m)] + [MarkStatus(id, IngestStatus.Enqueued)] + [CompleteOutbox(k)];
      EndsAfter(UntilValidated(id, g, bytes) + [CreateOutbox(id)], Outcome.Enqueued, id, g, true, bytes, m, k, all, all)
  {
    hide UntilValidated;
    var v, c, all := UntilValidated(id, g, bytes), [CreateOutbox(id)],
      [Enqueue(m)] + [MarkStatus(id, IngestStatus.Enqueued)] + [CompleteOutbox(k)];
    assert v + c + all == v + (c + all);
  }

  lemma MessageNamesRow(id: nat, g: Granule)
    ensures Message(id, g).Success? ==> Message(id, g).value.ingestId == id
  {
  }
}
