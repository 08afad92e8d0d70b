/** The ingest log, its recovery outbox and the processing queue, changed one statement at a time
  * (backend/ingest-svc/src/jobs/ingest_log.rs).
  *
  * Pipeline, recovery and replay share these tables without locks, any of them may stop between
  * two statements, and a statement that reports an error may still have been applied.  A run of
  * the whole system is therefore an interleaving of statements.  Enabled says what a process
  * must know before it issues a statement; the store's methods prove that the code knows it. */
module IngestLog {
  import opened Wrappers
  import BlobPaths

  type Bytes = seq<BlobPaths.byte>

  const OUTBOX_MAX_ATTEMPTS: nat := 3
  const SELECTION_LIMIT: nat := 100

  /** The signature of section II.A of the HDF5 File Format Specification. */
  const HDF5_MAGIC: Bytes := [0x89, 0x48, 0x44, 0x46, 0x0D, 0x0A, 0x1A, 0x0A]

  datatype RawGranuleValidationError = TooSmall(actualSize: nat, minimumSize: nat) | MissingHdf5Magic

  function ValidateRawGranuleBytes(bytes: Bytes): (r: Result<(), RawGranuleValidationError>)
    ensures r.Success? <==> HDF5_MAGIC <= bytes
  {
    if |bytes| < |HDF5_MAGIC| then Failure(TooSmall(|bytes|, |HDF5_MAGIC|))
    else if bytes[..|HDF5_MAGIC|] != HDF5_MAGIC then Failure(MissingHdf5Magic)
    else Success(())
  }

  datatype IngestStatus =
    Downloading | Downloaded | Validated | Enqueued | Rejected | Failed | RecoveryPending | ReplayPending

  datatype Granule = Granule(product: Bytes, granuleDate: int, tileH: int, tileV: int, blobPath: Bytes)
  datatype Row = Row(granule: Granule, status: IngestStatus, createdAt: nat, updatedAt: nat)

  datatype OutboxStatus = Pending | Completed | GaveUp
  datatype OutboxRecord = OutboxRecord(ingestId: nat, status: OutboxStatus, attempts: nat)

  /** The two tables, every message the queue has accepted, and two facts about the past: for
    * which rows signed bytes were seen, and which rows an operator replayed.  Outbox records
    * stand in the order of their creation. */
  datatype State = State(
    rows: map<nat, Row>,
    outbox: seq<OutboxRecord>,
    accepted: seq<BlobPaths.ProcessingMessage>,
    signed: set<nat>,
    replayed: set<nat>,
    clock: nat)

  const EMPTY := State(map[], [], [], {}, {}, 0)

  datatype Event =
    | InsertRow(id: nat, granule: Granule)
    | SeeSignature(id: nat, bytes: Bytes)
    | MarkStatus(id: nat, status: IngestStatus)
    | Replay(id: nat)
    | CreateOutbox(id: nat)
    | Enqueue(message: BlobPaths.ProcessingMessage)
    | CompleteOutbox(k: nat)
    | FailOutbox(k: nat)

  // --------------------------------------------------------------------------------- statements

  predicate SameKey(a: Granule, b: Granule) {
    a.product == b.product && a.tileH == b.tileH && a.tileV == b.tileV && a.granuleDate == b.granuleDate
  }

  predicate KeyTaken(rows: map<nat, Row>, g: Granule) {
    exists id | id in rows :: SameKey(rows[id].granule, g)
  }

  function Message(id: nat, g: Granule): Result<BlobPaths.ProcessingMessage, BlobPaths.MessageError> {
    BlobPaths.NewMessage(id, g.blobPath, g.product, g.granuleDate, g.tileH, g.tileV)
  }

  predicate Accepted(s: State, id: nat) {
    exists m | m in s.accepted :: m.ingestId == id
  }

  /** The pending record of an ingest at index k or later. */
  function PendingFrom(outbox: seq<OutboxRecord>, id: nat, k: nat): (r: Option<nat>)
    requires k <= |outbox|
    ensures r.Some? ==> k <= r.value < |outbox| && outbox[r.value].ingestId == id && outbox[r.value].status == Pending
    ensures r.None? ==> forall i | k <= i < |outbox| :: !(outbox[i].ingestId == id && outbox[i].status == Pending)
    decreases |outbox| - k
  {
    if k == |outbox| then None
    else if outbox[k].ingestId == id && outbox[k].status == Pending then Some(k)
    else PendingFrom(outbox, id, k + 1)
  }

  /** What a process knows when it issues the statement. */
  predicate Enabled(s: State, e: Event) {
    match e
    case InsertRow(id, _) => id !in s.rows
    case SeeSignature(_, bytes) => HDF5_MAGIC <= bytes
    case MarkStatus(id, status) =>
      && status != Downloading && status != ReplayPending
      && (status == Validated ==> id in s.signed)
      && (status == Enqueued ==> Accepted(s, id))
    case Replay(_) => true
    case CreateOutbox(id) => id in s.rows && (id in s.signed || id in s.replayed)
    case Enqueue(m) =>
      && m.ingestId in s.rows && Message(m.ingestId, s.rows[m.ingestId].granule) == Success(m)
      && (m.ingestId in s.signed || m.ingestId in s.replayed)
    case CompleteOutbox(k) => k < |s.outbox| && Accepted(s, s.outbox[k].ingestId)
    case FailOutbox(k) => k < |s.outbox|
  }

  function UpdateStatus(s: State, id: nat, status: IngestStatus): State {
    if id !in s.rows then s
    else s.(rows := s.rows[id := s.rows[id].(status := status, updatedAt := s.clock + 1)], clock := s.clock + 1)
  }

  function FailRecord(r: OutboxRecord): OutboxRecord {
    OutboxRecord(r.ingestId, if r.attempts + 1 >= OUTBOX_MAX_ATTEMPTS then GaveUp else r.status, r.attempts + 1)
  }

  /** The effect of one statement; updates of ingest_log do not look at the old status, except
    * for the replay of a rejected row. */
  function Effect(s: State, e: Event): State
    requires Enabled(s, e)
  {
    match e
    case InsertRow(id, g) =>
      if KeyTaken(s.rows, g) then s
      else s.(rows := s.rows[id := Row(g, Downloading, s.clock + 1, s.clock + 1)], clock := s.clock + 1)
    case SeeSignature(id, _) => s.(signed := s.signed + {id})
    case MarkStatus(id, status) => UpdateStatus(s, id, status)
    case Replay(id) =>
      if id in s.rows && s.rows[id].status == Rejected
      then UpdateStatus(s, id, ReplayPending).(replayed := s.replayed + {id})
      else s
    case CreateOutbox(id) =>
      if PendingFrom(s.outbox, id, 0).Some? then s
      else s.(outbox := s.outbox + [OutboxRecord(id, Pending, 0)])
    case Enqueue(m) => s.(accepted := s.accepted + [m])
    case CompleteOutbox(k) => s.(outbox := s.outbox[k := s.outbox[k].(status := Completed)])
    case FailOutbox(k) => s.(outbox := s.outbox[k := FailRecord(s.outbox[k])])
  }

  function Step(s: State, e: Event): State {
    if Enabled(s, e) then Effect(s, e) else s
  }

  function Run(s: State, log: seq<Event>): State {
    if log == [] then s else Step(Run(s, log[..|log| - 1]), log[|log| - 1])
  }

  // ------------------------------------------------------------------------ what every run keeps

  ghost predicate EnqueuedMeansAccepted(s: State) {
    && (forall id | id in s.rows && s.rows[id].status == Enqueued :: Accepted(s, id))
    && (forall k | 0 <= k < |s.outbox| && s.outbox[k].status == Completed :: Accepted(s, s.outbox[k].ingestId))
  }

  ghost predicate OnePending(s: State) {
    forall i, j | 0 <= i < j < |s.outbox| ::
      s.outbox[i].status == Pending && s.outbox[j].status == Pending ==> s.outbox[i].ingestId != s.outbox[j].ingestId
  }

  /** Each accepted message is the message of its row, and bytes with the HDF5 signature were
    * seen for that row unless an operator replayed it. */
  ghost predicate MessagesAreJustified(s: State) {
    forall m | m in s.accepted ::
      && m.ingestId in s.rows && Message(m.ingestId, s.rows[m.ingestId].granule) == Success(m)
      && (m.ingestId !in s.replayed ==> m.ingestId in s.signed)
  }

  ghost predicate AttemptsAreBounded(s: State) {
    forall k | 0 <= k < |s.outbox| ::
      && (s.outbox[k].status == Pending ==> s.outbox[k].attempts < OUTBOX_MAX_ATTEMPTS)
      && (s.outbox[k].status == GaveUp ==> s.outbox[k].attempts >= OUTBOX_MAX_ATTEMPTS)
  }

  ghost predicate TablesAreConsistent(s: State) {
    && (forall i, j | i in s.rows && j in s.rows && i != j :: !SameKey(s.rows[i].granule, s.rows[j].granule))
    && (forall id | id in s.rows :: s.rows[id].createdAt <= s.rows[id].updatedAt <= s.clock)
    && (forall k | 0 <= k < |s.outbox| ::
          && s.outbox[k].ingestId in s.rows
          && (s.outbox[k].ingestId in s.signed || s.outbox[k].ingestId in s.replayed))
    && (forall id | id in s.rows && s.rows[id].status == Validated :: id in s.signed)
    && (forall id | id in s.rows && s.rows[id].status == ReplayPending :: id in s.replayed)
  }

  ghost predicate Inv(s: State) {
    && EnqueuedMeansAccepted(s) && OnePending(s) && MessagesAreJustified(s)
    && AttemptsAreBounded(s) && TablesAreConsistent(s)
  }

  /** The history s can grow into t: nothing learned is forgotten, a row that changed carries a
    * stamp newer than s, attempts only go up, and no record becomes pending again. */
  ghost predicate Extends(s: State, t: State) {
    && s.accepted <= t.accepted && s.signed <= t.signed && s.replayed <= t.replayed && s.clock <= t.clock
    && (forall id | id in s.rows :: id in t.rows && t.rows[id].granule == s.rows[id].granule)
    && (forall id | id in t.rows :: (id in s.rows && t.rows[id] == s.rows[id]) || t.rows[id].updatedAt > s.clock)
    && |s.outbox| <= |t.outbox|
    && (forall k | 0 <= k < |s.outbox| ::
          && t.outbox[k].ingestId == s.outbox[k].ingestId && s.outbox[k].attempts <= t.outbox[k].attempts
          && (t.outbox[k].status == Pending ==> s.outbox[k].status == Pending))
  }

  lemma AcceptedGrows(s: State, t: State, id: nat)
    requires Extends(s, t) && Accepted(s, id)
    ensures Accepted(t, id)
  {
    var m :| m in s.accepted && m.ingestId == id;
    assert m in t.accepted;
  }

  lemma StepExtends(s: State, e: Event)
    ensures Extends(s, Step(s, e))
  {
    hide Message, KeyTaken;
  }

  lemma EnabledIsStable(s: State, t: State, e: Event)
    requires Extends(s, t) && Enabled(s, e) && !e.InsertRow?
    ensures Enabled(t, e)
  {
    hide Message;
    match e {
      case MarkStatus(id, status) => if status == Enqueued { AcceptedGrows(s, t, id); }
      case CompleteOutbox(k) => AcceptedGrows(s, t, s.outbox[k].ingestId);
      case _ =>
    }
  }

  lemma StepKeepsEnqueuedMeansAccepted(s: State, e: Event)
    requires EnqueuedMeansAccepted(s)
    ensures EnqueuedMeansAccepted(Step(s, e))
  {
    var t := Step(s, e);
    StepExtends(s, e);
    hide Message, KeyTaken, Accepted;
    forall id | id in t.rows && t.rows[id].status == Enqueued ensures Accepted(t, id) {
      if Accepted(s, id) { AcceptedGrows(s, t, id); }
    }
    forall k | 0 <= k < |t.outbox| && t.outbox[k].status == Completed ensures Accepted(t, t.outbox[k].ingestId) {
      if Accepted(s, t.outbox[k].ingestId) { AcceptedGrows(s, t, t.outbox[k].ingestId); }
    }
  }

  lemma StepKeepsOutbox(s: State, e: Event)
    requires OnePending(s) && AttemptsAreBounded(s)
    ensures OnePending(Step(s, e)) && AttemptsAreBounded(Step(s, e))
  {
    hide Message, KeyTaken, Accepted;
  }

  lemma StepKeepsMessages(s: State, e: Event)
    requires MessagesAreJustified(s)
    ensures MessagesAreJustified(Step(s, e))
  {
    hide Message, KeyTaken, Accepted;
    StepExtends(s, e);
  }

  lemma StepKeepsTables(s: State, e: Event)
    requires TablesAreConsistent(s)
    ensures TablesAreConsistent(Step(s, e))
  {
    hide Message, Accepted;
  }

  /** Every state of every run: whatever the processes do, in whatever order, and wherever they
    * stop, the invariant holds. */
  lemma {:induction false} EveryRunIsSafe(log: seq<Event>)
    ensures Inv(Run(EMPTY, log))
  {
    if log != [] {
      var s, e := Run(EMPTY, log[..|log| - 1]), log[|log| - 1];
      EveryRunIsSafe(log[..|log| - 1]);
      StepKeepsEnqueuedMeansAccepted(s, e);
      StepKeepsOutbox(s, e);
      StepKeepsMessages(s, e);
      StepKeepsTables(s, e);
    }
  }

  lemma ExtendsTransitive(s: State, t: State, u: State)
    requires Extends(s, t) && Extends(t, u)
    ensures Extends(s, u)
  {
  }

  // ------------------------------------------------------------------------ positions of a log

  /** The state after the first p events of a log. */
  function At(log: seq<Event>, p: nat): State
    requires p <= |log|
  {
    Run(EMPTY, log[..p])
  }

  lemma AtNext(log: seq<Event>, p: nat)
    requires p < |log|
    ensures At(log, p + 1) == Step(At(log, p), log[p])
  {
    assert log[..p + 1][..p] == log[..p];
  }

  lemma AtPrefix(log: seq<Event>, longer: seq<Event>, p: nat)
    requires p <= |log| && log <= longer
    ensures At(log, p) == At(longer, p)
  {
    assert log[..p] == longer[..p];
  }

  lemma AtEnd(log: seq<Event>)
    ensures At(log, |log|) == Run(EMPTY, log)
  {
    assert log[..|log|] == log;
  }

  lemma {:induction false} AtExtends(log: seq<Event>, p: nat, q: nat)
    requires p <= q <= |log|
    ensures Extends(At(log, p), At(log, q))
    decreases q - p
  {
    hide At, Step, Extends;
    if p == q {
      ExtendsItself(At(log, p));
    } else {
      AtExtends(log, p, q - 1);
      AtNext(log, q - 1);
      StepExtends(At(log, q - 1), log[q - 1]);
      ExtendsTransitive(At(log, p), At(log, q - 1), At(log, q));
    }
  }

  /** The log from position p on applies e. */
  ghost predicate Happened(log: seq<Event>, p: nat, e: Event) {
    exists i: nat :: AppliedAt(log, i, e) && p <= i
  }

  ghost predicate AppliedAt(log: seq<Event>, i: nat, e: Event) {
    i < |log| && log[i] == e && Enabled(At(log, i), e)
  }

  lemma HappenedStays(log: seq<Event>, longer: seq<Event>, p: nat, q: nat, e: Event)
    requires log <= longer && q <= p && Happened(log, p, e)
    ensures Happened(longer, q, e)
  {
    hide At, Enabled;
    var i: nat :| AppliedAt(log, i, e) && p <= i;
    AtPrefix(log, longer, i);
    assert AppliedAt(longer, i, e);
  }

  lemma AtIsSafe(log: seq<Event>, p: nat)
    requires p <= |log|
    ensures Inv(At(log, p))
  {
    EveryRunIsSafe(log[..p]);
  }

  lemma ExtendsItself(s: State)
    ensures Extends(s, s)
  {
  }

  /** What a state with a never-replayed row owes to its log: an accepted message was preceded by
    * a look at bytes that carry the signature. */
  lemma {:induction false} AcceptedAfterSignature(log: seq<Event>, id: nat)
    requires Accepted(Run(EMPTY, log), id) && id !in Run(EMPTY, log).replayed
    ensures exists i, j {:trigger log[i], log[j]} ::
      && 0 <= i < j < |log|
      && log[i].SeeSignature? && log[i].id == id && HDF5_MAGIC <= log[i].bytes
      && log[j].Enqueue? && log[j].message.ingestId == id
  {
    var prefix := log[..|log| - 1];
    var s, e := Run(EMPTY, prefix), log[|log| - 1];
    StepExtends(s, e);
    if Accepted(s, id) {
      AcceptedAfterSignature(prefix, id);
      var i, j :| 0 <= i < j < |prefix| && prefix[i].SeeSignature? && prefix[i].id == id
                  && HDF5_MAGIC <= prefix[i].bytes && prefix[j].Enqueue? && prefix[j].message.ingestId == id;
      assert log[i] == prefix[i] && log[j] == prefix[j];
    } else {
      assert e.Enqueue? && e.message.ingestId == id && id in s.signed by {
        var m :| m in Step(s, e).accepted && m.ingestId == id;
        assert m !in s.accepted;
      }
      var i := SignatureWasSeen(prefix, id);
      assert log[i] == prefix[i];
    }
  }

  lemma {:induction false} SignatureWasSeen(log: seq<Event>, id: nat) returns (i: nat)
    requires id in Run(EMPTY, log).signed
    ensures i < |log| && log[i].SeeSignature? && log[i].id == id && HDF5_MAGIC <= log[i].bytes
  {
    var prefix := log[..|log| - 1];
    if id in Run(EMPTY, prefix).signed {
      i := SignatureWasSeen(prefix, id);
    } else {
      i := |log| - 1;
    }
  }
}
