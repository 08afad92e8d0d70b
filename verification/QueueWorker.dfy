/** One worker of the processing queue (backend/processing-svc/src/process/queue_worker.rs,
  * backend/processing-svc/src/process/failure.rs, backend/processing-svc/src/process/dispatch.rs). */
module QueueWorker {
  import opened Wrappers
  import opened ProcessingQueue

  datatype HandlerResult = Finished | MissingIngestLog | OtherError
  datatype ProcessOnceOutcome = HandledMessage | NoMessage
  datatype ServiceError = QueueRequest | Malformed | Handler | RecordFailure

  /** The queue service as one worker sees it.  Between the worker's requests other workers,
    * producers (unless there are none) and expiring timeouts may change it, unless the worker is
    * alone. */
  class QueueService {
    const noProducers: bool
    const alone: bool
    const maxDequeueCount: nat
    var state: State
    ghost var log: seq<Event>
    ghost var issued: seq<Event> // what this worker has done and asked for, granted or not

    ghost predicate Valid()
      reads `state, `log
    {
      state == Run(Empty(maxDequeueCount), log)
    }

    constructor (maxDequeueCount: nat, noProducers: bool, alone: bool)
      ensures Valid() && state == Empty(maxDequeueCount) && log == issued == []
      ensures this.maxDequeueCount == maxDequeueCount && this.noProducers == noProducers && this.alone == alone
    {
      this.maxDequeueCount, this.noProducers, this.alone := maxDequeueCount, noProducers, alone;
      state := Empty(maxDequeueCount);
      log, issued := [], [];
    }

    method Apply(e: Event)
      requires Valid()
      modifies this
      ensures Valid() && state == Step(old(state), e) && log == old(log) + [e] && issued == old(issued)
      ensures Extends(old(state), state)
      ensures !e.Produce? ==> |state.main| <= |old(state).main|
    {
      StepExtends(state, e);
      if !e.Produce? {
        QueueShrinks(state, e);
      }
      state := Step(state, e);
      log := log + [e];
      assert log[..|log| - 1] == old(log);
    }

    method Interfere()
      requires Valid()
      modifies this
      ensures Valid() && old(log) <= log && Extends(old(state), state) && issued == old(issued)
      ensures noProducers ==> |state.main| <= |old(state).main|
      ensures alone ==> state == old(state) && log == old(log)
    {
      hide Run, Valid, Step, Extends;
      ExtendsItself(state);
      if alone {
        return;
      }
      var events: int := *;
      while events > 0
        invariant Valid() && old(log) <= log && Extends(old(state), state) && issued == old(issued)
        invariant noProducers ==> |state.main| <= |old(state).main|
      {
        var e: Event := *;
        if !(noProducers && e.Produce?) {
          ghost var before := state;
          Apply(e);
          ExtendsTransitive(old(state), before, state);
        }
        events := events - 1;
      }
    }

    /** A message that was visible at one moment of the log, hidden from then until its timeout;
      * none when at that moment no message was. */
    method ReceiveMessage() returns (r: Result<Option<ReceivedMessage>, ServiceError>, ghost at: nat)
      requires Valid()
      modifies this
      ensures Valid() && old(log) <= log && Extends(old(state), state)
      ensures noProducers ==> |state.main| <= |old(state).main|
      ensures
        match r
        case Failure(e) => issued == old(issued) && e == QueueRequest
        case Success(None) =>
          && issued == old(issued) && |old(log)| <= at <= |log| && NothingIsVisible(At(maxDequeueCount, log, at))
          && (alone ==> NothingIsVisible(old(state)) && state == old(state))
        case Success(Some(m)) =>
          && issued == old(issued) + [Receive(m.id)]
          && |old(log)| <= at < |log| && log[at] == Receive(m.id)
          && IsVisible(At(maxDequeueCount, log, at), m.id) && m == Delivered(At(maxDequeueCount, log, at), m.id)
          && m.id in state.texts && state.texts[m.id] == m.text
          && m.id in state.deliveries && m.dequeueCount <= state.deliveries[m.id]
          && (alone ==>
                && IsVisible(old(state), m.id) && m == Delivered(old(state), m.id)
                && state == Step(old(state), Receive(m.id)))
    {
      hide Run, Valid, At, Extends, Inv;
      ghost var s0 := state;
      Interfere();
      ghost var s1, before := state, log;
      at := |before|;
      SafeNow();
      var answered: bool := *;
      if !answered {
        return Failure(QueueRequest), at;
      }
      if id :| id in state.main && state.main[id].visible {
        issued := issued + [Receive(id)];
        DeliveredNow(s1, id);
        Apply(Receive(id));
        var m := state.main[id];
        ghost var s2, after := state, log;
        Interfere();
        ExtendsTransitive(s0, s1, s2);
        ExtendsTransitive(s0, s2, state);
        DeliveryStays(s2, state, id);
        Positions(maxDequeueCount, before, log);
        assert after[at] == log[at];
        return Success(Some(ReceivedMessage(id, m.popReceipt, m.dequeueCount, m.text))), at;
      }
      Positions(maxDequeueCount, before, log);
      return Success(None), at;
    }

    lemma SafeNow()
      requires Valid()
      ensures Inv(state) && state.maxDequeueCount == maxDequeueCount && state == Run(Empty(maxDequeueCount), log)
    {
      EveryRunIsSafe(maxDequeueCount, log);
    }

    /** What the handler found out. */
    method Note(e: Event)
      requires Valid() && (e.Finish? || e.FindMissing?) && e.id in state.texts
      modifies this
      ensures Valid() && old(log) <= log && Extends(old(state), state) && issued == old(issued) + [e]
      ensures e.Finish? ==> e.id in state.handled
      ensures e.FindMissing? ==> e.id in state.missing
      ensures state == Step(old(state), e)
      ensures noProducers ==> |state.main| <= |old(state).main|
    {
      issued := issued + [e];
      Apply(e);
    }

    /** Copies a message to the dead-letter queue; an error leaves open whether it got there. */
    method EnqueueDeadletter(id: nat) returns (ok: bool)
      requires Valid() && Enabled(state, MoveToDeadletter(id))
      modifies this
      ensures Valid() && old(log) <= log && Extends(old(state), state) && issued == old(issued) + [MoveToDeadletter(id)]
      ensures ok ==> id in state.moved
      ensures noProducers ==> |state.main| <= |old(state).main|
      ensures alone && ok ==> state == Step(old(state), MoveToDeadletter(id))
    {
      hide Run, Valid;
      ghost var s0 := state;
      issued := issued + [MoveToDeadletter(id)];
      Interfere();
      ghost var s1 := state;
      KnowledgeIsStable(s0, s1, MoveToDeadletter(id));
      ok := *;
      var applied: bool := *;
      ExtendsItself(s1);
      if ok || applied {
        Apply(MoveToDeadletter(id));
      }
      ghost var s2 := state;
      Interfere();
      ExtendsTransitive(s0, s1, s2);
      ExtendsTransitive(s0, s2, state);
    }

    /** Deletes a message; it succeeds only if at that moment the message was there under that pop
      * receipt. */
    method DeleteMessage(id: nat, popReceipt: nat) returns (ok: bool, ghost at: nat)
      requires Valid() && (id in state.handled || id in state.moved)
      modifies this
      ensures Valid() && old(log) <= log && Extends(old(state), state)
        && issued == old(issued) + [Delete(id, popReceipt)]
      ensures ok ==>
        && |old(log)| <= at < |log| && log[at] == Delete(id, popReceipt)
        && IsHeld(At(maxDequeueCount, log, at), id, popReceipt)
      ensures noProducers ==> |state.main| <= |old(state).main|
      ensures noProducers && ok ==> |state.main| < |old(state).main|
      ensures alone && ok ==> state == Step(old(state), Delete(id, popReceipt)) && IsHeld(old(state), id, popReceipt)
    {
      hide Run, Valid, At, Extends, Inv;
      ghost var s0 := state;
      issued := issued + [Delete(id, popReceipt)];
      Interfere();
      ghost var s1, before := state, log;
      at := |before|;
      SafeNow();
      MayStillDelete(s0, s1, id, popReceipt);
      ok := *;
      var applied: bool := *;
      ok := ok && IsHeld(state, id, popReceipt);
      ExtendsItself(s1);
      if ok || applied {
        Apply(Delete(id, popReceipt));
        if ok {
          DeletionShrinks(s1, id, popReceipt);
        }
      }
      ghost var s2, after := state, log;
      Interfere();
      ExtendsTransitive(s0, s1, s2);
      ExtendsTransitive(s0, s2, state);
      Positions(maxDequeueCount, before, log);
      assert ok ==> after[at] == log[at];
    }
  }

  lemma DeliveredNow(s: State, id: nat)
    requires IsVisible(s, id) && Inv(s)
    ensures
      var t, m := Step(s, Receive(id)), Delivered(s, id);
      && id in t.main && t.main[id] == QueuedMessage(m.text, m.dequeueCount, false, m.popReceipt)
      && id in t.texts && t.texts[id] == m.text && id in t.deliveries && m.dequeueCount <= t.deliveries[id]
  {
  }

  lemma DeliveryStays(s: State, t: State, id: nat)
    requires Extends(s, t) && id in s.texts && id in s.deliveries
    ensures id in t.texts && t.texts[id] == s.texts[id] && id in t.deliveries && s.deliveries[id] <= t.deliveries[id]
  {
  }

  lemma LimitStays(s: State, t: State)
    requires Extends(s, t)
    ensures t.maxDequeueCount == s.maxDequeueCount && s.moved <= t.moved
  {
  }

  lemma MayStillDelete(s: State, t: State, id: nat, popReceipt: nat)
    requires Extends(s, t) && (id in s.handled || id in s.moved)
    ensures Enabled(t, Delete(id, popReceipt))
  {
  }

  lemma DeletionShrinks(s: State, id: nat, popReceipt: nat)
    requires IsHeld(s, id, popReceipt) && Enabled(s, Delete(id, popReceipt))
    ensures |Step(s, Delete(id, popReceipt)).main| < |s.main|
  {
    var t := Step(s, Delete(id, popReceipt));
    SubsetSize(t.main.Keys, s.main.Keys);
    assert |t.main| == |t.main.Keys| && |s.main| == |s.main.Keys|;
  }

  /** At position at, in a log that had start events before, the deletion found its message. */
  ghost predicate DeletedAt(q: QueueService, start: nat, at: nat, id: nat, popReceipt: nat)
    reads q
  {
    && start <= at < |q.log| && q.log[at] == Delete(id, popReceipt)
    && IsHeld(At(q.maxDequeueCount, q.log, at), id, popReceipt)
  }

  /** First the copy, then the deletion: a worker that stops in between loses nothing. */
  method MoveQueueMessageToDeadletter(q: QueueService, id: nat, popReceipt: nat)
    returns (r: Result<(), ServiceError>, ghost requests: seq<Event>, ghost at: nat)
    requires q.Valid() && Enabled(q.state, MoveToDeadletter(id))
    modifies q
    ensures q.Valid() && old(q.log) <= q.log && Extends(old(q.state), q.state)
    ensures q.issued == old(q.issued) + requests && requests <= [MoveToDeadletter(id), Delete(id, popReceipt)]
    ensures r.Success? ==> requests == [MoveToDeadletter(id), Delete(id, popReceipt)] && id in q.state.moved
    ensures r.Success? ==> DeletedAt(q, |old(q.log)|, at, id, popReceipt)
    ensures q.noProducers ==> |q.state.main| <= |old(q.state).main|
    ensures q.noProducers && r.Success? ==> |q.state.main| < |old(q.state).main|
    ensures q.alone && r.Success? ==> q.state == Run(old(q.state), requests)
    ensures r.Failure? ==> r.error == QueueRequest
  {
    hide Run, QueueService.Valid, At, Extends;
    ghost var s0 := q.state;
    RunOne(s0, MoveToDeadletter(id));
    var ok := q.EnqueueDeadletter(id);
    requests, at := [MoveToDeadletter(id)], 0;
    if !ok {
      return Failure(QueueRequest), requests, at;
    }
    ghost var s1 := q.state;
    ok, at := q.DeleteMessage(id, popReceipt);
    ExtendsTransitive(s0, s1, q.state);
    LimitStays(s1, q.state);
    RunNext(s0, requests, Delete(id, popReceipt));
    requests := requests + [Delete(id, popReceipt)];
    return if ok then Success(()) else Failure(QueueRequest), requests, at;
  }

  lemma RunOne(s: State, e: Event)
    ensures Run(s, []) == s && Run(s, [e]) == Step(s, e)
  {
    assert [e][..0] == [];
  }

  lemma RunNext(s: State, log: seq<Event>, e: Event)
    ensures Run(s, log + [e]) == Step(Run(s, log), e)
  {
    assert (log + [e])[..|log|] == log;
  }

  lemma {:induction false} RunFirst(s: State, e: Event, log: seq<Event>)
    ensures Run(s, [e] + log) == Run(Step(s, e), log)
  {
    if log == [] {
      RunOne(s, e);
      assert [e] + log == [e];
    } else {
      RunFirst(s, e, log[..|log| - 1]);
      assert ([e] + log)[..|log|] == [e] + log[..|log| - 1];
    }
  }

  /** What a worker does with a message, if every request is granted: nothing more than receive
    * it when it is to be delivered again. */
  function Requests(m: ReceivedMessage, maxDequeueCount: nat, parses: bool, handler: HandlerResult, recorded: bool)
    : seq<Event>
  {
    var exhausted := ShouldDeadletter(m.dequeueCount, maxDequeueCount);
    var move := [MoveToDeadletter(m.id), Delete(m.id, m.popReceipt)];
    if !parses then if exhausted then move else []
    else
      match handler
      case Finished => [Finish(m.id), Delete(m.id, m.popReceipt)]
      case MissingIngestLog => [FindMissing(m.id)] + move
      case OtherError => if exhausted && recorded then move else []
  }

  /** Takes one message through its handler.  parses tells whether a text is a processing message,
    * handler what processing it comes to, recorded whether its failure could be written down. */
  method ProcessOnceWithQueue(q: QueueService, parses: string -> bool, handler: HandlerResult, recorded: bool)
    returns (r: Result<ProcessOnceOutcome, ServiceError>, ghost received: Option<ReceivedMessage>,
             ghost requests: seq<Event>, ghost at: nat)
    requires q.Valid()
    modifies q
    ensures q.Valid() && old(q.log) <= q.log && Extends(old(q.state), q.state)
    ensures received.None? ==> q.issued == old(q.issued) && (r == Success(NoMessage) || r == Failure(QueueRequest))
    ensures received.Some? ==>
      var m := received.value;
      var plan := Requests(m, q.state.maxDequeueCount, parses(m.text), handler, recorded);
      && m.id in q.state.texts && q.state.texts[m.id] == m.text
      && q.issued == old(q.issued) + [Receive(m.id)] + requests && requests <= plan
      && (r == Success(HandledMessage) ==> plan != [] && requests == plan)
      && (plan == [] ==> r.Failure?)
      && r != Success(NoMessage)
    ensures r == Success(HandledMessage) ==>
      received.Some? && DeletedAt(q, |old(q.log)|, at, received.value.id, received.value.popReceipt)
    ensures q.noProducers ==> |q.state.main| <= |old(q.state).main|
    ensures q.noProducers && r == Success(HandledMessage) ==> |q.state.main| < |old(q.state).main|
    ensures q.alone && received.Some? && r != Failure(QueueRequest) ==>
      var m := received.value;
      && IsVisible(old(q.state), m.id) && m == Delivered(old(q.state), m.id)
      && requests == Requests(m, q.state.maxDequeueCount, parses(m.text), handler, recorded)
      && q.state == Run(old(q.state), [Receive(m.id)] + requests)
      && (IsFailure(parses(m.text), handler, recorded) ==>
            FailingDelivery(old(q.state), m.id) == Step(q.state, Expire(m.id)))
  {
    hide Run, QueueService.Valid, Requests, ShouldDeadletter, At, Extends, FailingDelivery, Step, Enabled;
    requests, received, at := [], None, 0;
    ghost var s0 := q.state;
    q.SafeNow();
    var answer, _ := q.ReceiveMessage();
    if answer.Failure? {
      return Failure(answer.error), received, requests, at;
    }
    if answer.value.None? {
      return Success(NoMessage), received, requests, at;
    }
    var m := answer.value.value;
    received := answer.value;
    ghost var s1 := q.state;
    r, requests, at := HandleReceived(q, m, parses(m.text), handler, recorded);
    ExtendsTransitive(s0, s1, q.state);
    DeliveryStays(s1, q.state, m.id);
    LimitStays(s0, q.state);
    RunFirst(s0, Receive(m.id), requests);
    if q.alone && IsFailure(parses(m.text), handler, recorded) {
      FailingWorkerDelivers(s0, m, parses(m.text), handler, recorded);
    }
  }

  /** The attempt fails for a reason that calls for a retry, and that could be written down. */
  predicate IsFailure(parses: bool, handler: HandlerResult, recorded: bool) {
    !parses || (handler == OtherError && recorded)
  }

  /** What an undisturbed worker asks for, followed by the end of the timeout, is one delivery of a
    * message that always fails. */
  lemma FailingWorkerDelivers(s: State, m: ReceivedMessage, parses: bool, handler: HandlerResult, recorded: bool)
    requires Inv(s) && IsVisible(s, m.id) && m == Delivered(s, m.id) && IsFailure(parses, handler, recorded)
    ensures
      var t := Run(s, [Receive(m.id)] + Requests(m, s.maxDequeueCount, parses, handler, recorded));
      FailingDelivery(s, m.id) == Step(t, Expire(m.id))
  {
    hide Run, Inv;
    var id, requests := m.id, Requests(m, s.maxDequeueCount, parses, handler, recorded);
    var received := Step(s, Receive(id));
    RunFirst(s, Receive(id), requests);
    MayReceive(s, id);
    assert received.main[id].dequeueCount == m.dequeueCount && received.main[id].popReceipt == m.popReceipt;
    if ShouldDeadletter(m.dequeueCount, s.maxDequeueCount) {
      RunOne(received, MoveToDeadletter(id));
      RunNext(received, [MoveToDeadletter(id)], Delete(id, m.popReceipt));
      assert requests == [MoveToDeadletter(id)] + [Delete(id, m.popReceipt)];
    } else {
      RunOne(received, Expire(id));
    }
  }

  lemma MayReceive(s: State, id: nat)
    requires Inv(s) && IsVisible(s, id)
    ensures Enabled(s, Receive(id)) && id in s.texts && s.deliveries[id] == s.main[id].dequeueCount
  {
  }

  method HandleReceived(q: QueueService, m: ReceivedMessage, parses: bool, handler: HandlerResult, recorded: bool)
    returns (r: Result<ProcessOnceOutcome, ServiceError>, ghost requests: seq<Event>, ghost at: nat)
    requires q.Valid() && m.id in q.state.texts && m.id in q.state.deliveries
      && m.dequeueCount <= q.state.deliveries[m.id]
    modifies q
    ensures q.Valid() && old(q.log) <= q.log && Extends(old(q.state), q.state)
    ensures
      var plan := Requests(m, q.state.maxDequeueCount, parses, handler, recorded);
      && q.issued == old(q.issued) + requests && requests <= plan
      && (r == Success(HandledMessage) ==> plan != [] && requests == plan)
      && (plan == [] ==> r.Failure?)
      && r != Success(NoMessage)
    ensures r == Success(HandledMessage) ==> DeletedAt(q, |old(q.log)|, at, m.id, m.popReceipt)
    ensures q.noProducers ==> |q.state.main| <= |old(q.state).main|
    ensures q.noProducers && r == Success(HandledMessage) ==> |q.state.main| < |old(q.state).main|
    ensures q.alone && r != Failure(QueueRequest) ==>
      && requests == Requests(m, q.state.maxDequeueCount, parses, handler, recorded)
      && q.state == Run(old(q.state), requests)
  {
    hide Run, QueueService.Valid, At, Extends;
    requests, at := [], 0;
    ghost var s0 := q.state;
    ExtendsItself(s0);
    RunOne(s0, FindMissing(m.id));
    var exhausted := ShouldDeadletter(m.dequeueCount, q.state.maxDequeueCount);
    if !parses {
      if !exhausted {
        return Failure(Malformed), requests, at;
      }
      var moved;
      moved, requests, at := MoveQueueMessageToDeadletter(q, m.id, m.popReceipt);
      LimitStays(s0, q.state);
      return if moved.Success? then Success(HandledMessage) else Failure(moved.error), requests, at;
    }
    match handler {
      case MissingIngestLog =>
        q.Note(FindMissing(m.id));
        ghost var s1 := q.state;
        var moved;
        ghost var last;
        moved, last, at := MoveQueueMessageToDeadletter(q, m.id, m.popReceipt);
        requests := [FindMissing(m.id)] + last;
        RunFirst(s0, FindMissing(m.id), last);
        ExtendsTransitive(s0, s1, q.state);
        return if moved.Success? then Success(HandledMessage) else Failure(moved.error), requests, at;
      case OtherError =>
        if !recorded {
          return Failure(RecordFailure), requests, at;
        }
        if !exhausted {
          return Failure(Handler), requests, at;
        }
        var moved;
        moved, requests, at := MoveQueueMessageToDeadletter(q, m.id, m.popReceipt);
        LimitStays(s0, q.state);
        return if moved.Success? then Success(HandledMessage) else Failure(moved.error), requests, at;
      case Finished =>
        q.Note(Finish(m.id));
        ghost var s1 := q.state;
        var ok;
        ok, at := q.DeleteMessage(m.id, m.popReceipt);
        requests := [Finish(m.id), Delete(m.id, m.popReceipt)];
        RunOne(s0, Finish(m.id));
        RunNext(s0, [Finish(m.id)], Delete(m.id, m.popReceipt));
        assert requests == [Finish(m.id)] + [Delete(m.id, m.popReceipt)];
        ExtendsTransitive(s0, s1, q.state);
        return if ok then Success(HandledMessage) else Failure(QueueRequest), requests, at;
    }
  }

  /** The worker command: one message after the other until none is visible or a request or a
    * handler fails.  Without producers it ends, as each message it handles leaves the queue. */
  method Worker(q: QueueService, parses: string -> bool, handler: nat -> HandlerResult, recorded: nat -> bool)
    returns (r: Result<(), ServiceError>, handled: nat)
    requires q.Valid() && q.noProducers
    modifies q
    ensures q.Valid() && Inv(q.state)
    ensures handled + |q.state.main| <= |old(q.state).main|
  {
    hide Run, QueueService.Valid, Extends, Requests;
    handled := 0;
    while true
      invariant q.Valid() && handled + |q.state.main| <= |old(q.state).main|
      decreases |q.state.main|
    {
      var outcome, _, _, _ := ProcessOnceWithQueue(q, parses, handler(handled), recorded(handled));
      q.SafeNow();
      if outcome.Failure? {
        return Failure(outcome.error), handled;
      }
      match outcome.value {
        case HandledMessage => handled := handled + 1;
        case NoMessage => return Success(()), handled;
      }
    }
  }
}
