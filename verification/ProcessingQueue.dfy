/** The processing queue with visibility timeouts and pop receipts, its dead-letter queue, and
  * what its workers know (backend/processing-svc/src/process/queue_worker.rs,
  * backend/processing-svc/src/process/failure.rs).
  *
  * Any number of workers receive, delete and dead-letter messages; a hidden message may become
  * visible again at any moment; a worker may stop between any two steps.  A run is therefore any
  * interleaving of events.  Enabled says what a worker must know before it sends a request; the
  * worker methods prove that the code knows it. */
module ProcessingQueue {
  import opened Wrappers

  datatype QueuedMessage = QueuedMessage(text: string, dequeueCount: nat, visible: bool, popReceipt: nat)

  /** The two queues, and the past: the texts accepted under each id, how often each message was
    * delivered, which messages a handler finished, which were sent to the dead-letter queue, and
    * for which the handler found no ingest row. */
  datatype State = State(
    main: map<nat, QueuedMessage>,
    dead: seq<string>,
    texts: map<nat, string>,
    deliveries: map<nat, nat>,
    handled: set<nat>,
    moved: set<nat>,
    missing: set<nat>,
    receipts: nat,
    maxDequeueCount: nat)

  function Empty(maxDequeueCount: nat): State {
    State(map[], [], map[], map[], {}, {}, {}, 0, maxDequeueCount)
  }

  datatype Event =
    | Produce(id: nat, text: string)
    | Receive(id: nat)
    | Expire(id: nat)
    | Finish(id: nat)
    | FindMissing(id: nat)
    | MoveToDeadletter(id: nat)
    | Delete(id: nat, popReceipt: nat)

  predicate ShouldDeadletter(dequeueCount: nat, maxDequeueCount: nat) {
    dequeueCount >= maxDequeueCount
  }

  predicate Enabled(s: State, e: Event) {
    match e
    case Produce(id, _) => id !in s.texts && id !in s.deliveries
    case Receive(id) => id in s.main && s.main[id].visible && id in s.deliveries
    case Expire(id) => id in s.main
    case Finish(id) => id in s.texts
    case FindMissing(id) => id in s.texts
    case MoveToDeadletter(id) =>
      && id in s.texts && id in s.deliveries
      && (ShouldDeadletter(s.deliveries[id], s.maxDequeueCount) || id in s.missing)
    case Delete(id, _) => id in s.handled || id in s.moved
  }

  function Effect(s: State, e: Event): State
    requires Enabled(s, e)
  {
    match e
    case Produce(id, text) =>
      s.(main := s.main[id := QueuedMessage(text, 0, true, 0)],
         texts := s.texts[id := text],
         deliveries := s.deliveries[id := 0])
    case Receive(id) =>
      var m := s.main[id];
      s.(main := s.main[id := QueuedMessage(m.text, m.dequeueCount + 1, false, s.receipts + 1)],
         deliveries := s.deliveries[id := s.deliveries[id] + 1],
         receipts := s.receipts + 1)
    case Expire(id) => s.(main := s.main[id := s.main[id].(visible := true)])
    case Finish(id) => s.(handled := s.handled + {id})
    case FindMissing(id) => s.(missing := s.missing + {id})
    case MoveToDeadletter(id) => s.(dead := s.dead + [s.texts[id]], moved := s.moved + {id})
    case Delete(id, popReceipt) =>
      if id in s.main && s.main[id].popReceipt == popReceipt then s.(main := s.main - {id}) else s
  }

  function Step(s: State, e: Event): State {
    if Enabled(s, e) then Effect(s, e) else s
  }

  function Run(s: State, log: seq<Event>): State {
    if log == [] then s else Step(Run(s, log[..|log| - 1]), log[|log| - 1])
  }

  // ------------------------------------------------------------------------ what every run keeps

  /** Each message ever accepted is still queued, or a handler finished it, or the dead-letter
    * queue holds its text. */
  ghost predicate NoMessageIsLost(s: State) {
    forall id | id in s.texts :: id in s.main || id in s.handled || (id in s.moved && s.texts[id] in s.dead)
  }

  /** A message reaches the dead-letter queue only after as many deliveries as are allowed, or
    * when its ingest row is missing. */
  ghost predicate DeadlettersAreJustified(s: State) {
    forall id | id in s.moved ::
      id in s.deliveries && (s.deliveries[id] >= s.maxDequeueCount || id in s.missing)
  }

  ghost predicate QueueIsConsistent(s: State) {
    && (forall id | id in s.main ::
          id in s.texts && id in s.deliveries
          && s.main[id].text == s.texts[id] && s.main[id].dequeueCount == s.deliveries[id])
    && (forall id | id in s.texts :: id in s.deliveries)
  }

  ghost predicate MovedAs(s: State, id: nat, text: string) {
    id in s.moved && id in s.texts && s.texts[id] == text
  }

  ghost predicate HasOrigin(s: State, text: string) {
    exists id :: MovedAs(s, id, text)
  }

  /** The dead-letter queue holds the texts of the moved messages and nothing else. */
  ghost predicate DeadTextsMatch(s: State) {
    && (forall id | id in s.moved :: id in s.texts && s.texts[id] in s.dead)
    && (forall i | 0 <= i < |s.dead| :: HasOrigin(s, s.dead[i]))
  }

  ghost predicate Inv(s: State) {
    NoMessageIsLost(s) && DeadlettersAreJustified(s) && QueueIsConsistent(s) && DeadTextsMatch(s)
  }

  lemma StepKeepsDeadTexts(s: State, e: Event)
    requires DeadTextsMatch(s)
    ensures DeadTextsMatch(Step(s, e))
  {
    var t := Step(s, e);
    forall i | 0 <= i < |t.dead| ensures HasOrigin(t, t.dead[i]) {
      if i < |s.dead| {
        var id :| MovedAs(s, id, s.dead[i]);
        assert MovedAs(t, id, t.dead[i]);
      } else {
        assert MovedAs(t, e.id, t.dead[i]);
      }
    }
    if t.dead != s.dead {
      assert t.dead[|s.dead|] == s.texts[e.id];
    }
  }

  lemma StepKeepsMessages(s: State, e: Event)
    requires NoMessageIsLost(s) && DeadTextsMatch(s) && DeadTextsMatch(Step(s, e))
    ensures NoMessageIsLost(Step(s, e))
  {
  }

  lemma StepKeepsCounts(s: State, e: Event)
    requires QueueIsConsistent(s) && DeadlettersAreJustified(s)
    ensures QueueIsConsistent(Step(s, e)) && DeadlettersAreJustified(Step(s, e))
  {
  }

  lemma StepKeepsInv(s: State, e: Event)
    requires Inv(s)
    ensures Inv(Step(s, e))
  {
    StepKeepsDeadTexts(s, e);
    StepKeepsMessages(s, e);
    StepKeepsCounts(s, e);
  }

  /** Every state of every run, whatever the workers do and wherever they stop. */
  lemma {:induction false} EveryRunIsSafe(maxDequeueCount: nat, log: seq<Event>)
    ensures Inv(Run(Empty(maxDequeueCount), log))
    ensures Run(Empty(maxDequeueCount), log).maxDequeueCount == maxDequeueCount
  {
    if log != [] {
      EveryRunIsSafe(maxDequeueCount, log[..|log| - 1]);
      StepKeepsInv(Run(Empty(maxDequeueCount), log[..|log| - 1]), log[|log| - 1]);
    }
  }

  // ------------------------------------------------------------------------ positions of a log

  /** The state after the first p events of a log. */
  function At(maxDequeueCount: nat, log: seq<Event>, p: nat): State
    requires p <= |log|
  {
    Run(Empty(maxDequeueCount), log[..p])
  }

  /** The end of a log, seen from any longer one. */
  lemma Positions(maxDequeueCount: nat, log: seq<Event>, longer: seq<Event>)
    requires log <= longer
    ensures At(maxDequeueCount, longer, |log|) == Run(Empty(maxDequeueCount), log)
  {
    assert longer[..|log|] == log;
  }

  // -------------------------------------------------------------------------------- the past grows

  ghost predicate Extends(s: State, t: State) {
    && s.maxDequeueCount == t.maxDequeueCount
    && (forall id | id in s.texts :: id in t.texts && t.texts[id] == s.texts[id])
    && (forall id | id in s.deliveries :: id in t.deliveries && s.deliveries[id] <= t.deliveries[id])
    && s.handled <= t.handled && s.moved <= t.moved && s.missing <= t.missing
  }

  lemma StepExtends(s: State, e: Event)
    ensures Extends(s, Step(s, e))
  {
  }

  lemma ExtendsTransitive(s: State, t: State, u: State)
    requires Extends(s, t) && Extends(t, u)
    ensures Extends(s, u)
  {
  }

  lemma ExtendsItself(s: State)
    ensures Extends(s, s)
  {
  }

  /** A worker's knowledge does not go stale. */
  lemma KnowledgeIsStable(s: State, t: State, e: Event)
    requires Extends(s, t) && Enabled(s, e)
    requires e.Finish? || e.FindMissing? || e.MoveToDeadletter? || e.Delete?
    ensures Enabled(t, e)
  {
  }

  /** Without producers the main queue only shrinks. */
  lemma QueueShrinks(s: State, e: Event)
    requires !e.Produce?
    ensures Step(s, e).main.Keys <= s.main.Keys
    ensures |Step(s, e).main| <= |s.main|
  {
    var t := Step(s, e);
    SubsetSize(t.main.Keys, s.main.Keys);
    assert |t.main| == |t.main.Keys| && |s.main| == |s.main.Keys|;
  }

  // ---------------------------------------------------------------------------- what is delivered

  datatype ReceivedMessage = ReceivedMessage(id: nat, popReceipt: nat, dequeueCount: nat, text: string)

  predicate IsVisible(s: State, id: nat) {
    id in s.main && s.main[id].visible
  }

  predicate NothingIsVisible(s: State) {
    forall id | id in s.main :: !s.main[id].visible
  }

  /** What the receiver of a visible message is told: this delivery counts, and has a new receipt. */
  function Delivered(s: State, id: nat): ReceivedMessage
    requires IsVisible(s, id)
  {
    ReceivedMessage(id, s.receipts + 1, s.main[id].dequeueCount + 1, s.main[id].text)
  }

  /** A deletion is granted when the message is there under that receipt. */
  predicate IsHeld(s: State, id: nat, popReceipt: nat) {
    id in s.main && s.main[id].popReceipt == popReceipt
  }

  // ------------------------------------------------------------------- a message that always fails

  /** One delivery of a message whose handler always fails, by a worker that nothing disturbs: the
    * failed message becomes visible again, or is moved once its count is high enough. */
  function FailingDelivery(s: State, id: nat): State {
    if id !in s.main then s
    else
      var received := Step(s, Receive(id));
      if id in received.main && ShouldDeadletter(received.main[id].dequeueCount, s.maxDequeueCount) then
        Step(Step(received, MoveToDeadletter(id)), Delete(id, received.main[id].popReceipt))
      else Step(received, Expire(id))
  }

  function FailingDeliveries(s: State, id: nat, n: nat): State {
    if n == 0 then s else FailingDelivery(FailingDeliveries(s, id, n - 1), id)
  }

  /** It is delivered exactly as often as allowed, at least once: it stays queued through all
    * deliveries but the last, and the last one leaves its text in the dead-letter queue. */
  lemma {:induction false} FailingMessageIsDeliveredMaxTimes(s: State, id: nat, n: nat)
    requires Inv(s) && id in s.main && s.main[id].visible && s.main[id].dequeueCount == 0
    ensures
      var t, limit := FailingDeliveries(s, id, n), Max(1, s.maxDequeueCount);
      && Inv(t) && t.maxDequeueCount == s.maxDequeueCount && id in t.texts && t.texts[id] == s.texts[id]
      && (id in t.main <==> n < limit)
      && id in t.deliveries && t.deliveries[id] == Min(n, limit)
      && (n < limit ==> t.main[id].visible && t.main[id].dequeueCount == n && t.dead == s.dead)
      && (n >= limit ==> id in t.moved && t.dead == s.dead + [s.texts[id]])
  {
    if n > 0 {
      FailingMessageIsDeliveredMaxTimes(s, id, n - 1);
      OneFailingDelivery(FailingDeliveries(s, id, n - 1), id);
      hide Inv, FailingDelivery;
    }
  }

  lemma OneFailingDelivery(s: State, id: nat)
    requires Inv(s) && (id in s.main ==> s.main[id].visible)
    ensures
      var t := FailingDelivery(s, id);
      && Inv(t) && t.maxDequeueCount == s.maxDequeueCount && t.texts == s.texts
      && (id !in s.main ==> t == s)
      && (id in s.main ==>
            var count := s.main[id].dequeueCount + 1;
            && t.deliveries == s.deliveries[id := count]
            && (count < s.maxDequeueCount ==>
                  && id in t.main && t.main[id].visible && t.main[id].dequeueCount == count
                  && t.dead == s.dead)
            && (count >= s.maxDequeueCount ==>
                  && id !in t.main && id in t.moved && t.dead == s.dead + [s.texts[id]]))
  {
    if id in s.main {
      var received := Step(s, Receive(id));
      StepKeepsInv(s, Receive(id));
      if ShouldDeadletter(received.main[id].dequeueCount, s.maxDequeueCount) {
        var moved := Step(received, MoveToDeadletter(id));
        StepKeepsInv(received, MoveToDeadletter(id));
        StepKeepsInv(moved, Delete(id, received.main[id].popReceipt));
      } else {
        StepKeepsInv(received, Expire(id));
      }
      hide NoMessageIsLost, DeadlettersAreJustified, DeadTextsMatch;
    }
  }
}
