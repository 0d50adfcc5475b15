/** Long polls as processes. The wait of a poller starts after it has released
    the lock, so a notification sent in between reaches nobody; here every
    interleaving of pollers with the other handlers is a run. */
module LongPoll {
  import opened ByteStrings
  import opened Proto
  import opened Rendezvous
  import opened Histories
  import Slots

  const MAX_LONG_POLL_SECS: nat := 30

  datatype Pc =
    | Looking                     // about to take the lock
    | AboutToWait                 // saw an empty queue and released the lock
    | Waiting(notified: bool)
    | Done(answer: Response)
    | Dropped                     // the connection went away

  /** The last fields remember when the poller arrived and how long it asked to wait,
      and the history when it arrived or last woke, when it last saw an empty queue,
      and when its wait began. */
  datatype Poller = Poller(
    id: Bytes, token: Option<Bytes>, deadline: Time, pc: Pc,
    arrived: Time, wait: Option<nat>, woke: History, look: History, waitStart: History)

  datatype Act =
    | Serve(op: Op)
    | Arrive(poller: nat, id: Bytes, token: Option<Bytes>, wait: Option<nat>)
    | Look(poller: nat)
    | Decide(poller: nat)
    | Wake(poller: nat)
    | Drop(poller: nat)

  datatype Run = Begin | Do(past: Run, now: Time, act: Act)

  datatype System = System(history: History, pollers: map<nat, Poller>)

  function Min(a: nat, b: nat): nat {
    if a < b then a else b
  }

  /** `notify_waiters` on a host's handle: only those already waiting hear it. */
  function Notify(pollers: map<nat, Poller>, id: Bytes): map<nat, Poller> {
    map k | k in pollers :: Heard(pollers[k], id)
  }

  function Heard(poller: Poller, id: Bytes): Poller {
    if poller.pc.Waiting? && poller.id == id then poller.(pc := Waiting(true)) else poller
  }

  predicate Enabled(p: Primitives, sys: System, now: Time, act: Act) {
    match act
    case Serve(op) => !op.DoPoll?
    case Arrive(k, _, _, _) => k !in sys.pollers
    case Look(k) => k in sys.pollers && sys.pollers[k].pc.Looking?
    case Decide(k) => k in sys.pollers && sys.pollers[k].pc.AboutToWait?
    case Wake(k) =>
      k in sys.pollers && sys.pollers[k].pc.Waiting?
      && (sys.pollers[k].pc.notified || now >= sys.pollers[k].deadline)
    case Drop(k) => k in sys.pollers && !sys.pollers[k].pc.Done?
  }

  function Step(p: Primitives, sys: System, now: Time, act: Act): System
    requires Enabled(p, sys, now, act)
  {
    match act
    case Serve(op) =>
      var h := Then(sys.history, now, op);
      System(h, if op.DoSubmit? && LastResponse(p, h).Queued? then Notify(sys.pollers, op.id) else sys.pollers)
    case Arrive(k, id, token, wait) =>
      var secs := if wait.Some? then Min(wait.value, MAX_LONG_POLL_SECS) else 0;
      var poller := Poller(id, token, now + secs * SECOND, Looking, now, wait, sys.history, Start, Start);
      sys.(pollers := sys.pollers[k := poller])
    case Look(k) =>
      var poller := sys.pollers[k];
      var h := Then(sys.history, now, DoPoll(poller.id, poller.token));
      var answer := LastResponse(p, h);
      var poller' := if answer == Delivered([]) then poller.(pc := AboutToWait, look := sys.history)
                     else poller.(pc := Done(answer));
      System(h, sys.pollers[k := poller'])
    case Decide(k) =>
      var poller := sys.pollers[k];
      var poller' := if now >= poller.deadline then poller.(pc := Done(Delivered([])))
                     else poller.(pc := Waiting(false), waitStart := sys.history);
      sys.(pollers := sys.pollers[k := poller'])
    case Wake(k) =>
      sys.(pollers := sys.pollers[k := sys.pollers[k].(pc := Looking, woke := sys.history)])
    case Drop(k) => sys.(pollers := sys.pollers[k := sys.pollers[k].(pc := Dropped)])
  }

  function Clock(run: Run): Time {
    if run.Begin? then 0 else run.now
  }

  /** A run in which every act was possible when it happened. */
  ghost predicate Legal(p: Primitives, run: Run) {
    run.Do? ==>
      && Legal(p, run.past)
      && Clock(run.past) <= run.now
      && Enabled(p, Reached(p, run.past), run.now, run.act)
      && (run.act.Serve? ==> Fresh(p, Reached(p, run.past).history, run.act.op))
  }

  function Reached(p: Primitives, run: Run): System {
    match run
    case Begin => System(Start, map[])
    case Do(past, now, act) =>
      var sys := Reached(p, past);
      if Enabled(p, sys, now, act) then Step(p, sys, now, act) else sys
  }

  /** The locked sections of a legal run form a valid history of the server, so
      everything proved of histories holds of every interleaving. */
  lemma {:induction false} LockOrderIsValid(p: Primitives, run: Run)
    requires Legal(p, run)
    ensures Valid(p, Reached(p, run).history) && Now(Reached(p, run).history) <= Clock(run)
  {
    if run.Begin? {
    } else {
      LockOrderIsValid(p, run.past);
    }
  }

  // -------------------------------------------------------------------------
  // Every request goes to one answer

  datatype Delivery = Delivery(poller: nat, id: Bytes, batch: seq<PairRequest>)

  /** The non-empty batches taken from the queues, with who took them. */
  function Log(p: Primitives, run: Run): seq<Delivery> {
    match run
    case Begin => []
    case Do(past, now, act) =>
      var sys, sys' := Reached(p, past), Reached(p, run);
      if act.Look? && act.poller in sys'.pollers && Enabled(p, sys, now, act) then
        var poller := sys'.pollers[act.poller];
        if poller.pc.Done? && poller.pc.answer.Delivered?
        then Log(p, past) + [Delivery(act.poller, poller.id, poller.pc.answer.batch)]
        else Log(p, past)
      else Log(p, past)
  }

  /** The batches of one host, one after the other. */
  function BatchesOf(log: seq<Delivery>, id: Bytes): seq<PairRequest> {
    if log == [] then []
    else
      var last := log[|log| - 1];
      BatchesOf(log[..|log| - 1], id) + if last.id == id then last.batch else []
  }

  lemma BatchesOfPush(log: seq<Delivery>, d: Delivery, id: Bytes)
    ensures BatchesOf(log + [d], id) == BatchesOf(log, id) + if d.id == id then d.batch else []
  {
    assert (log + [d])[..|log|] == log;
  }

  lemma {:induction false} LogIsDeliveries(p: Primitives, run: Run, id: Bytes)
    requires Legal(p, run)
    ensures BatchesOf(Log(p, run), id) == Deliveries(p, Reached(p, run).history, id)
  {
    if run.Begin? {
    } else {
      LogIsDeliveries(p, run.past, id);
      var sys := Reached(p, run.past);
      if run.act.Look? {
        var poller := sys.pollers[run.act.poller];
        var h := Then(sys.history, run.now, DoPoll(poller.id, poller.token));
        var answer := LastResponse(p, h);
        if answer.Delivered? && answer.batch != [] {
          BatchesOfPush(Log(p, run.past), Delivery(run.act.poller, poller.id, answer.batch), id);
        }
      }
    }
  }

  /** For every interleaving: the batches answered to a host's pollers, in lock
      order, followed by the queue, are exactly the requests accepted for it. */
  lemma LongPollConservation(p: Primitives, run: Run, id: Bytes)
    requires Legal(p, run)
    ensures var h := Reached(p, run).history;
      BatchesOf(Log(p, run), id) + RuntimeOf(After(p, h), id).pending == Enqueued(p, h, id)
  {
    LockOrderIsValid(p, run);
    LogIsDeliveries(p, run, id);
    Conservation(p, Reached(p, run).history, id);
  }

  /** A batch that left a queue is the answer of the poller that took it. */
  lemma {:induction false} BatchIsTheAnswer(p: Primitives, run: Run, i: nat)
    requires Legal(p, run) && i < |Log(p, run)|
    ensures var d := Log(p, run)[i];
      && d.poller in Reached(p, run).pollers
      && Reached(p, run).pollers[d.poller].id == d.id
      && Reached(p, run).pollers[d.poller].pc == Done(Delivered(d.batch))
      && d.batch != []
  {
    if i == |Log(p, run.past)| {
    } else {
      BatchIsTheAnswer(p, run.past, i);
    }
  }

  /** No poller takes two batches, so no request is answered twice. */
  lemma {:induction false} OneBatchPerPoller(p: Primitives, run: Run, i: nat, j: nat)
    requires Legal(p, run) && i < j < |Log(p, run)|
    ensures Log(p, run)[i].poller != Log(p, run)[j].poller
  {
    if j < |Log(p, run.past)| {
      OneBatchPerPoller(p, run.past, i, j);
    } else {
      BatchIsTheAnswer(p, run.past, i);
    }
  }

  /** And an answer with requests in it is one of the logged batches. */
  lemma {:induction false} AnswerIsLogged(p: Primitives, run: Run, k: nat) returns (i: nat)
    requires Legal(p, run) && k in Reached(p, run).pollers
    requires var pc := Reached(p, run).pollers[k].pc;
      pc.Done? && pc.answer.Delivered? && pc.answer.batch != []
    ensures i < |Log(p, run)|
    ensures Log(p, run)[i] == Delivery(k, Reached(p, run).pollers[k].id, Reached(p, run).pollers[k].pc.answer.batch)
  {
    var before := Reached(p, run.past).pollers;
    if k in before && before[k].pc.Done? {
      i := AnswerIsLogged(p, run.past, k);
    } else {
      i := |Log(p, run.past)|;
    }
  }

  // -------------------------------------------------------------------------
  // Empty answers and missed notifications

  ghost predicate PollerSound(p: Primitives, h: History, poller: Poller) {
    && (poller.pc.AboutToWait? || poller.pc.Waiting? || poller.pc == Done(Delivered([])) ==>
          && IsPrefix(poller.woke, poller.look)
          && IsPrefix(poller.look, h)
          && RuntimeOf(After(p, poller.look), poller.id).pending == []
          && Authorize(p, After(p, h), poller.id, poller.token) == None)
    && (poller.pc.Looking? ==> IsPrefix(poller.woke, h))
    && (poller.pc == Waiting(false) ==>
          Acceptances(p, h, poller.id) == Acceptances(p, poller.waitStart, poller.id))
  }

  lemma AuthorizationStays(p: Primitives, h: History, id: Bytes, token: Option<Bytes>)
    requires Valid(p, h) && h.Then?
    requires Authorize(p, After(p, h.past), id, token) == None
    ensures Authorize(p, After(p, h), id, token) == None
  {
    Slots.AuthorizedExactlyForOwner(p, h.past, id, token.value);
    Slots.AuthorizedExactlyForOwner(p, h, id, token.value);
  }

  lemma SoundPollerStays(p: Primitives, h: History, poller: Poller)
    requires Valid(p, h) && h.Then? && PollerSound(p, h.past, poller)
    requires !(h.op.DoSubmit? && h.op.id == poller.id && LastResponse(p, h).Queued?)
    ensures PollerSound(p, h, poller)
  {
    if poller.pc.AboutToWait? || poller.pc.Waiting? || poller.pc == Done(Delivered([])) {
      AuthorizationStays(p, h, poller.id, poller.token);
    }
  }

  lemma NotifiedPollerStays(p: Primitives, h: History, poller: Poller)
    requires Valid(p, h) && h.Then? && PollerSound(p, h.past, poller)
    requires h.op.DoSubmit? && LastResponse(p, h).Queued?
    ensures PollerSound(p, h, Heard(poller, h.op.id))
  {
    if poller.pc.AboutToWait? || poller.pc.Waiting? || poller.pc == Done(Delivered([])) {
      AuthorizationStays(p, h, poller.id, poller.token);
    }
  }

  lemma LookingPollerStays(p: Primitives, h: History, poller: Poller)
    requires Valid(p, h) && h.Then? && PollerSound(p, h.past, poller) && poller.pc.Looking?
    requires h.op == DoPoll(poller.id, poller.token)
    ensures LastResponse(p, h) == Delivered([]) ==>
              PollerSound(p, h, poller.(pc := AboutToWait, look := h.past))
    ensures LastResponse(p, h) != Delivered([]) ==>
              PollerSound(p, h, poller.(pc := Done(LastResponse(p, h))))
  {
    if LastResponse(p, h) == Delivered([]) {
      AuthorizationStays(p, h, poller.id, poller.token);
    }
  }

  lemma {:induction false} PollersAreSound(p: Primitives, run: Run, k: nat)
    requires Legal(p, run) && k in Reached(p, run).pollers
    ensures PollerSound(p, Reached(p, run).history, Reached(p, run).pollers[k])
  {
    var sys, sys' := Reached(p, run.past), Reached(p, run);
    LockOrderIsValid(p, run);
    if k in sys.pollers {
      PollersAreSound(p, run.past, k);
      var poller := sys.pollers[k];
      match run.act {
        case Serve(op) =>
          if op.DoSubmit? && LastResponse(p, sys'.history).Queued? {
            NotifiedPollerStays(p, sys'.history, poller);
          } else {
            SoundPollerStays(p, sys'.history, poller);
          }
        case Look(j) =>
          if j == k {
            LookingPollerStays(p, sys'.history, poller);
          } else {
            SoundPollerStays(p, sys'.history, poller);
          }
        case _ =>
      }
    }
  }

  /** How long a poller may be kept waiting: what it asked for, in seconds, none if it
      asked for nothing, and never more than thirty. */
  function Patience(poller: Poller): nat {
    if poller.wait.None? then 0 else if poller.wait.value > 30 then 30 * SECOND else poller.wait.value * SECOND
  }

  lemma {:induction false} DeadlinesAreSound(p: Primitives, run: Run, k: nat)
    requires Legal(p, run) && k in Reached(p, run).pollers
    ensures var poller := Reached(p, run).pollers[k];
      && poller.arrived <= Clock(run) && poller.deadline == poller.arrived + Patience(poller)
      && (poller.pc == Done(Delivered([])) ==> Clock(run) >= poller.deadline)
  {
    var before := Reached(p, run.past).pollers;
    if k in before {
      DeadlinesAreSound(p, run.past, k);
    } else {
      assert run.act.Arrive?;
    }
  }

  /** A poller is told that there is nothing only when it has waited as long as it
      asked to, up to thirty seconds. */
  lemma EmptyAnswerIsNotEarly(p: Primitives, run: Run, k: nat)
    requires Legal(p, run) && k in Reached(p, run).pollers
    requires Reached(p, run).pollers[k].pc == Done(Delivered([]))
    ensures var poller := Reached(p, run).pollers[k];
      Clock(run) - poller.arrived >= Patience(poller)
  {
    DeadlinesAreSound(p, run, k);
  }

  /** An empty answer is never given over the head of a request: by the time of
      the poller's last look, which comes after its last wait, every request
      accepted until then, in particular before it last woke, had been handed
      out. */
  lemma EmptyAnswerMissesNothing(p: Primitives, run: Run, k: nat)
    requires Legal(p, run) && k in Reached(p, run).pollers
    requires Reached(p, run).pollers[k].pc == Done(Delivered([]))
    ensures var poller := Reached(p, run).pollers[k];
      && IsPrefix(poller.woke, poller.look) && IsPrefix(poller.look, Reached(p, run).history)
      && Deliveries(p, poller.look, poller.id) == Enqueued(p, poller.look, poller.id)
  {
    PollersAreSound(p, run, k);
    LockOrderIsValid(p, run);
    var poller := Reached(p, run).pollers[k];
    PrefixIsValid(p, poller.look, Reached(p, run).history);
    Conservation(p, poller.look, poller.id);
  }

  /** A waiter that was not notified slept through nothing: whatever was accepted
      for its host was accepted before its wait began. */
  lemma {:induction false} UnnotifiedSleptThroughNothing(p: Primitives, run: Run, k: nat)
    requires Legal(p, run) && k in Reached(p, run).pollers
    requires Reached(p, run).pollers[k].pc == Waiting(false)
    ensures var poller := Reached(p, run).pollers[k];
      Acceptances(p, Reached(p, run).history, poller.id) == Acceptances(p, poller.waitStart, poller.id)
  {
    PollersAreSound(p, run, k);
  }

  /** A missed notification only delays: once notified, or else at its deadline,
      a waiter can wake and look, is not refused, and takes all that is queued. */
  lemma WaiterTakesTheQueue(p: Primitives, run: Run, k: nat, now: Time)
    requires Legal(p, run) && k in Reached(p, run).pollers
    requires Reached(p, run).pollers[k].pc.Waiting?
    requires now >= Clock(run)
    requires Reached(p, run).pollers[k].pc.notified || now >= Reached(p, run).pollers[k].deadline
    ensures var run' := Do(Do(run, now, Wake(k)), now, Look(k));
      var poller := Reached(p, run).pollers[k];
      var queued := RuntimeOf(After(p, Reached(p, run).history), poller.id).pending;
      && Legal(p, run')
      && RuntimeOf(After(p, Reached(p, run').history), poller.id).pending == []
      && (queued != [] ==> Reached(p, run').pollers[k].pc == Done(Delivered(queued)))
      && (queued == [] ==> Reached(p, run').pollers[k].pc == AboutToWait)
  {
    PollersAreSound(p, run, k);
    var awake := Do(run, now, Wake(k));
    assert Reached(p, awake).history == Reached(p, run).history;
    assert Reached(p, awake).pollers[k].pc == Looking;
    assert Enabled(p, Reached(p, awake), now, Look(k));
  }
}
