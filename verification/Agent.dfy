/** The host agent: judging a pair request, delivering its PIN until a new client
    shows up, backing off on wrong passwords, and reporting. */
module Agent {
  import opened ByteStrings
  import opened Proto
  import opened Rendezvous

  const HALF_SECOND: nat := SECOND / 2
  const PIN_WAIT: nat := 90 * SECOND
  const CLIENT_APPEAR_WAIT: nat := 60 * SECOND
  const PATIENCE: nat := PIN_WAIT + CLIENT_APPEAR_WAIT
  const REDELIVERY: nat := 5 * SECOND

  const WRONG_PASSWORD: Bytes := Ascii("wrong password")
  const NEVER_REACHED: Bytes :=
    Ascii("timed out waiting for the ") + Ascii("client's pairing request ") + Ascii("to reach Apollo")
  const NEVER_COMPLETED: Bytes :=
    Ascii("client never completed ") + Ascii("pairing with Apollo ") + Ascii("(wrong PIN or aborted)")

  // -------------------------------------------------------------------------
  // Judging a request

  datatype Verdict = WrongResponse | BadSeal | Accepts(pin: Bytes)

  function Judge(p: Primitives, h1: Bytes, pr: PairRequest): Verdict {
    if !CtEq(pr.response, ChallengeResponse(p, h1, pr.challenge)) then WrongResponse
    else
      match OpenPin(p, PairKey(p, h1, pr.challenge), pr.sealedPin)
      case Err(_) => BadSeal
      case Ok(pin) => Accepts(pin)
  }

  // -------------------------------------------------------------------------
  // The delivery loop

  /** A paired client as Apollo lists it; `other` stands for the fields the agent
      hands back untouched. */
  datatype ApolloClient = ApolloClient(name: Bytes, uuid: Bytes, perm: nat, other: nat)

  /** What one turn of the loop meets: the three clock readings it takes, Apollo's
      answer if a PIN is submitted, and its client list if asked. */
  datatype Tick = Tick(top: Time, due: Time, mark: Time,
                       pinAnswer: Result<bool, Bytes>, clients: Result<seq<ApolloClient>, Bytes>)

  datatype Surroundings = Surroundings(
    start: Time, listing: Result<seq<ApolloClient>, Bytes>, ticks: nat -> Tick, update: Result<(), Bytes>)

  /** The clock does not go back, and a turn that goes on sleeps half a second. */
  ghost predicate Paced(env: Surroundings) {
    && env.start <= env.ticks(0).top
    && (forall i: nat :: env.ticks(i).top <= env.ticks(i).due <= env.ticks(i).mark)
    && (forall i: nat :: env.ticks(i).mark + HALF_SECOND <= env.ticks(i + 1).top)
  }

  function FindNew(clients: seq<ApolloClient>, before: set<Bytes>): Option<ApolloClient> {
    if clients == [] then None
    else if clients[0].uuid !in before then Some(clients[0])
    else FindNew(clients[1..], before)
  }

  /** How the loop ended: its result, how often a PIN was submitted, and when it
      was delivered. */
  datatype LoopEnd = LoopEnd(result: Result<ApolloClient, Bytes>, submissions: nat, deliveries: seq<Time>)

  predicate IsDue(deliveries: seq<Time>, now: Time) {
    deliveries != [] ==> Since(now, deliveries[|deliveries| - 1]) >= REDELIVERY
  }

  function TimeLeft(env: Surroundings, i: nat): nat {
    var waited := Since(env.ticks(i).top, env.start);
    if waited > PATIENCE then 0 else PATIENCE - waited + 1
  }

  ghost function DeliverFrom(env: Surroundings, before: set<Bytes>, i: nat, submissions: nat, deliveries: seq<Time>)
    : LoopEnd
    requires Paced(env) && env.start <= env.ticks(i).top
    decreases TimeLeft(env, i)
  {
    var t := env.ticks(i);
    if Since(t.top, env.start) > PATIENCE then
      LoopEnd(Err(if deliveries == [] then NEVER_REACHED else NEVER_COMPLETED), submissions, deliveries)
    else
      var due := IsDue(deliveries, t.due);
      var submissions' := if due then submissions + 1 else submissions;
      if due && t.pinAnswer.Err? then LoopEnd(Err(t.pinAnswer.error), submissions', deliveries)
      else
        var deliveries' := if due && t.pinAnswer.value then deliveries + [t.mark] else deliveries;
        if deliveries' != [] && t.clients.Err? then LoopEnd(Err(t.clients.error), submissions', deliveries')
        else if deliveries' != [] && FindNew(t.clients.value, before).Some? then
          LoopEnd(Ok(FindNew(t.clients.value, before).value), submissions', deliveries')
        else
          assert env.ticks(i).mark + HALF_SECOND <= env.ticks(i + 1).top;
          DeliverFrom(env, before, i + 1, submissions', deliveries')
  }

  /** Deliveries so far: at least five seconds apart, and all before the half
      second that precedes the present turn. */
  ghost predicate Spaced(env: Surroundings, deliveries: seq<Time>) {
    && (forall k | 0 <= k < |deliveries| :: deliveries[k] >= env.start + k * REDELIVERY)
    && (forall k | 0 <= k < |deliveries| - 1 :: deliveries[k + 1] - deliveries[k] >= REDELIVERY)
  }

  lemma DeliverySpaced(env: Surroundings, i: nat, deliveries: seq<Time>)
    requires Paced(env) && env.start <= env.ticks(i).top && Spaced(env, deliveries)
    requires forall k | 0 <= k < |deliveries| :: deliveries[k] + HALF_SECOND <= env.ticks(i).top
    requires Since(env.ticks(i).top, env.start) <= PATIENCE && IsDue(deliveries, env.ticks(i).due)
    ensures Spaced(env, deliveries + [env.ticks(i).mark])
    ensures |deliveries| <= 30
  {
    var n := |deliveries|;
    assert env.ticks(i).top <= env.ticks(i).due <= env.ticks(i).mark;
    if n > 0 {
      var last := deliveries[n - 1];
      assert last >= env.start + (n - 1) * REDELIVERY;
      assert last + HALF_SECOND <= env.ticks(i).top;
    }
  }

  /** The client was found at turn j: in time, after every delivery, and the first
      of the clients then listed that was not listed before the loop. */
  ghost predicate FoundAt(env: Surroundings, before: set<Bytes>, deliveries: seq<Time>, c: ApolloClient, j: nat) {
    && Since(env.ticks(j).top, env.start) <= PATIENCE
    && deliveries != [] && (forall k | 0 <= k < |deliveries| :: deliveries[k] <= env.ticks(j).mark)
    && env.ticks(j).clients.Ok? && FindNew(env.ticks(j).clients.value, before) == Some(c)
    && exists k: nat :: FirstNew(env.ticks(j).clients.value, before, k) && env.ticks(j).clients.value[k] == c
  }

  /** The loop delivers at most 31 times, the deliveries at least five seconds
      apart, and success comes only after them, with a client that was not in the
      listing taken before the loop. */
  lemma {:induction false} DeliveryBounds(env: Surroundings, before: set<Bytes>, i: nat, submissions: nat,
                                          deliveries: seq<Time>)
    requires Paced(env) && env.start <= env.ticks(i).top
    requires Spaced(env, deliveries) && |deliveries| <= 31
    requires forall k | 0 <= k < |deliveries| :: deliveries[k] + HALF_SECOND <= env.ticks(i).top
    ensures var e := DeliverFrom(env, before, i, submissions, deliveries);
      && |e.deliveries| <= 31 && Spaced(env, e.deliveries)
      && (e.result.Ok? ==> exists j: nat :: FoundAt(env, before, e.deliveries, e.result.value, j))
    decreases TimeLeft(env, i)
  {
    var t := env.ticks(i);
    if Since(t.top, env.start) <= PATIENCE {
      var due := IsDue(deliveries, t.due);
      if due { DeliverySpaced(env, i, deliveries); }
      if !(due && t.pinAnswer.Err?) {
        var deliveries' := if due && t.pinAnswer.value then deliveries + [t.mark] else deliveries;
        if deliveries' != [] && t.clients.Err? {
        } else if deliveries' != [] && FindNew(t.clients.value, before).Some? {
          FoundIsNew(t.clients.value, before);
          assert FoundAt(env, before, deliveries', FindNew(t.clients.value, before).value, i);
        } else {
          assert t.mark + HALF_SECOND <= env.ticks(i + 1).top;
          DeliveryBounds(env, before, i + 1, if due then submissions + 1 else submissions, deliveries');
        }
      }
    }
  }

  /** Position k of the list is the first client that was not known before. */
  predicate FirstNew(clients: seq<ApolloClient>, before: set<Bytes>, k: nat) {
    k < |clients| && clients[k].uuid !in before && forall l | 0 <= l < k :: clients[l].uuid in before
  }

  lemma {:induction false} FoundIsNew(clients: seq<ApolloClient>, before: set<Bytes>)
    ensures var c := FindNew(clients, before);
      if c.Some? then exists k: nat :: FirstNew(clients, before, k) && clients[k] == c.value
      else forall k | 0 <= k < |clients| :: clients[k].uuid in before
  {
    if clients == [] {
    } else if clients[0].uuid !in before {
      assert FirstNew(clients, before, 0);
    } else {
      FoundIsNew(clients[1..], before);
      if FindNew(clients, before).Some? {
        var k: nat :| FirstNew(clients[1..], before, k) && clients[1..][k] == FindNew(clients, before).value;
        assert FirstNew(clients, before, k + 1);
      }
    }
  }

  function Uuids(clients: seq<ApolloClient>): set<Bytes> {
    set k | 0 <= k < |clients| :: clients[k].uuid
  }

  // -------------------------------------------------------------------------
  // Handling one request

  /** What handling a request did: its result, the PIN submitted and how often,
      when it was delivered, and the client record sent back to Apollo. */
  datatype Handled = Handled(result: Result<(), Bytes>, submissions: nat, pin: Bytes, deliveries: seq<Time>,
                             updated: Option<ApolloClient>)

  ghost function Handle(p: Primitives, h1: Bytes, permissions: nat, pr: PairRequest, name: Bytes, env: Surroundings)
    : Handled
    requires Paced(env)
  {
    match Judge(p, h1, pr)
    case WrongResponse => Handled(Err(WRONG_PASSWORD), 0, [], [], None)
    case BadSeal => Handled(Err(WRONG_PASSWORD), 0, [], [], None)
    case Accepts(pin) =>
      if env.listing.Err? then Handled(Err(env.listing.error), 0, pin, [], None)
      else
        var e := DeliverFrom(env, Uuids(env.listing.value), 0, 0, []);
        if e.result.Err? then Handled(Err(e.result.error), e.submissions, pin, e.deliveries, None)
        else
          var c := e.result.value.(perm := permissions);
          var c' := if c.name == [] then c.(name := name) else c;
          Handled(env.update, e.submissions, pin, e.deliveries, Some(c'))
  }

  function Delay(failures: nat): nat {
    var d := Pow2(if failures < 6 then failures else 6);
    if d < 60 then d else 60
  }

  function Pow2(n: nat): (r: nat)
    ensures r >= 1
  {
    if n == 0 then 1 else 2 * Pow2(n - 1)
  }

  /** The result reported for a request. */
  function Report(pr: PairRequest, r: Result<(), Bytes>): PairResult {
    match r
    case Ok(_) => PairResult(pr.requestId, Paired, None)
    case Err(e) =>
      if e == WRONG_PASSWORD then PairResult(pr.requestId, Rejected, Some(WRONG_PASSWORD))
      else PairResult(pr.requestId, Failed, Some(e))
  }

  /** One request of a batch with the circumstances it is handled in. */
  datatype Job = Job(pr: PairRequest, name: Bytes, env: Surroundings)

  /** The failure counter after a job. */
  function FailuresAfter(p: Primitives, h1: Bytes, failures: nat, pr: PairRequest, r: Result<(), Bytes>): nat {
    var base := if Judge(p, h1, pr).WrongResponse? then failures else 0;
    if r == Err(WRONG_PASSWORD) then base + 1 else base
  }

  ghost predicate AllPaced(jobs: seq<Job>) {
    forall i | 0 <= i < |jobs| :: Paced(jobs[i].env)
  }

  /** What a batch does: results in order, and the sleeps between them. */
  datatype BatchRun = BatchRun(results: seq<PairResult>, sleeps: seq<nat>, failures: nat)

  /** One more job after a run. */
  ghost function OneMore(p: Primitives, h1: Bytes, permissions: nat, run: BatchRun, job: Job): BatchRun
    requires Paced(job.env)
  {
    var r := Handle(p, h1, permissions, job.pr, job.name, job.env).result;
    var failures := FailuresAfter(p, h1, run.failures, job.pr, r);
    BatchRun(run.results + [Report(job.pr, r)],
             if r == Err(WRONG_PASSWORD) then run.sleeps + [Delay(failures)] else run.sleeps,
             failures)
  }

  ghost function RunBatch(p: Primitives, h1: Bytes, permissions: nat, failures: nat, jobs: seq<Job>): (run: BatchRun)
    requires AllPaced(jobs)
    ensures |run.results| == |jobs|
  {
    if jobs == [] then BatchRun([], [], failures)
    else OneMore(p, h1, permissions, RunBatch(p, h1, permissions, failures, jobs[..|jobs| - 1]), jobs[|jobs| - 1])
  }

  lemma RunBatchGrows(p: Primitives, h1: Bytes, permissions: nat, failures: nat, jobs: seq<Job>, i: nat)
    requires AllPaced(jobs) && i < |jobs|
    ensures AllPaced(jobs[..i]) && AllPaced(jobs[..i + 1])
    ensures RunBatch(p, h1, permissions, failures, jobs[..i + 1]) ==
            OneMore(p, h1, permissions, RunBatch(p, h1, permissions, failures, jobs[..i]), jobs[i])
  {
    assert jobs[..i + 1][..i] == jobs[..i];
  }

  ghost predicate AllPollsPaced(polls: seq<seq<Job>>) {
    forall i | 0 <= i < |polls| :: AllPaced(polls[i])
  }

  /** The requests of several polls in a row. */
  ghost function Flat(polls: seq<seq<Job>>): (jobs: seq<Job>)
    requires AllPollsPaced(polls)
    ensures AllPaced(jobs)
  {
    if polls == [] then [] else Flat(polls[..|polls| - 1]) + polls[|polls| - 1]
  }

  lemma FlatGrows(polls: seq<seq<Job>>, i: nat)
    requires AllPollsPaced(polls) && i < |polls|
    ensures Flat(polls[..i + 1]) == Flat(polls[..i]) + polls[i]
  {
    assert polls[..i + 1][..i] == polls[..i];
  }

  // -------------------------------------------------------------------------
  // The agent

  class HostAgent {
    const p: Primitives
    const passwordH1: Bytes
    const clientPermissions: nat
    /** Consecutive wrong-password attempts. */
    var failures: nat

    constructor (p: Primitives, passwordH1: Bytes, clientPermissions: nat)
      ensures this.p == p && this.passwordH1 == passwordH1 && this.clientPermissions == clientPermissions
      ensures failures == 0
    {
      this.p, this.passwordH1, this.clientPermissions, failures := p, passwordH1, clientPermissions, 0;
    }

    method Deliver(env: Surroundings, before: set<Bytes>)
      returns (result: Result<ApolloClient, Bytes>, submissions: nat, ghost deliveries: seq<Time>)
      requires Paced(env)
      ensures result == DeliverFrom(env, before, 0, 0, []).result
      ensures submissions == DeliverFrom(env, before, 0, 0, []).submissions
      ensures deliveries == DeliverFrom(env, before, 0, 0, []).deliveries
    {
      var delivered := 0;
      var lastDelivery: Option<Time> := None;
      var i := 0;
      submissions, deliveries := 0, [];
      while true
        invariant env.start <= env.ticks(i).top
        invariant delivered == |deliveries|
        invariant lastDelivery == if deliveries == [] then None else Some(deliveries[|deliveries| - 1])
        invariant DeliverFrom(env, before, i, submissions, deliveries) == DeliverFrom(env, before, 0, 0, [])
        decreases TimeLeft(env, i)
      {
        var t := env.ticks(i);
        if Since(t.top, env.start) > PATIENCE {
          return Err(if delivered == 0 then NEVER_REACHED else NEVER_COMPLETED), submissions, deliveries;
        }
        var due := lastDelivery.None? || Since(t.due, lastDelivery.value) >= REDELIVERY;
        assert due == IsDue(deliveries, t.due);
        if due {
          submissions := submissions + 1;
          if t.pinAnswer.Err? { return Err(t.pinAnswer.error), submissions, deliveries; }
          if t.pinAnswer.value {
            delivered := delivered + 1;
            lastDelivery := Some(t.mark);
            deliveries := deliveries + [t.mark];
          }
        }
        if delivered > 0 {
          if t.clients.Err? { return Err(t.clients.error), submissions, deliveries; }
          var found := FindNew(t.clients.value, before);
          if found.Some? { return Ok(found.value), submissions, deliveries; }
        }
        assert t.mark + HALF_SECOND <= env.ticks(i + 1).top;
        i := i + 1;
      }
    }

    method HandlePair(pr: PairRequest, name: Bytes, env: Surroundings)
      returns (result: Result<(), Bytes>, submissions: nat, pin: Bytes, ghost deliveries: seq<Time>,
               updated: Option<ApolloClient>)
      requires Paced(env)
      modifies this
      ensures Handled(result, submissions, pin, deliveries, updated) ==
              Handle(p, passwordH1, clientPermissions, pr, name, env)
      ensures failures == if Judge(p, passwordH1, pr).WrongResponse? then old(failures) else 0
    {
      submissions, pin, deliveries, updated := 0, [], [], None;
      if !CtEq(pr.response, ChallengeResponse(p, passwordH1, pr.challenge)) {
        result := Err(WRONG_PASSWORD);
        return;
      }
      failures := 0;
      var unsealed := OpenPin(p, PairKey(p, passwordH1, pr.challenge), pr.sealedPin);
      if unsealed.Err? {
        result := Err(WRONG_PASSWORD);
        return;
      }
      pin := unsealed.value;
      if env.listing.Err? {
        result := Err(env.listing.error);
        return;
      }
      var found;
      found, submissions, deliveries := Deliver(env, Uuids(env.listing.value));
      if found.Err? {
        result := Err(found.error);
        return;
      }
      var client := found.value.(perm := clientPermissions);
      if client.name == [] { client := client.(name := name); }
      updated := Some(client);
      result := env.update;
    }

    /** One request of a batch: its result, and the sleep it costs if any. */
    method ProcessOne(job: Job, ghost run: BatchRun) returns (result: PairResult, slept: seq<nat>)
      requires Paced(job.env) && failures == run.failures
      modifies this
      ensures BatchRun(run.results + [result], run.sleeps + slept, failures) ==
              OneMore(p, passwordH1, clientPermissions, run, job)
    {
      var r, n, pin, times, client := HandlePair(job.pr, job.name, job.env);
      slept := [];
      assert run.sleeps + [] == run.sleeps;
      if r.Ok? {
        result := PairResult(job.pr.requestId, Paired, None);
      } else if r.error == WRONG_PASSWORD {
        failures := failures + 1;
        slept := [Delay(failures)];
        result := PairResult(job.pr.requestId, Rejected, Some(WRONG_PASSWORD));
      } else {
        result := PairResult(job.pr.requestId, Failed, Some(r.error));
      }
    }

    /** The requests of one poll, one after the other. */
    method ProcessBatch(jobs: seq<Job>) returns (results: seq<PairResult>, sleeps: seq<nat>)
      requires AllPaced(jobs)
      modifies this
      ensures BatchRun(results, sleeps, failures) == RunBatch(p, passwordH1, clientPermissions, old(failures), jobs)
    {
      results, sleeps := [], [];
      for i := 0 to |jobs|
        invariant AllPaced(jobs[..i])
        invariant BatchRun(results, sleeps, failures) ==
                  RunBatch(p, passwordH1, clientPermissions, old(failures), jobs[..i])
      {
        RunBatchGrows(p, passwordH1, clientPermissions, old(failures), jobs, i);
        var result, slept := ProcessOne(jobs[i], BatchRun(results, sleeps, failures));
        results := results + [result];
        sleeps := sleeps + slept;
      }
      assert jobs[..|jobs|] == jobs;
    }

    /** One poll after the other, the counter living on between them. */
    method ProcessPolls(polls: seq<seq<Job>>) returns (results: seq<PairResult>, sleeps: seq<nat>)
      requires AllPollsPaced(polls)
      modifies this
      ensures BatchRun(results, sleeps, failures) ==
              RunBatch(p, passwordH1, clientPermissions, old(failures), Flat(polls))
    {
      results, sleeps := [], [];
      for i := 0 to |polls|
        invariant BatchRun(results, sleeps, failures) ==
                  RunBatch(p, passwordH1, clientPermissions, old(failures), Flat(polls[..i]))
      {
        FlatGrows(polls, i);
        RunBatchAppends(p, passwordH1, clientPermissions, old(failures), Flat(polls[..i]), polls[i]);
        var more, slept := ProcessBatch(polls[i]);
        results := results + more;
        sleeps := sleeps + slept;
      }
      assert polls[..|polls|] == polls;
    }
  }

  // -------------------------------------------------------------------------
  // What it adds up to

  // The delivery loop, told turn by turn from outside.

  /** The times of the deliveries of the turns before turn i. */
  function DeliveredBefore(env: Surroundings, i: nat): seq<Time>
    decreases i, 0
  {
    if i == 0 then []
    else
      DeliveredBefore(env, i - 1)
      + if DueAt(env, i - 1) && env.ticks(i - 1).pinAnswer == Ok(true) then [env.ticks(i - 1).mark] else []
  }

  /** A PIN is due at turn i: none was delivered before, or the last over five seconds
      ago. */
  predicate DueAt(env: Surroundings, i: nat)
    decreases i, 1
  {
    var before := DeliveredBefore(env, i);
    before == [] || env.ticks(i).due - before[|before| - 1] >= 5 * SECOND
  }

  /** How often a PIN was submitted in the turns before turn i. */
  function SubmittedBefore(env: Surroundings, i: nat): nat {
    if i == 0 then 0 else SubmittedBefore(env, i - 1) + if DueAt(env, i - 1) then 1 else 0
  }

  predicate IsListed(listing: seq<ApolloClient>, uuid: Bytes) {
    exists l :: 0 <= l < |listing| && listing[l].uuid == uuid
  }

  /** Position k is that of the first client not in the earlier listing. */
  predicate FirstUnlisted(listing: seq<ApolloClient>, clients: seq<ApolloClient>, k: nat) {
    && k < |clients| && !IsListed(listing, clients[k].uuid)
    && forall l | 0 <= l < k :: IsListed(listing, clients[l].uuid)
  }

  /** Turn i leaves the loop running: it is in time, Apollo takes or refuses the PIN
      if one is due, and lists nobody new if one has been delivered. */
  predicate GoesOn(env: Surroundings, listing: seq<ApolloClient>, i: nat) {
    var t := env.ticks(i);
    && t.top - env.start <= 150 * SECOND
    && (DueAt(env, i) ==> t.pinAnswer.Ok?)
    && (DeliveredBefore(env, i + 1) != [] ==>
          t.clients.Ok? && forall l | 0 <= l < |t.clients.value| :: IsListed(listing, t.clients.value[l].uuid))
  }

  /** Turn n is the last: too late, or the PIN or the listing cannot be had, or there
      is somebody new. */
  ghost predicate EndsNow(env: Surroundings, listing: seq<ApolloClient>, n: nat, e: LoopEnd) {
    var t, before, after := env.ticks(n), DeliveredBefore(env, n), DeliveredBefore(env, n + 1);
    if t.top - env.start > 150 * SECOND then
      e == LoopEnd(Err(if before == [] then NEVER_REACHED else NEVER_COMPLETED), SubmittedBefore(env, n), before)
    else if DueAt(env, n) && t.pinAnswer.Err? then
      e == LoopEnd(Err(t.pinAnswer.error), SubmittedBefore(env, n + 1), before)
    else
      && after != [] && e.submissions == SubmittedBefore(env, n + 1) && e.deliveries == after
      && if t.clients.Err? then e.result == Err(t.clients.error)
         else
           e.result.Ok? && exists k: nat :: FirstUnlisted(listing, t.clients.value, k)
                                            && t.clients.value[k] == e.result.value
  }

  ghost predicate EndsAt(env: Surroundings, listing: seq<ApolloClient>, n: nat, e: LoopEnd) {
    (forall i | 0 <= i < n :: GoesOn(env, listing, i)) && EndsNow(env, listing, n, e)
  }

  lemma ListedAreUuids(listing: seq<ApolloClient>, uuid: Bytes)
    ensures uuid in Uuids(listing) <==> IsListed(listing, uuid)
  {
  }

  lemma NewIsFirstUnlisted(listing: seq<ApolloClient>, clients: seq<ApolloClient>)
    ensures var c := FindNew(clients, Uuids(listing));
      if c.Some? then exists k: nat :: FirstUnlisted(listing, clients, k) && clients[k] == c.value
      else forall k | 0 <= k < |clients| :: IsListed(listing, clients[k].uuid)
  {
    var before := Uuids(listing);
    forall k | 0 <= k < |clients| ensures clients[k].uuid in before <==> IsListed(listing, clients[k].uuid) {
      ListedAreUuids(listing, clients[k].uuid);
    }
    FoundIsNew(clients, before);
    if FindNew(clients, before).Some? {
      var k: nat :| FirstNew(clients, before, k) && clients[k] == FindNew(clients, before).value;
      assert FirstUnlisted(listing, clients, k);
    }
  }

  /** The loop at turn i. */
  ghost function LoopAt(env: Surroundings, listing: seq<ApolloClient>, i: nat): LoopEnd
    requires Paced(env) && env.start <= env.ticks(i).top
  {
    DeliverFrom(env, Uuids(listing), i, SubmittedBefore(env, i), DeliveredBefore(env, i))
  }

  lemma OneTurn(env: Surroundings, listing: seq<ApolloClient>, i: nat)
    requires Paced(env) && env.start <= env.ticks(i).top
    ensures env.start <= env.ticks(i + 1).top && TimeLeft(env, i + 1) <= TimeLeft(env, i)
    ensures if GoesOn(env, listing, i)
            then LoopAt(env, listing, i) == LoopAt(env, listing, i + 1) && TimeLeft(env, i + 1) < TimeLeft(env, i)
            else EndsNow(env, listing, i, LoopAt(env, listing, i))
  {
    var t := env.ticks(i);
    assert t.mark + HALF_SECOND <= env.ticks(i + 1).top;
    assert IsDue(DeliveredBefore(env, i), t.due) == DueAt(env, i);
    assert DeliveredBefore(env, i + 1) ==
           DeliveredBefore(env, i) + if DueAt(env, i) && t.pinAnswer == Ok(true) then [t.mark] else [];
    assert DeliveredBefore(env, i) + [] == DeliveredBefore(env, i);
    assert SubmittedBefore(env, i + 1) == SubmittedBefore(env, i) + if DueAt(env, i) then 1 else 0;
    if t.clients.Ok? { NewIsFirstUnlisted(listing, t.clients.value); }
  }

  /** The loop takes its turns as told, from any of them on, and ends. */
  lemma {:induction false} LoopFrom(env: Surroundings, listing: seq<ApolloClient>, i: nat) returns (n: nat)
    requires Paced(env) && env.start <= env.ticks(i).top
    requires forall l | 0 <= l < i :: GoesOn(env, listing, l)
    ensures EndsAt(env, listing, n, LoopAt(env, listing, i))
    decreases TimeLeft(env, i)
  {
    OneTurn(env, listing, i);
    if GoesOn(env, listing, i) {
      n := LoopFrom(env, listing, i + 1);
    } else {
      n := i;
    }
  }

  /** Handling a request, told from outside: a wrong response or seal ends it with the
      fixed message and nothing submitted; else the PIN is what the seal holds, and
      after the listing the loop runs to its end; the client it finds is sent back
      with the permissions, and the name if it had none. */
  lemma HandledExactly(p: Primitives, h1: Bytes, permissions: nat, pr: PairRequest, name: Bytes, env: Surroundings)
    returns (n: nat, e: LoopEnd)
    requires Paced(env)
    ensures var d := Handle(p, h1, permissions, pr, name, env);
      var seal := OpenPin(p, p.sha(Ascii("ra-pair-v1") + h1 + pr.challenge), pr.sealedPin);
      if pr.response != Hex(p.sha(h1 + pr.challenge)) || seal.Err? then
        d == Handled(Err(WRONG_PASSWORD), 0, [], [], None)
      else if env.listing.Err? then
        d == Handled(Err(env.listing.error), 0, seal.value, [], None)
      else
        && EndsAt(env, env.listing.value, n, e)
        && d.submissions == e.submissions && d.pin == seal.value && d.deliveries == e.deliveries
        && if e.result.Err? then d.result == Err(e.result.error) && d.updated == None
           else
             var c := e.result.value;
             && d.result == env.update
             && d.updated == Some(c.(perm := permissions, name := if c.name == [] then name else c.name))
  {
    CtEqIsEquality(pr.response, Hex(p.sha(h1 + pr.challenge)));
    n, e := 0, LoopEnd(Err([]), 0, []);
    if env.listing.Ok? {
      n := LoopFrom(env, env.listing.value, 0);
      e := DeliverFrom(env, Uuids(env.listing.value), 0, 0, []);
    }
  }

  /** Handling one request: a PIN is submitted only if the response matched and
      the seal opened, and it is that PIN; at most 31 deliveries, five seconds
      apart; success means that a client none of those listed before, and the first
      such in a listing taken in time and after all deliveries, has been updated in
      its permissions, and in its name only if that was empty. */
  lemma HandleGuarantees(p: Primitives, h1: Bytes, permissions: nat, pr: PairRequest, name: Bytes, env: Surroundings)
    requires Paced(env)
    ensures var d := Handle(p, h1, permissions, pr, name, env);
      && (d.submissions > 0 ==> Judge(p, h1, pr) == Accepts(d.pin))
      && |d.deliveries| <= 31 && Spaced(env, d.deliveries)
      && (d.updated.Some? ==>
            && Judge(p, h1, pr) == Accepts(d.pin) && env.listing.Ok? && d.deliveries != []
            && (forall l | 0 <= l < |env.listing.value| :: env.listing.value[l].uuid != d.updated.value.uuid)
            && exists j: nat, k: nat :: UpdatedFrom(env, permissions, name, d, j, k))
      && (d.result.Ok? ==> d.updated.Some?)
  {
    if Judge(p, h1, pr).Accepts? && env.listing.Ok? {
      var before := Uuids(env.listing.value);
      DeliveryBounds(env, before, 0, 0, []);
      var e := DeliverFrom(env, before, 0, 0, []);
      if e.result.Ok? {
        var j: nat :| FoundAt(env, before, e.deliveries, e.result.value, j);
        NewIsFirstUnlisted(env.listing.value, env.ticks(j).clients.value);
        var k: nat :| FirstUnlisted(env.listing.value, env.ticks(j).clients.value, k)
                      && env.ticks(j).clients.value[k] == e.result.value;
        assert UpdatedFrom(env, permissions, name, Handle(p, h1, permissions, pr, name, env), j, k);
        forall l | 0 <= l < |env.listing.value| ensures env.listing.value[l].uuid != e.result.value.uuid {
          assert IsListed(env.listing.value, env.listing.value[l].uuid);
        }
      }
    }
  }

  /** The record sent back is the k-th client of turn j's listing, in time and after
      every delivery, the first that was not listed before the loop. */
  predicate UpdatedFrom(env: Surroundings, permissions: nat, name: Bytes, d: Handled, j: nat, k: nat)
    requires env.listing.Ok? && d.updated.Some?
  {
    var t := env.ticks(j);
    && t.top - env.start <= 150 * SECOND && (forall l | 0 <= l < |d.deliveries| :: d.deliveries[l] <= t.mark)
    && t.clients.Ok? && FirstUnlisted(env.listing.value, t.clients.value, k)
    && var c := t.clients.value[k];
       d.updated.value == c.(perm := permissions, name := if c.name == [] then name else c.name)
  }

  /** What is reported about one request, given how it was handled: `Rejected`
      whenever no PIN came out of it, `Paired` only when that PIN was delivered
      and a client updated. */
  ghost predicate Reported(p: Primitives, h1: Bytes, pr: PairRequest, done: Handled, result: PairResult) {
    && result.requestId == pr.requestId
    && result.status != Accepted
    && (!Judge(p, h1, pr).Accepts? ==> result.status == Rejected)
    && (result.status == Rejected <==> result.message == Some(WRONG_PASSWORD))
    && (result.status == Paired <==> result.message == None)
    && (result.status == Rejected <==> done.result == Err(WRONG_PASSWORD))
    && (result.status == Paired <==> done.result.Ok?)
    && (result.status == Failed ==> done.result == Err(result.message.value))
    && (result.status == Paired ==>
          Judge(p, h1, pr) == Accepts(done.pin) && done.deliveries != [] && done.updated.Some?)
  }

  ghost function Done(p: Primitives, h1: Bytes, permissions: nat, job: Job): Handled
    requires Paced(job.env)
  {
    Handle(p, h1, permissions, job.pr, job.name, job.env)
  }

  lemma HandledIsReported(p: Primitives, h1: Bytes, permissions: nat, job: Job)
    requires Paced(job.env)
    ensures var done := Done(p, h1, permissions, job);
      Reported(p, h1, job.pr, done, Report(job.pr, done.result))
  {
    HandleGuarantees(p, h1, permissions, job.pr, job.name, job.env);
  }

  /** One result per request, in order. */
  ghost predicate AllReported(p: Primitives, h1: Bytes, permissions: nat, jobs: seq<Job>, results: seq<PairResult>)
    requires AllPaced(jobs)
  {
    && |results| == |jobs|
    && forall i | 0 <= i < |jobs| :: Reported(p, h1, jobs[i].pr, Done(p, h1, permissions, jobs[i]), results[i])
  }

  lemma ReportedPush(p: Primitives, h1: Bytes, permissions: nat, jobs: seq<Job>, results: seq<PairResult>,
                     result: PairResult)
    requires AllPaced(jobs) && jobs != [] && AllReported(p, h1, permissions, jobs[..|jobs| - 1], results)
    requires var job := jobs[|jobs| - 1]; Reported(p, h1, job.pr, Done(p, h1, permissions, job), result)
    ensures AllReported(p, h1, permissions, jobs, results + [result])
  {
  }

  /** One result per request, in order, under the same id, and never `Accepted`;
      `Rejected` whenever the response did not match or the seal did not open, and
      with the fixed message exactly then; `Paired` only for a completed pairing. */
  lemma {:induction false} BatchReports(p: Primitives, h1: Bytes, permissions: nat, failures: nat, jobs: seq<Job>)
    requires AllPaced(jobs)
    ensures AllReported(p, h1, permissions, jobs, RunBatch(p, h1, permissions, failures, jobs).results)
  {
    if jobs == [] {
    } else {
      var front, job := jobs[..|jobs| - 1], jobs[|jobs| - 1];
      BatchReports(p, h1, permissions, failures, front);
      HandledIsReported(p, h1, permissions, job);
      ReportedPush(p, h1, permissions, jobs, RunBatch(p, h1, permissions, failures, front).results,
                   Report(job.pr, Done(p, h1, permissions, job).result));
    }
  }

  function Sum(xs: seq<nat>): nat {
    if xs == [] then 0 else Sum(xs[..|xs| - 1]) + xs[|xs| - 1]
  }

  lemma SumPush(xs: seq<nat>, x: nat)
    ensures Sum(xs + [x]) == Sum(xs) + x
  {
    assert (xs + [x])[..|xs|] == xs;
  }

  /** The closed form of n delays in a row from a zero counter. */
  function Backoff(n: nat): nat {
    if n <= 5 then Pow2(n + 1) - 2 else 62 + 60 * (n - 5)
  }

  lemma BackoffStep(n: nat)
    ensures Backoff(n + 1) == Backoff(n) + Delay(n + 1)
  {
    assert Pow2(1) == 2 && Pow2(2) == 4 && Pow2(3) == 8 && Pow2(4) == 16 && Pow2(5) == 32 && Pow2(6) == 64;
  }

  predicate AllMismatch(p: Primitives, h1: Bytes, jobs: seq<Job>) {
    forall i | 0 <= i < |jobs| :: Judge(p, h1, jobs[i].pr).WrongResponse?
  }

  /** The run counted n failures on top of f and slept what they cost. */
  predicate BackedOff(f: nat, n: nat, run: BatchRun) {
    run.failures == f + n && Sum(run.sleeps) == Backoff(f + n) - Backoff(f)
  }

  lemma MismatchCosts(p: Primitives, h1: Bytes, permissions: nat, f: nat, n: nat, run: BatchRun, job: Job)
    requires Paced(job.env) && Judge(p, h1, job.pr).WrongResponse? && BackedOff(f, n, run)
    ensures BackedOff(f, n + 1, OneMore(p, h1, permissions, run, job))
  {
    assert OneMore(p, h1, permissions, run, job).sleeps == run.sleeps + [Delay(f + n + 1)];
    SumPush(run.sleeps, Delay(f + n + 1));
    BackoffStep(f + n);
  }

  /** Mismatches in a row from any counter add up: those that bring it from f to
      f + n sleep the difference of the closed forms. From a zero counter that is
      2^(n+1) - 2 seconds up to n = 5, and 60 more for each one after that. */
  lemma {:induction false} MismatchesBackOff(p: Primitives, h1: Bytes, permissions: nat, f: nat, jobs: seq<Job>)
    requires AllPaced(jobs) && AllMismatch(p, h1, jobs)
    ensures BackedOff(f, |jobs|, RunBatch(p, h1, permissions, f, jobs))
  {
    if jobs == [] {
    } else {
      var front, job := jobs[..|jobs| - 1], jobs[|jobs| - 1];
      MismatchesBackOff(p, h1, permissions, f, front);
      MismatchCosts(p, h1, permissions, f, |front|, RunBatch(p, h1, permissions, f, front), job);
    }
  }

  /** One run after another. */
  function Followed(first: BatchRun, next: BatchRun): BatchRun {
    BatchRun(first.results + next.results, first.sleeps + next.sleeps, next.failures)
  }

  /** Running two lists of requests is running the first, then the second from the
      counter it left: it does not matter how requests fall into polls. */
  lemma {:induction false} RunBatchAppends(p: Primitives, h1: Bytes, permissions: nat, f: nat, a: seq<Job>, b: seq<Job>)
    requires AllPaced(a) && AllPaced(b)
    ensures AllPaced(a + b)
    ensures var first := RunBatch(p, h1, permissions, f, a);
      RunBatch(p, h1, permissions, f, a + b) ==
      Followed(first, RunBatch(p, h1, permissions, first.failures, b))
  {
    var first := RunBatch(p, h1, permissions, f, a);
    if b == [] {
      assert a + b == a;
      assert first.results + [] == first.results && first.sleeps + [] == first.sleeps;
    } else {
      var front, job := b[..|b| - 1], b[|b| - 1];
      RunBatchAppends(p, h1, permissions, f, a, front);
      assert (a + b)[..|a + b| - 1] == a + front && (a + b)[|a + b| - 1] == job;
      OneMoreFollows(p, h1, permissions, first, RunBatch(p, h1, permissions, first.failures, front), job);
    }
  }

  lemma OneMoreFollows(p: Primitives, h1: Bytes, permissions: nat, first: BatchRun, next: BatchRun, job: Job)
    requires Paced(job.env)
    ensures OneMore(p, h1, permissions, Followed(first, next), job) ==
            Followed(first, OneMore(p, h1, permissions, next, job))
  {
    var result := Report(job.pr, Done(p, h1, permissions, job).result);
    assert (first.results + next.results) + [result] == first.results + (next.results + [result]);
    var delay := Delay(FailuresAfter(p, h1, next.failures, job.pr, Done(p, h1, permissions, job).result));
    assert (first.sleeps + next.sleeps) + [delay] == first.sleeps + (next.sleeps + [delay]);
  }

  /** A matching response resets the counter, whatever came before: after it the
      count is what that request alone left. */
  lemma {:induction false} MatchResets(p: Primitives, h1: Bytes, permissions: nat, f: nat, jobs: seq<Job>)
    requires AllPaced(jobs) && jobs != []
    requires !Judge(p, h1, jobs[|jobs| - 1].pr).WrongResponse?
    ensures var run := RunBatch(p, h1, permissions, f, jobs);
      run.failures == if run.results[|jobs| - 1].status == Rejected then 1 else 0
  {
    HandledIsReported(p, h1, permissions, jobs[|jobs| - 1]);
  }

  /** After any requests the last of which matched and was not rejected, from any
      counter and however the requests fall into polls, the next n mismatches
      sleep exactly the closed form for n; after one that was rejected for its
      seal, they go on from there. */
  lemma BackoffAfterMatch(p: Primitives, h1: Bytes, permissions: nat, f: nat, earlier: seq<Job>, jobs: seq<Job>)
    requires AllPaced(earlier) && AllPaced(jobs) && earlier != [] && AllMismatch(p, h1, jobs)
    requires !Judge(p, h1, earlier[|earlier| - 1].pr).WrongResponse?
    ensures AllPaced(earlier + jobs)
    ensures var before, after := RunBatch(p, h1, permissions, f, earlier),
                                 RunBatch(p, h1, permissions, f, earlier + jobs);
      var left := if before.results[|earlier| - 1].status == Rejected then 1 else 0;
      && before.sleeps <= after.sleeps
      && after.failures == left + |jobs|
      && Sum(after.sleeps[|before.sleeps|..]) == Backoff(left + |jobs|) - Backoff(left)
  {
    var before := RunBatch(p, h1, permissions, f, earlier);
    MatchResets(p, h1, permissions, f, earlier);
    RunBatchAppends(p, h1, permissions, f, earlier, jobs);
    MismatchesBackOff(p, h1, permissions, before.failures, jobs);
    var slept := RunBatch(p, h1, permissions, before.failures, jobs).sleeps;
    assert (before.sleeps + slept)[|before.sleeps|..] == slept;
  }
}
