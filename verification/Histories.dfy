/** Whole runs of the rendezvous server: a history is the sequence of locked
    sections in lock order, each with its clock reading and its request. */
module Histories {
  import opened ByteStrings
  import opened Proto
  import opened Rendezvous

  datatype Op =
    | DoGc
    | DoRegister(register: RegisterRequest, pick: Bytes)
    | DoHeartbeat(id: Bytes, token: Option<Bytes>, endpoints: Option<seq<Endpoint>>)
    | DoInform(id: Bytes)
    | DoPoll(id: Bytes, token: Option<Bytes>)
    | DoPost(id: Bytes, token: Option<Bytes>, res: PairResult)
    | DoChallenge(id: Bytes, rid: Bytes, chal: Bytes)
    | DoSubmit(id: Bytes, submission: SubmitPairRequest)
    | DoPollResult(rid: Bytes)

  function Apply(p: Primitives, s: State, now: Time, op: Op): (State, Response) {
    match op
    case DoGc => (Collect(s, now), Collected)
    case DoRegister(req, pick) => Register(p, s, now, req, pick)
    case DoHeartbeat(id, token, endpoints) => Heartbeat(p, s, now, id, token, endpoints)
    case DoInform(id) => (s, Inform(s, now, id))
    case DoPoll(id, token) => PollRequests(p, s, now, id, token)
    case DoPost(id, token, res) => PostResult(p, s, id, token, res)
    case DoChallenge(id, rid, chal) => IssueChallenge(s, now, id, rid, chal)
    case DoSubmit(id, req) => SubmitPair(s, now, id, req)
    case DoPollResult(rid) => (s, PollResult(s, rid))
  }

  datatype History = Start | Then(past: History, now: Time, op: Op)

  function After(p: Primitives, h: History): State {
    match h
    case Start => EMPTY
    case Then(past, now, op) => Apply(p, After(p, past), now, op).0
  }

  /** What the last locked section of a history answered. */
  function LastResponse(p: Primitives, h: History): Response
    requires h.Then?
  {
    Apply(p, After(p, h.past), h.now, h.op).1
  }

  function Now(h: History): Time {
    if h.Start? then 0 else h.now
  }

  /** A drawn request id was never issued before; a drawn host id is well formed
      and free. */
  predicate Fresh(p: Primitives, h: History, op: Op) {
    && (op.DoChallenge? ==> op.rid !in Minted(p, h))
    && (op.DoRegister? ==> IsValidId(op.pick) && op.pick !in After(p, h).hosts)
  }

  /** The clock never goes back, and what is drawn at random is fresh. */
  predicate Valid(p: Primitives, h: History) {
    h.Then? ==> Valid(p, h.past) && Now(h.past) <= h.now && Fresh(p, h.past, h.op)
  }

  // -------------------------------------------------------------------------
  // What an observer of the requests and the answers sees

  /** Every challenge ever issued, by request id. */
  function Minted(p: Primitives, h: History): map<Bytes, Challenge> {
    match h
    case Start => map[]
    case Then(past, now, op) =>
      var m := Minted(p, past);
      if op.DoChallenge? && LastResponse(p, h).Issued? then m[op.rid := Challenge(op.id, op.chal, now)] else m
  }

  /** Something that happened, and when. */
  datatype Logged<+T> = Logged(what: T, at: Time)

  type Issue = Logged<Bytes>

  type Acceptance = Logged<SubmitPairRequest>

  /** The challenges issued for one host, oldest first. */
  function Issues(p: Primitives, h: History, id: Bytes): seq<Issue> {
    match h
    case Start => []
    case Then(past, now, op) =>
      if op.DoChallenge? && op.id == id && LastResponse(p, h).Issued?
      then Issues(p, past, id) + [Logged(op.rid, now)]
      else Issues(p, past, id)
  }

  /** The submissions accepted for one host, oldest first. */
  function Acceptances(p: Primitives, h: History, id: Bytes): seq<Acceptance> {
    match h
    case Start => []
    case Then(past, now, op) =>
      if op.DoSubmit? && op.id == id && LastResponse(p, h).Queued?
      then Acceptances(p, past, id) + [Logged(op.submission, now)]
      else Acceptances(p, past, id)
  }

  /** The requests handed to the pollers of one host, in lock order. */
  function Deliveries(p: Primitives, h: History, id: Bytes): seq<PairRequest> {
    match h
    case Start => []
    case Then(past, now, op) =>
      if op.DoPoll? && op.id == id && LastResponse(p, h).Delivered?
      then Deliveries(p, past, id) + LastResponse(p, h).batch
      else Deliveries(p, past, id)
  }

  /** The last result accepted for a request id. */
  function LastPosted(p: Primitives, h: History, rid: Bytes): Option<PairResult> {
    match h
    case Start => None
    case Then(past, now, op) =>
      if op.DoPost? && op.res.requestId == rid && LastResponse(p, h).Posted? then Some(op.res)
      else LastPosted(p, past, rid)
  }

  /** When a host was last heard from: it registered, or it sent a heartbeat or
      looked at its queue and was let through. */
  function SeenAt(p: Primitives, h: History, id: Bytes): Option<Time> {
    match h
    case Start => None
    case Then(past, now, op) =>
      var answer := LastResponse(p, h);
      if (op.DoRegister? && answer == Registered(id)) || (op.DoHeartbeat? && op.id == id && answer.Alive?)
         || (op.DoPoll? && op.id == id && answer.Delivered?)
      then Some(now)
      else SeenAt(p, past, id)
  }

  /** `early` is a beginning of `late`. */
  predicate IsPrefix(early: History, late: History) {
    early == late || (late.Then? && IsPrefix(early, late.past))
  }

  lemma {:induction false} PrefixIsValid(p: Primitives, early: History, late: History)
    requires Valid(p, late) && IsPrefix(early, late)
    ensures Valid(p, early) && Now(early) <= Now(late)
  {
    if early == late {
    } else {
      PrefixIsValid(p, early, late.past);
    }
  }

  // -------------------------------------------------------------------------
  // The mutable store lives the same histories

  /** One locked section run on the store itself. */
  method Perform(p: Primitives, store: Store, now: Time, op: Op) returns (r: Response)
    requires op.DoRegister? ==> op.pick !in store.hosts
    modifies store
    ensures (store.View(), r) == Apply(p, old(store.View()), now, op)
  {
    match op {
      case DoGc =>
        store.Gc(now);
        r := Collected;
      case DoRegister(req, pick) => r := store.RegisterHost(p, now, req, i => pick, 0);
      case DoHeartbeat(id, token, endpoints) => r := store.KeepAlive(p, now, id, token, endpoints);
      case DoInform(id) => r := store.Describe(now, id);
      case DoPoll(id, token) => r := store.LookAtQueue(p, now, id, token);
      case DoPost(id, token, res) => r := store.Post(p, id, token, res);
      case DoChallenge(id, rid, chal) => r := store.Issue(now, id, rid, chal);
      case DoSubmit(id, req) => r := store.Submit(now, id, req);
      case DoPollResult(rid) => r := store.LookAtResult(rid);
    }
  }

  /** The answers of a history, oldest first. */
  function Answers(p: Primitives, h: History): seq<Response> {
    if h.Start? then [] else Answers(p, h.past) + [LastResponse(p, h)]
  }

  /** A new store put through a history ends in its state, having given its
      answers, so all that is proved of histories is proved of the store. */
  method Live(p: Primitives, h: History) returns (store: Store, answers: seq<Response>)
    requires Valid(p, h)
    ensures fresh(store) && store.View() == After(p, h)
    ensures answers == Answers(p, h)
  {
    if h.Start? {
      store := new Store();
      answers := [];
    } else {
      store, answers := Live(p, h.past);
      var r := Perform(p, store, h.now, h.op);
      answers := answers + [r];
    }
  }

  // -------------------------------------------------------------------------
  // What each step leaves alone

  lemma QueueFrame(p: Primitives, s: State, now: Time, op: Op, id: Bytes)
    ensures var (s', r) := Apply(p, s, now, op);
      && (!(op.DoSubmit? && op.id == id && r.Queued?) && !(op.DoPoll? && op.id == id && r.Delivered?)
          ==> RuntimeOf(s', id).pending == RuntimeOf(s, id).pending)
      && (!(op.DoChallenge? && op.id == id && id in s.hosts)
          ==> RuntimeOf(s', id).challengeTimes == RuntimeOf(s, id).challengeTimes)
  {
  }

  lemma ChallengeFrame(p: Primitives, s: State, now: Time, op: Op, rid: Bytes)
    ensures var (s', r) := Apply(p, s, now, op);
      rid in s'.challenges ==>
        || (rid in s.challenges && s'.challenges[rid] == s.challenges[rid])
        || (op.DoChallenge? && op.rid == rid && r.Issued? && s'.challenges[rid] == Challenge(op.id, op.chal, now))
  {
  }

  // -------------------------------------------------------------------------
  // Binding and single use

  /** A live challenge is the one issued under its request id. */
  lemma {:induction false} LiveChallengesWereMinted(p: Primitives, h: History, rid: Bytes)
    requires Valid(p, h)
    requires rid in After(p, h).challenges
    ensures rid in Minted(p, h) && Minted(p, h)[rid] == After(p, h).challenges[rid]
    ensures Minted(p, h)[rid].created <= Now(h)
  {
    if h.Start? {
    } else {
      ChallengeFrame(p, After(p, h.past), h.now, h.op, rid);
      if rid in After(p, h.past).challenges { LiveChallengesWereMinted(p, h.past, rid); }
    }
  }

  /** Minting only ever adds entries. */
  lemma {:induction false} MintedGrows(p: Primitives, early: History, late: History, rid: Bytes)
    requires Valid(p, late) && IsPrefix(early, late)
    requires rid in Minted(p, early)
    ensures rid in Minted(p, late) && Minted(p, late)[rid] == Minted(p, early)[rid]
  {
    if early == late {
    } else {
      MintedGrows(p, early, late.past, rid);
    }
  }

  /** An accepted submission answers a challenge issued for the same host less
      than 120 s before, which is gone from then on. */
  ghost predicate Bound(p: Primitives, h: History, id: Bytes, a: Acceptance) {
    var rid := a.what.requestId;
    && WellFormedSubmit(a.what)
    && rid in Minted(p, h)
    && Minted(p, h)[rid].hostId == id
    && Minted(p, h)[rid].created <= a.at <= Now(h)
    && a.at - Minted(p, h)[rid].created < CHALLENGE_TTL_SECS * SECOND
    && rid !in After(p, h).challenges
  }

  lemma {:induction false} AcceptanceIsBound(p: Primitives, h: History, id: Bytes, i: nat)
    requires Valid(p, h) && i < |Acceptances(p, h, id)|
    ensures Bound(p, h, id, Acceptances(p, h, id)[i])
  {
    var a := Acceptances(p, h, id)[i];
    var rid := a.what.requestId;
    if i < |Acceptances(p, h.past, id)| {
      AcceptanceIsBound(p, h.past, id, i);
      MintedGrows(p, h.past, h, rid);
      ChallengeFrame(p, After(p, h.past), h.now, h.op, rid);
    } else {
      LiveChallengesWereMinted(p, h.past, rid);
    }
  }

  /** No request id is accepted twice in a run, for one host or for two. */
  lemma {:induction false} AcceptedOnce(p: Primitives, h: History, id: Bytes, i: nat, other: Bytes, j: nat)
    requires Valid(p, h)
    requires i < |Acceptances(p, h, id)| && j < |Acceptances(p, h, other)|
    requires Acceptances(p, h, id)[i].what.requestId == Acceptances(p, h, other)[j].what.requestId
    ensures id == other && i == j
  {
    var newI, newJ := i >= |Acceptances(p, h.past, id)|, j >= |Acceptances(p, h.past, other)|;
    if newI && !newJ {
      AcceptanceIsBound(p, h.past, other, j);
    } else if newJ && !newI {
      AcceptanceIsBound(p, h.past, id, i);
    } else if !newI && !newJ {
      AcceptedOnce(p, h.past, id, i, other, j);
    }
  }

  /** The locked section in which a submission was accepted. */
  lemma {:induction false} AcceptanceMoment(p: Primitives, h: History, id: Bytes, i: nat) returns (m: History)
    requires i < |Acceptances(p, h, id)|
    ensures IsPrefix(m, h) && m.Then? && LastResponse(p, m) == Queued
    ensures m.op == DoSubmit(id, Acceptances(p, h, id)[i].what) && m.now == Acceptances(p, h, id)[i].at
  {
    if i < |Acceptances(p, h.past, id)| {
      m := AcceptanceMoment(p, h.past, id, i);
    } else {
      m := h;
    }
  }

  /** The liveness a host's record holds is the one the run shows. */
  lemma {:induction false} LastSeenIsLogged(p: Primitives, h: History, id: Bytes)
    requires Valid(p, h)
    ensures id in After(p, h).hosts <==> SeenAt(p, h, id).Some?
    ensures id in After(p, h).hosts ==> After(p, h).hosts[id].lastSeen == SeenAt(p, h, id)
    ensures SeenAt(p, h, id).Some? ==> SeenAt(p, h, id).value <= Now(h)
  {
    if h.Start? {
    } else {
      LastSeenIsLogged(p, h.past, id);
      SeenStep(p, After(p, h.past), h.now, h.op, id);
    }
  }

  lemma SeenStep(p: Primitives, s: State, now: Time, op: Op, id: Bytes)
    ensures var (s', r) := Apply(p, s, now, op);
      var seen := (op.DoRegister? && r == Registered(id)) || (op.DoHeartbeat? && op.id == id && r.Alive?)
                  || (op.DoPoll? && op.id == id && r.Delivered?);
      && (seen ==> id in s'.hosts && s'.hosts[id].lastSeen == Some(now))
      && (!seen ==> (id in s'.hosts <==> id in s.hosts))
      && (!seen && id in s.hosts ==> s'.hosts[id].lastSeen == s.hosts[id].lastSeen)
  {
  }

  lemma QueuedWhileOnline(p: Primitives, h: History, id: Bytes, req: SubmitPairRequest, now: Time)
    requires Valid(p, h) && Now(h) <= now
    requires SubmitPair(After(p, h), now, id, req).1.Queued?
    ensures SeenAt(p, h, id).Some? && 0 <= now - SeenAt(p, h, id).value < 90 * SECOND
  {
    LastSeenIsLogged(p, h, id);
  }

  /** A submission past the format checks uses its challenge up, refused or not:
      whoever submits under that id later, at any host, is refused. */
  lemma {:induction false} SubmissionConsumes(p: Primitives, early: History, late: History)
    requires Valid(p, late) && early.Then? && late.Then? && IsPrefix(early, late.past)
    requires early.op.DoSubmit? && WellFormedSubmit(early.op.submission)
    requires late.op.DoSubmit? && late.op.submission.requestId == early.op.submission.requestId
    requires early.op.submission.requestId in Minted(p, early)
    ensures LastResponse(p, late) == Refused(if WellFormedSubmit(late.op.submission) then NotFound else BadRequest)
  {
    ConsumedStaysGone(p, early, late.past);
  }

  lemma {:induction false} ConsumedStaysGone(p: Primitives, early: History, late: History)
    requires Valid(p, late) && IsPrefix(early, late)
    requires early.Then? && early.op.DoSubmit? && WellFormedSubmit(early.op.submission)
    requires early.op.submission.requestId in Minted(p, early)
    ensures early.op.submission.requestId !in After(p, late).challenges
  {
    if early == late {
    } else {
      ConsumedStaysGone(p, early, late.past);
      MintedGrows(p, early, late.past, early.op.submission.requestId);
      ChallengeFrame(p, After(p, late.past), late.now, late.op, early.op.submission.requestId);
    }
  }

  // -------------------------------------------------------------------------
  // Conservation

  /** A submission with the challenge it answers, as the host is to see it. */
  function Answering(sub: SubmitPairRequest, chal: Bytes): PairRequest {
    PairRequest(requestId := sub.requestId, challenge := chal, response := sub.response,
                deviceName := sub.deviceName, clientUid := sub.clientUid, sealedPin := sub.sealedPin,
                remember := sub.remember)
  }

  /** The request repeats the submission field by field, next to the challenge. */
  predicate Repeats(pr: PairRequest, sub: SubmitPairRequest, chal: Bytes) {
    && pr.requestId == sub.requestId && pr.challenge == chal && pr.response == sub.response
    && pr.deviceName == sub.deviceName && pr.clientUid == sub.clientUid
    && pr.sealedPin == sub.sealedPin && pr.remember == sub.remember
  }

  /** The requests a host's queue is to be given, in order of acceptance, from the
      submissions accepted and the challenges issued. */
  function Enqueued(p: Primitives, h: History, id: Bytes): (reqs: seq<PairRequest>)
  {
    var minted := Minted(p, h);
    seq(|Acceptances(p, h, id)|, i requires 0 <= i < |Acceptances(p, h, id)| =>
      var sub := Acceptances(p, h, id)[i].what;
      Answering(sub, if sub.requestId in minted then minted[sub.requestId].challenge else []))
  }

  lemma EnqueuedStep(p: Primitives, h: History, id: Bytes)
    requires Valid(p, h) && h.Then?
    ensures Enqueued(p, h, id) ==
      if h.op.DoSubmit? && h.op.id == id && LastResponse(p, h).Queued?
      then Enqueued(p, h.past, id)
           + [Answering(h.op.submission, After(p, h.past).challenges[h.op.submission.requestId].challenge)]
      else Enqueued(p, h.past, id)
  {
    forall i | 0 <= i < |Acceptances(p, h.past, id)|
      ensures Enqueued(p, h, id)[i] == Enqueued(p, h.past, id)[i]
    {
      AcceptanceIsBound(p, h.past, id, i);
      MintedGrows(p, h.past, h, Acceptances(p, h.past, id)[i].what.requestId);
    }
    if h.op.DoSubmit? && h.op.id == id && LastResponse(p, h).Queued? {
      LiveChallengesWereMinted(p, h.past, h.op.submission.requestId);
    }
  }

  /** Nothing is lost, duplicated, reordered or misrouted: what a host's pollers
      got, in lock order, followed by what is still queued, is exactly what was
      accepted for that host, each with the challenge text issued for it. */
  lemma {:induction false} Conservation(p: Primitives, h: History, id: Bytes)
    requires Valid(p, h)
    ensures Deliveries(p, h, id) + RuntimeOf(After(p, h), id).pending == Enqueued(p, h, id)
  {
    if h.Start? {
    } else {
      Conservation(p, h.past, id);
      EnqueuedStep(p, h, id);
      QueueFrame(p, After(p, h.past), h.now, h.op, id);
    }
  }

  /** Every request ever delivered to a host repeats a submission, field by field,
      with the text of the challenge issued under its id, for that host, under
      120 s before it was submitted, at a moment when the host had been heard from
      under 90 s before. */
  lemma DeliveredIsBound(p: Primitives, h: History, id: Bytes, i: nat) returns (m: History)
    requires Valid(p, h) && i < |Deliveries(p, h, id)|
    ensures var pr := Deliveries(p, h, id)[i];
      && pr.requestId in Minted(p, h)
      && Minted(p, h)[pr.requestId].hostId == id && Minted(p, h)[pr.requestId].challenge == pr.challenge
      && IsPrefix(m, h) && m.Then? && m.op.DoSubmit? && m.op.id == id && LastResponse(p, m) == Queued
      && Repeats(pr, m.op.submission, Minted(p, h)[pr.requestId].challenge)
      && 0 <= m.now - Minted(p, h)[pr.requestId].created < 120 * SECOND
      && SeenAt(p, m.past, id).Some? && 0 <= m.now - SeenAt(p, m.past, id).value < 90 * SECOND
  {
    Conservation(p, h, id);
    assert Deliveries(p, h, id)[i] == Enqueued(p, h, id)[i];
    AcceptanceIsBound(p, h, id, i);
    m := AcceptanceMoment(p, h, id, i);
    PrefixIsValid(p, m, h);
    QueuedWhileOnline(p, m.past, id, m.op.submission, m.now);
  }

  /** And no request is delivered twice, to one host or to two. */
  lemma DeliveredOnce(p: Primitives, h: History, id: Bytes, i: nat, other: Bytes, j: nat)
    requires Valid(p, h) && i < |Deliveries(p, h, id)| && j < |Deliveries(p, h, other)|
    requires Deliveries(p, h, id)[i].requestId == Deliveries(p, h, other)[j].requestId
    ensures id == other && i == j
  {
    Conservation(p, h, id);
    Conservation(p, h, other);
    assert Deliveries(p, h, id)[i] == Enqueued(p, h, id)[i];
    assert Deliveries(p, h, other)[j] == Enqueued(p, h, other)[j];
    AcceptedOnce(p, h, id, i, other, j);
  }
}
