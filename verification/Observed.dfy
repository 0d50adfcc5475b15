/** What the server answers, told from outside: every answer of a run follows from
    the requests made and the answers given before it. The state is an
    implementation of these records. */
module Observed {
  import opened ByteStrings
  import opened Proto
  import opened Rendezvous
  import opened Histories
  import opened RateLimit
  import G = GcTransparency
  import Slots

  // -------------------------------------------------------------------------
  // What the run shows of a host

  /** The registration of an id last answered. */
  function LastRegistration(p: Primitives, h: History, id: Bytes): Option<RegisterRequest> {
    if h.Start? then None
    else if h.op.DoRegister? && LastResponse(p, h) == Registered(id) then Some(h.op.register)
    else LastRegistration(p, h.past, id)
  }

  /** The token an id was first registered with. */
  function FirstToken(p: Primitives, h: History, id: Bytes): Option<Bytes> {
    if h.Start? then None
    else if FirstToken(p, h.past, id).None? && h.op.DoRegister? && LastResponse(p, h) == Registered(id)
    then Some(h.op.register.token)
    else FirstToken(p, h.past, id)
  }

  /** The endpoints a host last gave: on registering, or in a heartbeat that was let
      through with no more than sixteen of them. */
  function Advertised(p: Primitives, h: History, id: Bytes): seq<Endpoint> {
    if h.Start? then []
    else if h.op.DoRegister? && LastResponse(p, h) == Registered(id) then h.op.register.endpoints
    else if h.op.DoHeartbeat? && h.op.id == id && LastResponse(p, h).Alive?
            && h.op.endpoints.Some? && |h.op.endpoints.value| <= 16
    then h.op.endpoints.value
    else Advertised(p, h.past, id)
  }

  /** The record of a host as the run shows it. */
  function Shown(p: Primitives, h: History, id: Bytes): HostRecord
    requires LastRegistration(p, h, id).Some? && FirstToken(p, h, id).Some?
  {
    var reg := LastRegistration(p, h, id).value;
    HostRecord(
      id := id,
      tokenFp := Hex(p.sha(FirstToken(p, h, id).value)),
      name := reg.name,
      platform := reg.platform,
      endpoints := Advertised(p, h, id),
      passwordSalt := reg.passwordSalt,
      agentVersion := reg.agentVersion,
      lastSeen := SeenAt(p, h, id))
  }

  /** One step of a host's record. */
  lemma RecordStep(p: Primitives, s: State, now: Time, op: Op, id: Bytes)
    ensures var (s', r) := Apply(p, s, now, op);
      && (op.DoRegister? && r == Registered(id) ==>
            && id in s'.hosts
            && s'.hosts[id] == HostRecord(
                 id := id, tokenFp := Hex(p.sha(op.register.token)), name := op.register.name,
                 platform := op.register.platform, endpoints := op.register.endpoints,
                 passwordSalt := op.register.passwordSalt, agentVersion := op.register.agentVersion,
                 lastSeen := Some(now)))
      && (!(op.DoRegister? && r == Registered(id)) ==>
            && (id in s'.hosts <==> id in s.hosts)
            && (id in s.hosts ==>
                  s'.hosts[id] == s.hosts[id].(
                    lastSeen := s'.hosts[id].lastSeen,
                    endpoints := if op.DoHeartbeat? && op.id == id && r.Alive?
                                    && op.endpoints.Some? && |op.endpoints.value| <= 16
                                 then op.endpoints.value else s.hosts[id].endpoints)))
  {
  }

  /** A registration that goes through keeps the token. */
  lemma ReRegistration(p: Primitives, s: State, now: Time, req: RegisterRequest, pick: Bytes, id: Bytes)
    requires pick !in s.hosts && id in s.hosts
    requires Register(p, s, now, req, pick).1 == Registered(id)
    ensures s.hosts[id].tokenFp == Hex(p.sha(req.token))
  {
    CtEqIsEquality(s.hosts[id].tokenFp, Hex(p.sha(req.token)));
  }

  /** The server knows a host exactly if the run shows a registration of it, and its
      record is the one shown: the fields of the last registration, the token of
      the first, the endpoints last given, and the time it was last heard from. */
  lemma {:induction false} RecordIsShown(p: Primitives, h: History, id: Bytes)
    requires Valid(p, h)
    ensures LastRegistration(p, h, id).Some? <==> FirstToken(p, h, id).Some?
    ensures id in After(p, h).hosts <==> FirstToken(p, h, id).Some?
    ensures id in After(p, h).hosts ==> After(p, h).hosts[id] == Shown(p, h, id)
  {
    if h.Start? {
    } else {
      RecordIsShown(p, h.past, id);
      LastSeenIsLogged(p, h, id);
      RecordStep(p, After(p, h.past), h.now, h.op, id);
      if h.op.DoRegister? && LastResponse(p, h) == Registered(id) && id in After(p, h.past).hosts {
        ReRegistration(p, After(p, h.past), h.now, h.op.register, h.op.pick, id);
      }
    }
  }

  // -------------------------------------------------------------------------
  // The answer to every request

  /** None for a caller that is let through: it brings a token that hashes like the
      one the id was first registered with. */
  function Admit(p: Primitives, h: History, id: Bytes, token: Option<Bytes>): Option<Code> {
    if token.None? then Some(Unauthorized)
    else if FirstToken(p, h, id).None? then Some(NotFound)
    else if p.sha(token.value) != p.sha(FirstToken(p, h, id).value) then Some(Forbidden)
    else None
  }

  function OnRegister(p: Primitives, h: History, req: RegisterRequest, pick: Bytes): Response {
    if |req.token| < 32 || |req.name| < 1 || |req.name| > 64 || |req.endpoints| > 16 then Refused(BadRequest)
    else if req.id.None? then Registered(pick)
    else if !IsValidId(req.id.value) then Refused(BadRequest)
    else if FirstToken(p, h, req.id.value).Some?
            && p.sha(req.token) != p.sha(FirstToken(p, h, req.id.value).value)
    then Refused(Forbidden)
    else Registered(req.id.value)
  }

  /** What clients are told of a host. */
  function OnInform(p: Primitives, h: History, now: Time, id: Bytes): Response {
    if LastRegistration(p, h, id).None? || SeenAt(p, h, id).None? then Refused(NotFound)
    else
      var reg, seen := LastRegistration(p, h, id).value, SeenAt(p, h, id).value;
      var silent: nat := if now >= seen then now - seen else 0;
      Info(HostInfo(
        id := id, name := reg.name, platform := reg.platform, online := silent < 90 * SECOND,
        endpoints := Advertised(p, h, id), passwordSalt := reg.passwordSalt,
        lastSeenSecs := silent / SECOND))
  }

  function OnChallenge(p: Primitives, h: History, now: Time, id: Bytes, rid: Bytes, chal: Bytes): Response {
    if FirstToken(p, h, id).None? then Refused(NotFound)
    else if |Window(Times(Issues(p, h, id)), now - 60 * SECOND, now)| >= 20 then Refused(TooManyRequests)
    else Issued(rid, chal)
  }

  /** A challenge was issued under this id, is unused, and has met no collection
      that found it two minutes old. */
  predicate ChallengeKept(p: Primitives, h: History, rid: Bytes) {
    rid in Minted(p, h) && G.Unconsumed(p, h, rid) && !G.Swept(h, Minted(p, h)[rid].created, 120)
  }

  /** A submission under this id was accepted, and no collection has found its slot
      five minutes old. */
  predicate SlotKept(p: Primitives, h: History, rid: Bytes) {
    G.AcceptedAt(p, h, rid).Some? && !G.Swept(h, G.AcceptedAt(p, h, rid).value, 300)
  }

  function OnSubmit(p: Primitives, h: History, now: Time, id: Bytes, req: SubmitPairRequest): Response {
    if |req.deviceName| < 1 || |req.deviceName| > 64 || |req.response| != 64 || |req.sealedPin| > 256
    then Refused(BadRequest)
    else if !ChallengeKept(p, h, req.requestId) then Refused(NotFound)
    else
      var issued := Minted(p, h)[req.requestId];
      if issued.hostId != id then Refused(BadRequest)
      else if now - issued.created >= 120 * SECOND then Refused(Gone)
      else if SeenAt(p, h, id).None? || now - SeenAt(p, h, id).value >= 90 * SECOND then Refused(Unavailable)
      else Queued
  }

  function OnPoll(p: Primitives, h: History, id: Bytes, token: Option<Bytes>): Response {
    match Admit(p, h, id, token)
    case Some(code) => Refused(code)
    case None =>
      var reqs, given := Enqueued(p, h, id), |Deliveries(p, h, id)|;
      Delivered(if given <= |reqs| then reqs[given..] else [])
  }

  function OnPost(p: Primitives, h: History, id: Bytes, token: Option<Bytes>, res: PairResult): Response {
    match Admit(p, h, id, token)
    case Some(code) => Refused(code)
    case None => if SlotKept(p, h, res.requestId) then Posted else Refused(NotFound)
  }

  /** The answer due to a request after a run, from the requests and answers of the
      run alone. */
  function Due(p: Primitives, h: History, now: Time, op: Op): Response {
    match op
    case DoGc => Collected
    case DoRegister(req, pick) => OnRegister(p, h, req, pick)
    case DoHeartbeat(id, token, _) =>
      if Admit(p, h, id, token).Some? then Refused(Admit(p, h, id, token).value) else Alive(id)
    case DoInform(id) => OnInform(p, h, now, id)
    case DoPoll(id, token) => OnPoll(p, h, id, token)
    case DoPost(id, token, res) => OnPost(p, h, id, token, res)
    case DoChallenge(id, rid, chal) => OnChallenge(p, h, now, id, rid, chal)
    case DoSubmit(id, req) => OnSubmit(p, h, now, id, req)
    case DoPollResult(rid) => if SlotKept(p, h, rid) then Answer(LastPosted(p, h, rid)) else Refused(NotFound)
  }

  // -------------------------------------------------------------------------
  // The server gives it

  lemma HexIsInjective(x: Bytes, y: Bytes)
    ensures Hex(x) == Hex(y) <==> x == y
  {
    UnhexHex(x);
    UnhexHex(y);
  }

  lemma AdmitDecides(p: Primitives, h: History, id: Bytes, token: Option<Bytes>)
    requires Valid(p, h)
    ensures Authorize(p, After(p, h), id, token) == Admit(p, h, id, token)
  {
    RecordIsShown(p, h, id);
    if token.Some? && id in After(p, h).hosts {
      var first := FirstToken(p, h, id).value;
      CtEqIsEquality(After(p, h).hosts[id].tokenFp, TokenFingerprint(p, token.value));
      HexIsInjective(p.sha(token.value), p.sha(first));
    }
  }

  lemma RegisterDue(p: Primitives, h: History, now: Time, req: RegisterRequest, pick: Bytes)
    requires Valid(p, h)
    ensures Register(p, After(p, h), now, req, pick).1 == OnRegister(p, h, req, pick)
  {
    if req.id.Some? {
      var id := req.id.value;
      RecordIsShown(p, h, id);
      if id in After(p, h).hosts {
        CtEqIsEquality(After(p, h).hosts[id].tokenFp, TokenFingerprint(p, req.token));
        HexIsInjective(p.sha(FirstToken(p, h, id).value), p.sha(req.token));
      }
    }
  }

  lemma InformDue(p: Primitives, h: History, now: Time, id: Bytes)
    requires Valid(p, h)
    ensures Inform(After(p, h), now, id) == OnInform(p, h, now, id)
  {
    RecordIsShown(p, h, id);
    LastSeenIsLogged(p, h, id);
  }

  lemma PollDue(p: Primitives, h: History, now: Time, id: Bytes, token: Option<Bytes>)
    requires Valid(p, h)
    ensures PollRequests(p, After(p, h), now, id, token).1 == OnPoll(p, h, id, token)
  {
    AdmitDecides(p, h, id, token);
    Conservation(p, h, id);
    var given := Deliveries(p, h, id);
    assert (given + RuntimeOf(After(p, h), id).pending)[|given|..] == RuntimeOf(After(p, h), id).pending;
  }

  lemma PostDue(p: Primitives, h: History, id: Bytes, token: Option<Bytes>, res: PairResult)
    requires Valid(p, h)
    ensures PostResult(p, After(p, h), id, token, res).1 == OnPost(p, h, id, token, res)
  {
    AdmitDecides(p, h, id, token);
    G.SlotsOfRun(p, h, res.requestId);
  }

  lemma ChallengeDue(p: Primitives, h: History, now: Time, id: Bytes, rid: Bytes, chal: Bytes)
    requires Valid(p, h) && Now(h) <= now
    ensures IssueChallenge(After(p, h), now, id, rid, chal).1 == OnChallenge(p, h, now, id, rid, chal)
  {
    RecordIsShown(p, h, id);
    if id in After(p, h).hosts {
      LimiterTracks(p, h, id);
      RefusalStep(p, After(p, h), Now(h), now, DoChallenge(id, rid, chal), Times(Issues(p, h, id)));
      assert MinuteRule(Times(Issues(p, h, id)), now, DoChallenge(id, rid, chal),
                        IssueChallenge(After(p, h), now, id, rid, chal).1);
    }
  }

  lemma SubmitDue(p: Primitives, h: History, now: Time, id: Bytes, req: SubmitPairRequest)
    requires Valid(p, h) && Now(h) <= now
    ensures SubmitPair(After(p, h), now, id, req).1 == OnSubmit(p, h, now, id, req)
  {
    G.ChallengesOfRun(p, h, req.requestId);
    if req.requestId in After(p, h).challenges { LiveChallengesWereMinted(p, h, req.requestId); }
    LastSeenIsLogged(p, h, id);
  }

  lemma PollResultDue(p: Primitives, h: History, rid: Bytes)
    requires Valid(p, h)
    ensures PollResult(After(p, h), rid) ==
            if SlotKept(p, h, rid) then Answer(LastPosted(p, h, rid)) else Refused(NotFound)
  {
    G.SlotsOfRun(p, h, rid);
    if rid in After(p, h).results { Slots.SlotHoldsLastPosted(p, h, rid); }
  }

  /** Every answer of every run is the one due: what the server says is settled by
      what was asked and answered before, and nothing else. */
  lemma EveryAnswerIsDue(p: Primitives, h: History)
    requires Valid(p, h) && h.Then?
    ensures LastResponse(p, h) == Due(p, h.past, h.now, h.op)
  {
    var past := h.past;
    match h.op {
      case DoGc =>
      case DoRegister(req, pick) => RegisterDue(p, past, h.now, req, pick);
      case DoHeartbeat(id, token, _) => AdmitDecides(p, past, id, token);
      case DoInform(id) => InformDue(p, past, h.now, id);
      case DoPoll(id, token) => PollDue(p, past, h.now, id, token);
      case DoPost(id, token, res) => PostDue(p, past, id, token, res);
      case DoChallenge(id, rid, chal) => ChallengeDue(p, past, h.now, id, rid, chal);
      case DoSubmit(id, req) => SubmitDue(p, past, h.now, id, req);
      case DoPollResult(rid) => PollResultDue(p, past, rid);
    }
  }

  /** A well-formed submission of a live challenge at its own host goes by the time
      the host was last heard from. */
  lemma LivenessDecides(p: Primitives, h: History)
    requires Valid(p, h) && h.Then? && h.op.DoSubmit? && WellFormedSubmit(h.op.submission)
    requires ChallengeKept(p, h.past, h.op.submission.requestId)
    requires var issued := Minted(p, h.past)[h.op.submission.requestId];
      issued.hostId == h.op.id && h.now - issued.created < 120 * SECOND
    ensures SeenAt(p, h.past, h.op.id).Some?
    ensures LastResponse(p, h) ==
            if h.now - SeenAt(p, h.past, h.op.id).value < 90 * SECOND then Queued else Refused(Unavailable)
  {
    EveryAnswerIsDue(p, h);
    MintedForKnown(p, h.past, h.op.submission.requestId);
  }

  lemma {:induction false} MintedForKnown(p: Primitives, h: History, rid: Bytes)
    requires Valid(p, h) && rid in Minted(p, h)
    ensures SeenAt(p, h, Minted(p, h)[rid].hostId).Some?
  {
    if h.op.DoChallenge? && h.op.rid == rid && LastResponse(p, h).Issued? {
      LastSeenIsLogged(p, h, h.op.id);
    } else {
      MintedForKnown(p, h.past, rid);
    }
  }
}
