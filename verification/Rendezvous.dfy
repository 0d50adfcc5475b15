/** The rendezvous server: every section that holds the store's lock is one
    atomic step, given here as a function of the state, the clock reading and the
    request. `Store` below is the mutable object these functions specify. */
module Rendezvous {
  import opened ByteStrings
  import opened Proto

  /** Clock readings, in nanoseconds. */
  type Time = nat

  const SECOND: nat := 1_000_000_000
  const MINUTE: nat := 60 * SECOND
  const OFFLINE_AFTER_SECS: nat := 90
  const CHALLENGE_TTL_SECS: nat := 120
  const RESULT_TTL_SECS: nat := 300
  const CHALLENGES_PER_MINUTE: nat := 20

  datatype HostRecord = HostRecord(
    id: Bytes, tokenFp: Bytes, name: Bytes, platform: Bytes, endpoints: seq<Endpoint>,
    passwordSalt: Bytes, agentVersion: Bytes, lastSeen: Option<Time>)

  datatype HostRuntime = HostRuntime(pending: seq<PairRequest>, challengeTimes: seq<Time>)

  datatype Challenge = Challenge(hostId: Bytes, challenge: Bytes, created: Time)

  /** What anybody may ask of a host. */
  datatype HostInfo = HostInfo(
    id: Bytes, name: Bytes, platform: Bytes, online: bool, endpoints: seq<Endpoint>,
    passwordSalt: Bytes, lastSeenSecs: nat)

  datatype ResultSlot = ResultSlot(result: Option<PairResult>, created: Time)

  datatype State = State(
    hosts: map<Bytes, HostRecord>,
    runtime: map<Bytes, HostRuntime>,
    challenges: map<Bytes, Challenge>,
    results: map<Bytes, ResultSlot>)

  const EMPTY: State := State(map[], map[], map[], map[])

  datatype Code =
    | BadRequest | Unauthorized | Forbidden | NotFound | Gone | TooManyRequests | Unavailable

  datatype Response =
    | Collected
    | Registered(id: Bytes)
    | Alive(id: Bytes)
    | Info(info: HostInfo)
    | Delivered(batch: seq<PairRequest>)
    | Posted
    | Issued(requestId: Bytes, challenge: Bytes)
    | Queued
    | Answer(result: Option<PairResult>)
    | Refused(code: Code)

  /** `Instant::duration_since`, which saturates at zero. */
  function Since(now: Time, then_: Time): nat {
    if now >= then_ then now - then_ else 0
  }

  function AsSecs(d: nat): nat {
    d / SECOND
  }

  /** `entry(id).or_default()`. */
  function RuntimeOf(s: State, id: Bytes): HostRuntime {
    if id in s.runtime then s.runtime[id] else HostRuntime([], [])
  }

  // -------------------------------------------------------------------------
  // The steps

  function Collect(s: State, now: Time): State {
    s.(challenges := map k | k in s.challenges
                       && AsSecs(Since(now, s.challenges[k].created)) < CHALLENGE_TTL_SECS
                     :: s.challenges[k],
       results := map k | k in s.results
                    && AsSecs(Since(now, s.results[k].created)) < RESULT_TTL_SECS
                  :: s.results[k])
  }

  /** None when the bearer token is the one the host was registered with. */
  function Authorize(p: Primitives, s: State, id: Bytes, token: Option<Bytes>): Option<Code> {
    if token.None? then Some(Unauthorized)
    else if id !in s.hosts then Some(NotFound)
    else if !CtEq(s.hosts[id].tokenFp, TokenFingerprint(p, token.value)) then Some(Forbidden)
    else None
  }

  /** The identifier a registration ends up with; `pick` is the random free one. */
  function ChooseId(p: Primitives, s: State, req: RegisterRequest, pick: Bytes): Result<Bytes, Code> {
    match req.id
    case None => Ok(pick)
    case Some(id) =>
      if !IsValidId(id) then Err(BadRequest)
      else if id in s.hosts && !CtEq(s.hosts[id].tokenFp, TokenFingerprint(p, req.token)) then Err(Forbidden)
      else Ok(id)
  }

  function Register(p: Primitives, s: State, now: Time, req: RegisterRequest, pick: Bytes): (State, Response) {
    if |req.token| < 32 then (s, Refused(BadRequest))
    else if |req.name| == 0 || |req.name| > 64 then (s, Refused(BadRequest))
    else if |req.endpoints| > 16 then (s, Refused(BadRequest))
    else
      match ChooseId(p, s, req, pick)
      case Err(code) => (s, Refused(code))
      case Ok(id) =>
        var rec := HostRecord(id, TokenFingerprint(p, req.token), req.name, req.platform, req.endpoints,
                              req.passwordSalt, req.agentVersion, Some(now));
        (s.(hosts := s.hosts[id := rec], runtime := s.runtime[id := RuntimeOf(s, id)]), Registered(id))
  }

  function Heartbeat(p: Primitives, s: State, now: Time, id: Bytes, token: Option<Bytes>,
                     endpoints: Option<seq<Endpoint>>): (State, Response)
  {
    match Authorize(p, s, id, token)
    case Some(code) => (s, Refused(code))
    case None =>
      assert id in s.hosts;
      var host := s.hosts[id].(lastSeen := Some(now));
      var host' := if endpoints.Some? && |endpoints.value| <= 16 then host.(endpoints := endpoints.value) else host;
      (s.(hosts := s.hosts[id := host']), Alive(id))
  }

  /** The seconds of a host never seen, `u64::MAX`. */
  const NEVER_SEEN: nat := 0xFFFF_FFFF_FFFF_FFFF

  function Inform(s: State, now: Time, id: Bytes): Response {
    if id !in s.hosts then Refused(NotFound)
    else
      var host := s.hosts[id];
      var secs := if host.lastSeen.Some? then AsSecs(Since(now, host.lastSeen.value)) else NEVER_SEEN;
      Info(HostInfo(host.id, host.name, host.platform, secs < OFFLINE_AFTER_SECS, host.endpoints,
                    host.passwordSalt, secs))
  }

  /** One locked look of the long poll at the host's queue. */
  function PollRequests(p: Primitives, s: State, now: Time, id: Bytes, token: Option<Bytes>): (State, Response) {
    match Authorize(p, s, id, token)
    case Some(code) => (s, Refused(code))
    case None =>
      assert id in s.hosts;
      var rt := RuntimeOf(s, id);
      (s.(hosts := s.hosts[id := s.hosts[id].(lastSeen := Some(now))],
          runtime := s.runtime[id := rt.(pending := [])]),
       Delivered(rt.pending))
  }

  function PostResult(p: Primitives, s: State, id: Bytes, token: Option<Bytes>, res: PairResult): (State, Response) {
    match Authorize(p, s, id, token)
    case Some(code) => (s, Refused(code))
    case None =>
      if res.requestId !in s.results then (s, Refused(NotFound))
      else
        var slot := s.results[res.requestId].(result := Some(res));
        (s.(results := s.results[res.requestId := slot]), Posted)
  }

  /** The sliding window: readings more than a minute old leave at the front. */
  function Prune(times: seq<Time>, now: Time): seq<Time> {
    if times != [] && Since(now, times[0]) > MINUTE then Prune(times[1..], now) else times
  }

  /** The second locked section of the challenge handler; `rid` and `chal` are
      the random strings it draws. */
  function IssueChallenge(s: State, now: Time, id: Bytes, rid: Bytes, chal: Bytes): (State, Response) {
    if id !in s.hosts then (s, Refused(NotFound))
    else
      var rt := RuntimeOf(s, id);
      var times := Prune(rt.challengeTimes, now);
      if |times| >= CHALLENGES_PER_MINUTE then
        (s.(runtime := s.runtime[id := rt.(challengeTimes := times)]), Refused(TooManyRequests))
      else
        (s.(runtime := s.runtime[id := rt.(challengeTimes := times + [now])],
            challenges := s.challenges[rid := Challenge(id, chal, now)]),
         Issued(rid, chal))
  }

  predicate WellFormedSubmit(req: SubmitPairRequest) {
    1 <= |req.deviceName| <= 64 && |req.response| == 64 && |req.sealedPin| <= 256
  }

  predicate Online(s: State, id: Bytes, now: Time) {
    id in s.hosts && s.hosts[id].lastSeen.Some?
    && AsSecs(Since(now, s.hosts[id].lastSeen.value)) < OFFLINE_AFTER_SECS
  }

  function QueuedRequest(req: SubmitPairRequest, chal: Bytes): PairRequest {
    PairRequest(req.requestId, chal, req.response, req.deviceName, req.clientUid, req.sealedPin, req.remember)
  }

  function SubmitPair(s: State, now: Time, id: Bytes, req: SubmitPairRequest): (State, Response) {
    if !WellFormedSubmit(req) then (s, Refused(BadRequest))
    else if req.requestId !in s.challenges then (s, Refused(NotFound))
    else
      var ch := s.challenges[req.requestId];
      var s' := s.(challenges := s.challenges - {req.requestId});
      if ch.hostId != id then (s', Refused(BadRequest))
      else if AsSecs(Since(now, ch.created)) >= CHALLENGE_TTL_SECS then (s', Refused(Gone))
      else if !Online(s, id, now) then (s', Refused(Unavailable))
      else
        var rt := RuntimeOf(s, id);
        (s'.(results := s.results[req.requestId := ResultSlot(None, now)],
             runtime := s.runtime[id := rt.(pending := rt.pending + [QueuedRequest(req, ch.challenge)])]),
         Queued)
  }

  /** One locked look of the long poll at a result slot. */
  function PollResult(s: State, rid: Bytes): Response {
    if rid !in s.results then Refused(NotFound) else Answer(s.results[rid].result)
  }

  /** The first draw from position i on that is not taken. */
  ghost function FirstFree(taken: set<Bytes>, draw: nat -> Bytes, i: nat, free: nat): (first: nat)
    requires i <= free && draw(free) !in taken
    ensures i <= first <= free && draw(first) !in taken
    ensures forall k | i <= k < first :: draw(k) in taken
    decreases free - i
  {
    if draw(i) !in taken then i else FirstFree(taken, draw, i + 1, free)
  }

  // -------------------------------------------------------------------------
  // The object the server shares between its handlers

  class Store {
    var hosts: map<Bytes, HostRecord>
    var runtime: map<Bytes, HostRuntime>
    var challenges: map<Bytes, Challenge>
    var results: map<Bytes, ResultSlot>

    ghost function View(): State
      reads this
    {
      State(hosts, runtime, challenges, results)
    }

    constructor ()
      ensures View() == EMPTY
    {
      hosts, runtime, challenges, results := map[], map[], map[], map[];
    }

    method Gc(now: Time)
      modifies this
      ensures View() == Collect(old(View()), now)
    {
      challenges := map k | k in challenges
                      && AsSecs(Since(now, challenges[k].created)) < CHALLENGE_TTL_SECS :: challenges[k];
      results := map k | k in results
                   && AsSecs(Since(now, results[k].created)) < RESULT_TTL_SECS :: results[k];
    }

    method CheckToken(p: Primitives, id: Bytes, token: Option<Bytes>) returns (refusal: Option<Code>)
      ensures refusal == Authorize(p, View(), id, token)
      ensures refusal.None? <==>
                token.Some? && id in hosts && hosts[id].tokenFp == TokenFingerprint(p, token.value)
    {
      if token.None? { return Some(Unauthorized); }
      if id !in hosts { return Some(NotFound); }
      CtEqIsEquality(hosts[id].tokenFp, TokenFingerprint(p, token.value));
      if !CtEq(hosts[id].tokenFp, TokenFingerprint(p, token.value)) { return Some(Forbidden); }
      return None;
    }

    /** `entry(id).or_default()`, leaving the entry in the map. */
    method Touch(id: Bytes) returns (rt: HostRuntime)
      modifies this`runtime
      ensures rt == RuntimeOf(old(View()), id)
      ensures runtime == old(runtime)[id := rt]
    {
      if id !in runtime { runtime := runtime[id := HostRuntime([], [])]; }
      rt := runtime[id];
      assert old(runtime)[id := rt] == runtime;
    }

    /** `draw` stands for the random generator; some draw is free, and the first
        free one is taken. */
    method RegisterHost(p: Primitives, now: Time, req: RegisterRequest, draw: nat -> Bytes, ghost free: nat)
      returns (r: Response)
      requires draw(free) !in hosts
      modifies this
      ensures (View(), r) == Register(p, old(View()), now, req, draw(FirstFree(old(hosts).Keys, draw, 0, free)))
    {
      if |req.token| < 32 { return Refused(BadRequest); }
      if |req.name| == 0 || |req.name| > 64 { return Refused(BadRequest); }
      if |req.endpoints| > 16 { return Refused(BadRequest); }
      var fp := TokenFingerprint(p, req.token);
      var id;
      if req.id.Some? {
        id := req.id.value;
        if !IsValidId(id) { return Refused(BadRequest); }
        if id in hosts && !CtEq(hosts[id].tokenFp, fp) { return Refused(Forbidden); }
      } else {
        var i := 0;
        id := draw(0);
        while id in hosts
          invariant i <= free && id == draw(i)
          invariant FirstFree(hosts.Keys, draw, i, free) == FirstFree(hosts.Keys, draw, 0, free)
          decreases free - i
        {
          i := i + 1;
          id := draw(i);
        }
      }
      var rec := HostRecord(id, fp, req.name, req.platform, req.endpoints, req.passwordSalt,
                            req.agentVersion, Some(now));
      hosts := hosts[id := rec];
      var rt := Touch(id);
      r := Registered(id);
    }

    method KeepAlive(p: Primitives, now: Time, id: Bytes, token: Option<Bytes>, endpoints: Option<seq<Endpoint>>)
      returns (r: Response)
      modifies this
      ensures (View(), r) == Heartbeat(p, old(View()), now, id, token, endpoints)
    {
      var refusal := CheckToken(p, id, token);
      if refusal.Some? { return Refused(refusal.value); }
      var host := hosts[id].(lastSeen := Some(now));
      if endpoints.Some? && |endpoints.value| <= 16 && host.endpoints != endpoints.value {
        host := host.(endpoints := endpoints.value);
      }
      hosts := hosts[id := host];
      r := Alive(id);
    }

    method Describe(now: Time, id: Bytes) returns (r: Response)
      ensures r == Inform(View(), now, id)
      ensures r.Info? <==> id in hosts
    {
      if id !in hosts { return Refused(NotFound); }
      var host := hosts[id];
      var secs := NEVER_SEEN;
      if host.lastSeen.Some? { secs := AsSecs(Since(now, host.lastSeen.value)); }
      r := Info(HostInfo(host.id, host.name, host.platform, secs < OFFLINE_AFTER_SECS, host.endpoints,
                         host.passwordSalt, secs));
    }

    method LookAtQueue(p: Primitives, now: Time, id: Bytes, token: Option<Bytes>) returns (r: Response)
      modifies this
      ensures (View(), r) == PollRequests(p, old(View()), now, id, token)
    {
      var refusal := CheckToken(p, id, token);
      if refusal.Some? { return Refused(refusal.value); }
      hosts := hosts[id := hosts[id].(lastSeen := Some(now))];
      var rt := Touch(id);
      if rt.pending != [] {
        runtime := runtime[id := rt.(pending := [])];
        assert runtime == old(runtime)[id := rt.(pending := [])];
        return Delivered(rt.pending);
      }
      r := Delivered([]);
    }

    method Post(p: Primitives, id: Bytes, token: Option<Bytes>, res: PairResult) returns (r: Response)
      modifies this
      ensures (View(), r) == PostResult(p, old(View()), id, token, res)
    {
      var refusal := CheckToken(p, id, token);
      if refusal.Some? { return Refused(refusal.value); }
      if res.requestId !in results { return Refused(NotFound); }
      results := results[res.requestId := results[res.requestId].(result := Some(res))];
      r := Posted;
    }

    method Issue(now: Time, id: Bytes, rid: Bytes, chal: Bytes) returns (r: Response)
      modifies this
      ensures (View(), r) == IssueChallenge(old(View()), now, id, rid, chal)
    {
      if id !in hosts { return Refused(NotFound); }
      var rt := Touch(id);
      var times := rt.challengeTimes;
      while times != [] && Since(now, times[0]) > MINUTE
        invariant Prune(times, now) == Prune(rt.challengeTimes, now)
      {
        times := times[1..];
      }
      runtime := runtime[id := rt.(challengeTimes := times)];
      assert runtime == old(runtime)[id := rt.(challengeTimes := times)];
      if |times| >= CHALLENGES_PER_MINUTE { return Refused(TooManyRequests); }
      runtime := runtime[id := rt.(challengeTimes := times + [now])];
      assert runtime == old(runtime)[id := rt.(challengeTimes := times + [now])];
      challenges := challenges[rid := Challenge(id, chal, now)];
      r := Issued(rid, chal);
    }

    method Submit(now: Time, id: Bytes, req: SubmitPairRequest) returns (r: Response)
      modifies this
      ensures (View(), r) == SubmitPair(old(View()), now, id, req)
      ensures WellFormedSubmit(req) ==> req.requestId !in challenges
    {
      if |req.deviceName| == 0 || |req.deviceName| > 64 { return Refused(BadRequest); }
      if |req.response| != 64 || |req.sealedPin| > 256 { return Refused(BadRequest); }
      if req.requestId !in challenges { return Refused(NotFound); }
      var ch := challenges[req.requestId];
      challenges := challenges - {req.requestId};
      if ch.hostId != id { return Refused(BadRequest); }
      if AsSecs(Since(now, ch.created)) >= CHALLENGE_TTL_SECS { return Refused(Gone); }
      var online := id in hosts && hosts[id].lastSeen.Some?
                    && AsSecs(Since(now, hosts[id].lastSeen.value)) < OFFLINE_AFTER_SECS;
      if !online { return Refused(Unavailable); }
      var pr := PairRequest(req.requestId, ch.challenge, req.response, req.deviceName, req.clientUid,
                            req.sealedPin, req.remember);
      results := results[req.requestId := ResultSlot(None, now)];
      var rt := Touch(id);
      runtime := runtime[id := rt.(pending := rt.pending + [pr])];
      assert runtime == old(runtime)[id := rt.(pending := rt.pending + [pr])];
      r := Queued;
    }

    method LookAtResult(rid: Bytes) returns (r: Response)
      ensures r == PollResult(View(), rid)
      ensures r.Answer? && r.result.Some? <==> rid in results && results[rid].result.Some?
    {
      if rid !in results { return Refused(NotFound); }
      r := Answer(results[rid].result);
    }
  }
}
