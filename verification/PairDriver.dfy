/** The driver: runs a whole pairing over a network that may answer anything, and
    asks the host to forget the client whenever it fails. */
module PairDriver {
  import opened ByteStrings
  import opened Handshake
  import opened PairingWire
  import opened PairingRuns
  import opened Pairing

  type NetError = nat

  datatype DriverError = Net(error: NetError) | OldServer(major: nat) | Refused(reason: PairError)

  datatype Call =
    | ServerInfo
    | PairHttp(step: Step, timeout: Option<nat>)
    | PairHttps(step: Step, pinned: Bytes)
    | Unpair

  /** What the network answers to the i-th `/pair` request. */
  type Network = nat -> Result<Body, NetError>

  const SHORT: Option<nat> := Some(5)

  function RequestCall(c: Client<Byte>, step: Step, timeout: Option<nat>): Call
    requires step.https ==> c.serverCert.Some?
  {
    if step.https then PairHttps(step, c.serverCert.value) else PairHttp(step, timeout)
  }

  /** The result of a pairing and the calls it made. */
  type Drive = (Result<Bytes, DriverError>, seq<Call>)

  /** The rest of a pairing from the i-th request on: its result and its calls. */
  function DriveFrom(suite: Suite<Byte>, c: Client<Byte>, step: Step, i: nat, net: Network, timeout: Option<nat>)
    : Drive
    requires Sound(c) && (step.https ==> c.phase >= 1)
    decreases 5 - c.phase
  {
    var call := RequestCall(c, step, timeout);
    match net(i)
    case Err(e) => (Err(Net(e)), [call, Unpair])
    case Ok(body) =>
      var (c', out) := Feed(suite, c, body);
      match out
      case Err(e) => (Err(Refused(e)), [call, Unpair])
      case Ok(None) => (Ok(c'.serverCert.value), [call])
      case Ok(Some(step')) =>
        var (r, calls) := DriveFrom(suite, c', step', i + 1, net, SHORT);
        (r, [call] + calls)
  }

  predicate IsRequest(call: Call) {
    call.PairHttp? || call.PairHttps?
  }

  /** One turn of the driver. */
  lemma DriveTurn(suite: Suite<Byte>, c: Client<Byte>, step: Step, i: nat, net: Network, timeout: Option<nat>, f: Fed)
    requires Sound(c) && (step.https ==> c.phase >= 1)
    requires net(i).Ok? && Feed(suite, c, net(i).value) == f
    ensures f.1.Ok? && f.1.value.Some? ==> Sound(f.0) && f.0.phase >= 1
    ensures DriveFrom(suite, c, step, i, net, timeout) ==
            var call := RequestCall(c, step, timeout);
            if f.1.Err? then (Err(Refused(f.1.error)), [call, Unpair])
            else if f.1.value.None? then (Ok(f.0.serverCert.value), [call])
            else
              var d := DriveFrom(suite, f.0, f.1.value.value, i + 1, net, SHORT);
              (d.0, [call] + d.1)
  {
  }

  /** The calls from the request of some phase on: requests, at most one per phase
      left, HTTPS only in phase 4 and plain ones with the short timeout after the
      first; then one `unpair` exactly when the pairing failed. */
  predicate WellShaped(phase: nat, ok: bool, calls: seq<Call>, timeout: Option<nat>)
    requires phase <= 4
  {
    var n := if ok then |calls| else |calls| - 1;
    && 1 <= n <= 5 - phase
    && (if ok then n == 5 - phase else calls[n] == Unpair)
    && (forall k | 0 <= k < n :: IsRequest(calls[k]))
    && (forall k | 0 <= k < n :: calls[k].PairHttps? <==> phase + k == 4)
    && (forall k | 0 <= k < n && calls[k].PairHttp? :: calls[k].timeout == if k == 0 then timeout else SHORT)
  }

  lemma ShapeGrows(phase: nat, ok: bool, calls: seq<Call>, call: Call, timeout: Option<nat>)
    requires 1 <= phase <= 4 && WellShaped(phase, ok, calls, SHORT)
    requires call.PairHttp? && call.timeout == timeout
    ensures WellShaped(phase - 1, ok, [call] + calls, timeout)
  {
    assert forall k | 1 <= k <= |calls| :: ([call] + calls)[k] == calls[k - 1];
  }

  /** Whatever the network does, a pairing makes at most five requests, the fifth
      alone over HTTPS, and ends with one `unpair` exactly when it failed. */
  lemma {:induction false} DriveShape(suite: Suite<Byte>, c: Client<Byte>, step: Step, i: nat, net: Network,
                                      timeout: Option<nat>)
    requires Sound(c) && c.phase <= 4 && (step.https <==> c.phase == 4)
    ensures var (r, calls) := DriveFrom(suite, c, step, i, net, timeout);
      WellShaped(c.phase, r.Ok?, calls, timeout)
    decreases 5 - c.phase
  {
    if net(i).Err? {
    } else {
      var f := Feed(suite, c, net(i).value);
      DriveTurn(suite, c, step, i, net, timeout, f);
      if f.1.Ok? && f.1.value.Some? {
        DriveShape(suite, f.0, f.1.value.value, i + 1, net, SHORT);
        var d := DriveFrom(suite, f.0, f.1.value.value, i + 1, net, SHORT);
        ShapeGrows(f.0.phase, d.0.Ok?, d.1, RequestCall(c, step, timeout), timeout);
      }
    }
  }

  /** The first n answers of the network, as heard by the client. */
  function HeardFrom(net: Network, n: nat): Heard
    requires forall k | 0 <= k < n :: net(k).Ok?
  {
    if n == 0 then Silence else Hear(HeardFrom(net, n - 1), net(n - 1).value)
  }

  predicate Answers(net: Network, n: nat) {
    forall k | 0 <= k < n :: net(k).Ok?
  }

  /** The driver succeeds exactly when the network answers five times and the
      client accepts all five answers; it then returns the certificate taken from
      the first, backed by everything `ClientSafety` asks. */
  lemma {:induction false} DriveSucceedsExactly(suite: Suite<Byte>, start: Client<Byte>, c: Client<Byte>, step: Step,
                                                i: nat, net: Network, timeout: Option<nat>)
    requires Sound(start) && start.phase == 0 && i <= 4 && Answers(net, i)
    requires c == ClientAfter(suite, start, HeardFrom(net, i)) && c.phase == i
    requires step.https ==> c.phase >= 1
    ensures var r := DriveFrom(suite, c, step, i, net, timeout).0;
      && (r.Ok? <==> Answers(net, 5) && ClientAfter(suite, start, HeardFrom(net, 5)).phase == 5)
      && (r.Ok? ==> ClientAfter(suite, start, HeardFrom(net, 5)).serverCert == Some(r.value))
    decreases 5 - i
  {
    if net(i).Ok? {
      assert Answers(net, i + 1);
      var f := Feed(suite, c, net(i).value);
      assert f.0 == ClientAfter(suite, start, HeardFrom(net, i + 1));
      DriveTurn(suite, c, step, i, net, timeout, f);
      if f.1.Err? {
        StaysBehind(suite, start, net, i + 1);
      } else if f.1.value.Some? {
        DriveSucceedsExactly(suite, start, f.0, f.1.value.value, i + 1, net, SHORT);
      }
    }
  }

  /** A client that is a phase behind after i answers is not done after five. */
  lemma {:induction false} StaysBehind(suite: Suite<Byte>, start: Client<Byte>, net: Network, i: nat)
    requires Sound(start) && i <= 5 && Answers(net, i)
    requires ClientAfter(suite, start, HeardFrom(net, i)).phase < i
    ensures Answers(net, 5) ==> ClientAfter(suite, start, HeardFrom(net, 5)).phase < 5
    decreases 5 - i
  {
    if i == 5 || net(i).Err? {
    } else {
      assert Answers(net, i + 1);
      var c := ClientAfter(suite, start, HeardFrom(net, i));
      assert ClientAfter(suite, start, HeardFrom(net, i + 1)) == Feed(suite, c, net(i).value).0;
      StaysBehind(suite, start, net, i + 1);
    }
  }

  // -------------------------------------------------------------------------
  // What the requests carry

  /** The step of the k-th request: the written first message, or what the client
      made of the first k answers. */
  predicate IsStep(suite: Suite<Byte>, start: Client<Byte>, net: Network, k: nat, step: Step)
    requires Sound(start)
  {
    if k == 0 then step == WriteStep(FirstRequest(suite, start))
    else
      && Answers(net, k)
      && var before := ClientAfter(suite, start, HeardFrom(net, k - 1));
         before.phase == k - 1
         && Feed(suite, before, net(k - 1).value) == (ClientAfter(suite, start, HeardFrom(net, k)), Ok(Some(step)))
  }

  /** The k-th request of a drive: its step as above, over plain HTTP with the given
      timeout for the first and five seconds for the next three, and over HTTPS,
      pinned to the certificate that the first answer delivered, for the fifth. */
  predicate IsKthCall(suite: Suite<Byte>, start: Client<Byte>, net: Network, k: nat, call: Call, timeout: Option<nat>)
    requires Sound(start)
  {
    if k < 4 then
      && call.PairHttp? && IsStep(suite, start, net, k, call.step)
      && call.timeout == if k == 0 then timeout else Some(5)
    else
      && call.PairHttps? && IsStep(suite, start, net, k, call.step)
      && DeliversCert(net(0).value, call.pinned)
  }

  lemma CertStep(suite: Suite<Byte>, c: Client<Byte>, body: Body)
    requires Sound(c) && Feed(suite, c, body).1.Ok?
    ensures var c' := Feed(suite, c, body).0;
      && c'.serverCert.Some?
      && (if c.phase == 0 then DeliversCert(body, c'.serverCert.value) else c'.serverCert == c.serverCert)
  {
    if c.phase == 0 {
      FeedJustifies(suite, c, body);
    } else {
      FeedKeepsSelf(suite, c, body);
    }
  }

  /** A client that accepted every answer so far accepted the last. */
  lemma LastWasAccepted(suite: Suite<Byte>, start: Client<Byte>, net: Network, n: nat)
    requires Sound(start) && start.phase == 0 && 1 <= n <= 4 && Answers(net, n)
    requires ClientAfter(suite, start, HeardFrom(net, n)).phase == n
    ensures ClientAfter(suite, start, HeardFrom(net, n - 1)).phase == n - 1
    ensures Feed(suite, ClientAfter(suite, start, HeardFrom(net, n - 1)), net(n - 1).value).1.Ok?
    ensures ClientAfter(suite, start, HeardFrom(net, n)) ==
            Feed(suite, ClientAfter(suite, start, HeardFrom(net, n - 1)), net(n - 1).value).0
  {
    PhaseAtMost(suite, start, net, n - 1);
  }

  /** The certificate a client holds is the one its first answer delivered. */
  lemma {:induction false} CertIsFirstHeard(suite: Suite<Byte>, start: Client<Byte>, net: Network, n: nat)
    requires Sound(start) && start.phase == 0 && 1 <= n <= 4 && Answers(net, n)
    requires ClientAfter(suite, start, HeardFrom(net, n)).phase == n
    ensures ClientAfter(suite, start, HeardFrom(net, n)).serverCert.Some?
    ensures DeliversCert(net(0).value, ClientAfter(suite, start, HeardFrom(net, n)).serverCert.value)
  {
    LastWasAccepted(suite, start, net, n);
    CertStep(suite, ClientAfter(suite, start, HeardFrom(net, n - 1)), net(n - 1).value);
    if n == 1 {
    } else {
      CertIsFirstHeard(suite, start, net, n - 1);
    }
  }

  lemma {:induction false} PhaseAtMost(suite: Suite<Byte>, start: Client<Byte>, net: Network, n: nat)
    requires Sound(start) && start.phase == 0 && Answers(net, n)
    ensures ClientAfter(suite, start, HeardFrom(net, n)).phase <= n
  {
    if n == 0 {
    } else {
      PhaseAtMost(suite, start, net, n - 1);
    }
  }

  predicate AreCallsFrom(suite: Suite<Byte>, start: Client<Byte>, net: Network, i: nat, calls: seq<Call>,
                         timeout: Option<nat>)
    requires Sound(start)
  {
    forall k | 0 <= k < |calls| && calls[k] != Unpair :: IsKthCall(suite, start, net, i + k, calls[k], timeout)
  }

  lemma OneCallBefore(suite: Suite<Byte>, start: Client<Byte>, net: Network, i: nat, call: Call, calls: seq<Call>,
                      timeout: Option<nat>)
    requires Sound(start) && IsKthCall(suite, start, net, i, call, timeout)
    requires AreCallsFrom(suite, start, net, i + 1, calls, timeout)
    ensures AreCallsFrom(suite, start, net, i, [call] + calls, timeout)
  {
    var all := [call] + calls;
    forall k | 0 <= k < |all| && all[k] != Unpair ensures IsKthCall(suite, start, net, i + k, all[k], timeout) {
      if k > 0 {
        assert all[k] == calls[k - 1];
        assert i + k == i + 1 + (k - 1);
      }
    }
  }

  lemma CallIsDue(suite: Suite<Byte>, start: Client<Byte>, c: Client<Byte>, step: Step, i: nat, net: Network,
                  timeout: Option<nat>)
    requires Sound(start) && start.phase == 0 && i <= 4 && Answers(net, i)
    requires c == ClientAfter(suite, start, HeardFrom(net, i)) && c.phase == i
    requires IsStep(suite, start, net, i, step) && (step.https <==> i == 4)
    ensures IsKthCall(suite, start, net, i, RequestCall(c, step, if i == 0 then timeout else SHORT), timeout)
  {
    if i == 4 { CertIsFirstHeard(suite, start, net, 4); }
  }

  /** For every network, the k-th request of a drive is the one due. */
  lemma {:induction false} DriveCarries(suite: Suite<Byte>, start: Client<Byte>, c: Client<Byte>, step: Step, i: nat,
                                        net: Network, timeout: Option<nat>)
    requires Sound(start) && start.phase == 0 && i <= 4 && Answers(net, i)
    requires c == ClientAfter(suite, start, HeardFrom(net, i)) && c.phase == i
    requires IsStep(suite, start, net, i, step) && (step.https <==> i == 4)
    ensures AreCallsFrom(suite, start, net, i,
                         DriveFrom(suite, c, step, i, net, if i == 0 then timeout else SHORT).1, timeout)
    decreases 5 - i
  {
    var limit := if i == 0 then timeout else SHORT;
    var call := RequestCall(c, step, limit);
    CallIsDue(suite, start, c, step, i, net, timeout);
    LastCall(suite, start, net, i, call, timeout);
    if net(i).Ok? {
      var f := Feed(suite, c, net(i).value);
      DriveTurn(suite, c, step, i, net, limit, f);
      if f.1.Ok? && f.1.value.Some? {
        StepFollows(suite, start, c, i, net, f);
        DriveCarries(suite, start, f.0, f.1.value.value, i + 1, net, timeout);
        OneCallBefore(suite, start, net, i, call,
                      DriveFrom(suite, f.0, f.1.value.value, i + 1, net, SHORT).1, timeout);
      }
    }
  }

  lemma LastCall(suite: Suite<Byte>, start: Client<Byte>, net: Network, i: nat, call: Call, timeout: Option<nat>)
    requires Sound(start) && IsKthCall(suite, start, net, i, call, timeout)
    ensures AreCallsFrom(suite, start, net, i, [call], timeout)
    ensures AreCallsFrom(suite, start, net, i, [call, Unpair], timeout)
  {
  }

  lemma StepFollows(suite: Suite<Byte>, start: Client<Byte>, c: Client<Byte>, i: nat, net: Network, f: Fed)
    requires Sound(start) && i <= 4 && Answers(net, i) && net(i).Ok?
    requires c == ClientAfter(suite, start, HeardFrom(net, i)) && c.phase == i
    requires f == Feed(suite, c, net(i).value) && f.1.Ok? && f.1.value.Some?
    ensures Answers(net, i + 1) && f.0 == ClientAfter(suite, start, HeardFrom(net, i + 1))
    ensures f.0.phase == i + 1 <= 4 && (f.1.value.value.https <==> i + 1 == 4)
    ensures IsStep(suite, start, net, i + 1, f.1.value.value)
  {
  }

  /** One request, and what its answer makes of the client. */
  method Exchange(pairing: Pairing, step: Step, i: nat, net: Network, timeout: Option<nat>)
    returns (call: Call, next: Result<Option<Step>, DriverError>)
    requires pairing.Valid() && (step.https ==> pairing.phase >= 1)
    modifies pairing
    ensures pairing.Valid()
    ensures var d := DriveFrom(pairing.suite, old(pairing.View()), step, i, net, timeout);
      if next.Err? then d == (Err(next.error), [call, Unpair])
      else if next.value.None? then pairing.serverCertPem.Some? && d == (Ok(pairing.serverCertPem.value), [call])
      else
        && pairing.phase == old(pairing.phase) + 1 <= 4
        && var rest := DriveFrom(pairing.suite, pairing.View(), next.value.value, i + 1, net, SHORT);
           d == (rest.0, [call] + rest.1)
  {
    ghost var c := pairing.View();
    call := if step.https then PairHttps(step, pairing.serverCertPem.value) else PairHttp(step, timeout);
    var body := net(i);
    if body.Err? { return call, Err(Net(body.error)); }
    var r := pairing.Next(body.value);
    DriveTurn(pairing.suite, c, step, i, net, timeout, (pairing.View(), r));
    next := match r case Err(e) => Err(Refused(e)) case Ok(s) => Ok(s);
  }

  /** A whole drive, some calls into it. */
  predicate Underway(whole: Drive, calls: seq<Call>, rest: Drive) {
    whole == (rest.0, calls + rest.1)
  }

  lemma OneCallOn(whole: Drive, calls: seq<Call>, call: Call, rest: Drive)
    requires Underway(whole, calls, (rest.0, [call] + rest.1))
    ensures Underway(whole, calls + [call], rest)
  {
    assert calls + ([call] + rest.1) == (calls + [call]) + rest.1;
  }

  lemma GivenUp(whole: Drive, calls: seq<Call>, call: Call, e: DriverError)
    requires Underway(whole, calls, (Err(e), [call, Unpair]))
    ensures whole == (Err(e), calls + [call] + [Unpair])
  {
    assert calls + [call, Unpair] == calls + [call] + [Unpair];
  }

  /** The loop of `pair`. */
  method DriveLoop(pairing: Pairing, net: Network, firstTimeout: Option<nat>)
    returns (r: Result<Bytes, DriverError>, calls: seq<Call>)
    requires pairing.Valid() && pairing.phase == 0
    modifies pairing
    ensures (r, calls) == DriveFrom(pairing.suite, old(pairing.View()),
                                    WriteStep(FirstRequest(pairing.suite, old(pairing.View()))), 0, net, firstTimeout)
  {
    calls := [];
    var step := pairing.Begin();
    var timeout := firstTimeout;
    var i := 0;
    ghost var whole := DriveFrom(pairing.suite, pairing.View(), step, 0, net, timeout);
    assert [] + whole.1 == whole.1;
    while true
      invariant pairing.Valid() && (step.https ==> pairing.phase >= 1)
      invariant Underway(whole, calls, DriveFrom(pairing.suite, pairing.View(), step, i, net, timeout))
      decreases 5 - pairing.phase
    {
      var call, next := Exchange(pairing, step, i, net, timeout);
      if next.Err? {
        GivenUp(whole, calls, call, next.error);
        return Err(next.error), calls + [call] + [Unpair];
      }
      if next.value.None? { return Ok(pairing.serverCertPem.value), calls + [call]; }
      timeout, i, step := SHORT, i + 1, next.value.value;
      OneCallOn(whole, calls, call, DriveFrom(pairing.suite, pairing.View(), step, i, net, timeout));
      calls := calls + [call];
    }
  }

  /** `pair`: asks for the server version first, then drives a fresh client. */
  method PairOver(suite: Suite<Byte>, certPem: Bytes, privateKey: Bytes, pin: Bytes, otp: Option<OtpAuth<Byte>>,
                  salt: Bytes, randChallenge: Bytes, clientSecret: Bytes,
                  info: Result<nat, NetError>, net: Network, firstTimeout: Option<nat>)
    returns (r: Result<Bytes, DriverError>, calls: seq<Call>)
    requires BlockLaws(suite) && OnBytes(suite)
    requires |salt| == |randChallenge| == |clientSecret| == 16
    ensures info.Err? ==> r == Err(Net(info.error)) && calls == [ServerInfo]
    ensures info.Ok? && info.value < 7 ==> r == Err(OldServer(info.value)) && calls == [ServerInfo]
    ensures info.Ok? && info.value >= 7 ==>
      var c := NewClient(suite, certPem, privateKey, pin, otp, salt, randChallenge, clientSecret);
      var d := DriveFrom(suite, c, WriteStep(FirstRequest(suite, c)), 0, net, firstTimeout);
      && r == d.0 && calls == [ServerInfo] + d.1
      && WellShaped(0, r.Ok?, calls[1..], firstTimeout)
      && AreCallsFrom(suite, c, net, 0, calls[1..], firstTimeout)
      && (r.Ok? ==> Answers(net, 5) && ClientAfter(suite, c, HeardFrom(net, 5)).serverCert == Some(r.value)
                    && ClientAfter(suite, c, HeardFrom(net, 5)).phase == 5)
  {
    calls := [ServerInfo];
    if info.Err? { return Err(Net(info.error)), calls; }
    if info.value < 7 { return Err(OldServer(info.value)), calls; }
    var pairing := new Pairing(suite, certPem, privateKey, pin, otp, salt, randChallenge, clientSecret);
    ghost var c := pairing.View();
    ghost var first := WriteStep(FirstRequest(suite, c));
    var rest;
    r, rest := DriveLoop(pairing, net, firstTimeout);
    calls := calls + rest;
    assert calls[1..] == rest;
    DriveShape(suite, c, first, 0, net, firstTimeout);
    DriveCarries(suite, c, c, first, 0, net, firstTimeout);
    DriveSucceedsExactly(suite, c, c, first, 0, net, firstTimeout);
  }
}
