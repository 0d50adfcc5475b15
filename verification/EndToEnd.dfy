/** Clients, the rendezvous server and a host agent together: the PIN the agent
    submits for a request is the one its client sealed. Anybody else may call the
    server in between, with any request. */
module EndToEnd {
  import opened ByteStrings
  import opened Proto
  import opened Rendezvous
  import opened Histories
  import A = Agent
  import H = Handshake
  import W = PairingWire
  import R = PairingRuns

  /** What a client brings to a pairing: the password hash it has, the PIN and the
      nonce it draws, and how it is to be called and kept. */
  datatype Choice = Choice(h1: Bytes, pin: Bytes, nonce: Bytes, device: Bytes, uid: Option<Bytes>, remember: bool)

  /** A client in the middle of `pair_with`; `slot` remembers which acceptance of
      the host was its own. */
  datatype Party =
    | Asked(host: Bytes, rid: Bytes, chal: Bytes)
    | Sent(host: Bytes, rid: Bytes, chal: Bytes, choice: Choice, submission: SubmitPairRequest, slot: nat)
    | TurnedAway

  datatype Act =
    | Serve(op: Op)
    | Ask(client: nat, host: Bytes, rid: Bytes, chal: Bytes)
    | Send(client: nat, choice: Choice)

  datatype Run = Begin | Do(past: Run, now: Time, act: Act)

  datatype System = System(history: History, parties: map<nat, Party>)

  /** The request a client builds for the challenge it was given. */
  function ClientRequest(p: Primitives, rid: Bytes, chal: Bytes, c: Choice): Result<SubmitPairRequest, CryptoError> {
    match SealPin(p, PairKey(p, c.h1, chal), c.pin, c.nonce)
    case Err(e) => Err(e)
    case Ok(sealed) =>
      Ok(SubmitPairRequest(rid, ChallengeResponse(p, c.h1, chal), c.device, c.uid, sealed, c.remember))
  }

  /** The locked section an act runs, if it runs one. */
  function OpOf(p: Primitives, sys: System, act: Act): Option<Op> {
    match act
    case Serve(op) => Some(op)
    case Ask(_, host, rid, chal) => Some(DoChallenge(host, rid, chal))
    case Send(k, choice) =>
      if k !in sys.parties || !sys.parties[k].Asked? then None
      else
        var party := sys.parties[k];
        match ClientRequest(p, party.rid, party.chal, choice)
        case Err(_) => None
        case Ok(req) => Some(DoSubmit(party.host, req))
  }

  function NextParties(p: Primitives, sys: System, h: History, act: Act): map<nat, Party>
    requires h.Then?
  {
    var answer := LastResponse(p, h);
    match act
    case Serve(_) => sys.parties
    case Ask(k, host, rid, chal) =>
      sys.parties[k := if answer == Issued(rid, chal) then Asked(host, rid, chal) else TurnedAway]
    case Send(k, choice) =>
      if h.op.DoSubmit? && k in sys.parties && sys.parties[k].Asked? then
        var asked := sys.parties[k];
        sys.parties[k := if answer == Queued
                         then Sent(asked.host, asked.rid, asked.chal, choice, h.op.submission,
                                   |Acceptances(p, h.past, h.op.id)|)
                         else TurnedAway]
      else sys.parties
  }

  function Reached(p: Primitives, run: Run): System {
    match run
    case Begin => System(Start, map[])
    case Do(past, now, act) =>
      var sys := Reached(p, past);
      match OpOf(p, sys, act)
      case None => sys
      case Some(op) =>
        var h := Then(sys.history, now, op);
        System(h, NextParties(p, sys, h, act))
  }

  /** Clients start once, seal a four-digit PIN under a 12-byte nonce, and what the
      server draws is fresh. */
  predicate Legal(p: Primitives, run: Run) {
    run.Do? ==>
      && Legal(p, run.past)
      && var sys := Reached(p, run.past);
         && Now(sys.history) <= run.now
         && (OpOf(p, sys, run.act).Some? ==> Fresh(p, sys.history, OpOf(p, sys, run.act).value))
         && (run.act.Ask? ==> run.act.client !in sys.parties)
         && (run.act.Send? ==> IsValidPin(run.act.choice.pin) && |run.act.choice.nonce| == 12)
  }

  lemma {:induction false} HistoryIsValid(p: Primitives, run: Run)
    requires Legal(p, run)
    ensures Valid(p, Reached(p, run).history)
  {
    if run.Begin? {
    } else {
      HistoryIsValid(p, run.past);
    }
  }

  // -------------------------------------------------------------------------
  // What holds of a client's request on its way

  /** The request the host is to see from a client, written out: the response that
      proves the password hash, the names as chosen, and the PIN sealed under the
      key hashed from the password hash and the challenge. */
  function AsChosen(p: Primitives, rid: Bytes, chal: Bytes, c: Choice): PairRequest {
    PairRequest(
      requestId := rid,
      challenge := chal,
      response := Hex(p.sha(c.h1 + chal)),
      deviceName := c.device,
      clientUid := c.uid,
      sealedPin := Hex(c.nonce + p.seal(p.sha(Ascii("ra-pair-v1") + c.h1 + chal), c.nonce, c.pin)),
      remember := c.remember)
  }

  lemma BuiltAsChosen(p: Primitives, rid: Bytes, chal: Bytes, c: Choice)
    ensures ClientRequest(p, rid, chal, c).Ok? <==> IsValidPin(c.pin)
    ensures ClientRequest(p, rid, chal, c).Ok? ==>
              Answering(ClientRequest(p, rid, chal, c).value, chal) == AsChosen(p, rid, chal, c)
  {
  }

  ghost predicate PartySound(p: Primitives, h: History, party: Party) {
    match party
    case Asked(host, rid, chal) =>
      rid in Minted(p, h) && Minted(p, h)[rid].hostId == host && Minted(p, h)[rid].challenge == chal
    case Sent(host, rid, chal, choice, sub, slot) =>
      && IsValidPin(choice.pin) && |choice.nonce| == 12
      && Answering(sub, chal) == AsChosen(p, rid, chal, choice)
      && rid in Minted(p, h) && Minted(p, h)[rid].challenge == chal
      && slot < |Acceptances(p, h, host)| && Acceptances(p, h, host)[slot].what == sub
    case TurnedAway => true
  }

  lemma AcceptancesGrow(p: Primitives, h: History, id: Bytes, i: nat)
    requires h.Then? && i < |Acceptances(p, h.past, id)|
    ensures i < |Acceptances(p, h, id)| && Acceptances(p, h, id)[i] == Acceptances(p, h.past, id)[i]
  {
  }

  lemma PartyStaysSound(p: Primitives, h: History, party: Party)
    requires Valid(p, h) && h.Then? && PartySound(p, h.past, party)
    ensures PartySound(p, h, party)
  {
    match party {
      case Asked(host, rid, chal) => MintedGrows(p, h.past, h, rid);
      case Sent(host, rid, chal, choice, sub, slot) =>
        MintedGrows(p, h.past, h, rid);
        AcceptancesGrow(p, h, host, slot);
      case TurnedAway =>
    }
  }

  lemma SenderIsSound(p: Primitives, h: History, party: Party, choice: Choice)
    requires Valid(p, h) && h.Then? && party.Asked? && PartySound(p, h.past, party)
    requires IsValidPin(choice.pin) && |choice.nonce| == 12
    requires h.op == DoSubmit(party.host, ClientRequest(p, party.rid, party.chal, choice).value)
    requires LastResponse(p, h) == Queued
    ensures PartySound(p, h, Sent(party.host, party.rid, party.chal, choice, h.op.submission,
                                  |Acceptances(p, h.past, h.op.id)|))
  {
    MintedGrows(p, h.past, h, party.rid);
    BuiltAsChosen(p, party.rid, party.chal, choice);
  }

  lemma {:induction false} PartiesAreSound(p: Primitives, run: Run, k: nat)
    requires Legal(p, run) && k in Reached(p, run).parties
    ensures PartySound(p, Reached(p, run).history, Reached(p, run).parties[k])
  {
    var sys, sys' := Reached(p, run.past), Reached(p, run);
    HistoryIsValid(p, run);
    if k in sys.parties { PartiesAreSound(p, run.past, k); }
    if OpOf(p, sys, run.act).Some? {
      if k in sys.parties && sys'.parties[k] == sys.parties[k] {
        PartyStaysSound(p, sys'.history, sys.parties[k]);
      } else if run.act.Send? && LastResponse(p, sys'.history) == Queued {
        SenderIsSound(p, sys'.history, sys.parties[k], run.act.choice);
      }
    }
  }

  /** A delivered request under the id a client was given went to that client's
      host and is, field by field, what the client chose to send. */
  lemma DeliveredIsTheClients(p: Primitives, run: Run, k: nat, id: Bytes, i: nat)
    requires Legal(p, run) && k in Reached(p, run).parties && Reached(p, run).parties[k].Sent?
    requires i < |Deliveries(p, Reached(p, run).history, id)|
    requires Deliveries(p, Reached(p, run).history, id)[i].requestId == Reached(p, run).parties[k].rid
    ensures var party := Reached(p, run).parties[k];
      && id == party.host
      && Deliveries(p, Reached(p, run).history, id)[i] == AsChosen(p, party.rid, party.chal, party.choice)
  {
    var h := Reached(p, run).history;
    var party := Reached(p, run).parties[k];
    HistoryIsValid(p, run);
    PartiesAreSound(p, run, k);
    Conservation(p, h, id);
    assert Deliveries(p, h, id)[i] == Enqueued(p, h, id)[i];
    AcceptedOnce(p, h, id, i, party.host, party.slot);
  }

  /** What a client chose to send, once accepted, is in its host's hands or in its
      queue: nobody can make it vanish. */
  lemma SubmissionIsOnItsWay(p: Primitives, run: Run, k: nat)
    requires Legal(p, run) && k in Reached(p, run).parties && Reached(p, run).parties[k].Sent?
    ensures var h, party := Reached(p, run).history, Reached(p, run).parties[k];
      AsChosen(p, party.rid, party.chal, party.choice) in
        Deliveries(p, h, party.host) + RuntimeOf(After(p, h), party.host).pending
  {
    var h, party := Reached(p, run).history, Reached(p, run).parties[k];
    HistoryIsValid(p, run);
    PartiesAreSound(p, run, k);
    Conservation(p, h, party.host);
    assert Enqueued(p, h, party.host)[party.slot] == AsChosen(p, party.rid, party.chal, party.choice);
  }

  // -------------------------------------------------------------------------
  // What the agent makes of it

  /** Holding the client's `h1`, the host opens the client's PIN; holding another,
      it refuses, unless the hash collides on the two strings compared. */
  lemma JudgedByPassword(p: Primitives, rid: Bytes, chal: Bytes, c: Choice, hostH1: Bytes)
    requires p.Laws() && IsValidPin(c.pin) && |c.nonce| == 12
    ensures hostH1 == c.h1 ==> A.Judge(p, hostH1, AsChosen(p, rid, chal, c)) == A.Accepts(c.pin)
    ensures A.Judge(p, hostH1, AsChosen(p, rid, chal, c)).WrongResponse? <==>
            p.sha(c.h1 + chal) != p.sha(hostH1 + chal)
    ensures hostH1 != c.h1 <==> c.h1 + chal != hostH1 + chal
  {
    ResponseMatches(p, c.h1, hostH1, chal);
    SealOpen(p, PairKey(p, c.h1, chal), c.pin, c.nonce);
  }

  /** Over every run of clients, server and anybody else: whatever the agent of
      the host does with a request that reached it under the id of a client's
      accepted submission, it submits to Apollo only the PIN that client sealed,
      if both hold the same `h1`; with another `h1` and no collision of the hash
      on the two strings compared, it submits no PIN and reports `Rejected`. */
  lemma PinAgreement(p: Primitives, run: Run, k: nat, id: Bytes, i: nat, hostH1: Bytes,
                     permissions: nat, name: Bytes, env: A.Surroundings)
    requires p.Laws() && A.Paced(env)
    requires Legal(p, run) && k in Reached(p, run).parties && Reached(p, run).parties[k].Sent?
    requires i < |Deliveries(p, Reached(p, run).history, id)|
    requires Deliveries(p, Reached(p, run).history, id)[i].requestId == Reached(p, run).parties[k].rid
    ensures var party := Reached(p, run).parties[k];
      var pr := Deliveries(p, Reached(p, run).history, id)[i];
      var done := A.Handle(p, hostH1, permissions, pr, name, env);
      && id == party.host
      && (hostH1 == party.choice.h1 ==>
            && A.Judge(p, hostH1, pr) == A.Accepts(party.choice.pin)
            && (done.submissions > 0 ==> done.pin == party.choice.pin))
      && (p.sha(party.choice.h1 + party.chal) != p.sha(hostH1 + party.chal) ==>
            && done.submissions == 0 && done.updated.None?
            && A.Report(pr, done.result) == PairResult(pr.requestId, Rejected, Some(A.WRONG_PASSWORD)))
  {
    var party := Reached(p, run).parties[k];
    PartiesAreSound(p, run, k);
    DeliveredIsTheClients(p, run, k, id, i);
    JudgedByPassword(p, party.rid, party.chal, party.choice, hostH1);
    A.HandleGuarantees(p, hostH1, permissions, Deliveries(p, Reached(p, run).history, id)[i], name, env);
  }

  /** In terms of passwords, the host's salt being the one it publishes: the right
      password gets the client's PIN submitted and no other; a wrong one gets the
      request rejected, unless the hash collides where it is used. */
  lemma PasswordDecides(p: Primitives, run: Run, k: nat, id: Bytes, i: nat, password: Bytes, hostPassword: Bytes,
                        salt: Bytes, permissions: nat, name: Bytes, env: A.Surroundings)
    requires p.Laws() && A.Paced(env)
    requires Legal(p, run) && k in Reached(p, run).parties && Reached(p, run).parties[k].Sent?
    requires Reached(p, run).parties[k].choice.h1 == PasswordH1(p, password, salt)
    requires i < |Deliveries(p, Reached(p, run).history, id)|
    requires Deliveries(p, Reached(p, run).history, id)[i].requestId == Reached(p, run).parties[k].rid
    ensures var party := Reached(p, run).parties[k];
      var pr := Deliveries(p, Reached(p, run).history, id)[i];
      var hostH1 := PasswordH1(p, hostPassword, salt);
      var done := A.Handle(p, hostH1, permissions, pr, name, env);
      && (password == hostPassword ==>
            && A.Judge(p, hostH1, pr) == A.Accepts(party.choice.pin)
            && (done.submissions > 0 ==> done.pin == party.choice.pin))
      && (password != hostPassword
          && NoCollision(p, password + salt, hostPassword + salt)
          && NoCollision(p, party.choice.h1 + party.chal, hostH1 + party.chal) ==>
            && done.submissions == 0
            && A.Report(pr, done.result) == PairResult(pr.requestId, Rejected, Some(A.WRONG_PASSWORD)))
  {
    var party := Reached(p, run).parties[k];
    var hostH1 := PasswordH1(p, hostPassword, salt);
    PinAgreement(p, run, k, id, i, hostH1, permissions, name, env);
    PasswordDecidesH1(p, password, hostPassword, salt);
    CancelRight(party.choice.h1, hostH1, party.chal);
  }

  predicate NoCollision(p: Primitives, x: Bytes, y: Bytes) {
    p.sha(x) == p.sha(y) ==> x == y
  }

  /** And the PIN so delivered completes the GameStream pairing of that client:
      once the agent of a host with the client's `h1` has submitted a PIN for its
      request, a pairing that the client attempts with its own PIN against a host
      holding the submitted one goes through. */
  lemma PairingFollows(p: Primitives, run: Run, k: nat, id: Bytes, i: nat, permissions: nat, name: Bytes,
                       env: A.Surroundings, suite: H.Suite<Byte>, c: H.Client<Byte>, h: H.Host<Byte>)
    requires p.Laws() && A.Paced(env)
    requires Legal(p, run) && k in Reached(p, run).parties && Reached(p, run).parties[k].Sent?
    requires i < |Deliveries(p, Reached(p, run).history, id)|
    requires Deliveries(p, Reached(p, run).history, id)[i].requestId == Reached(p, run).parties[k].rid
    requires H.Laws(suite) && W.OnBytes(suite) && H.Ready(suite, c, h) && IsUtf8(c.cert) && R.Presentable(h)
    requires c.otp.None? && c.pin == Reached(p, run).parties[k].choice.pin
    requires var done := A.Handle(p, Reached(p, run).parties[k].choice.h1, permissions,
                                  Deliveries(p, Reached(p, run).history, id)[i], name, env);
      done.submissions > 0 && h.pin == done.pin
    ensures W.TalkAll(suite, c, h).outcome == H.Finished
    ensures W.TalkAll(suite, c, h).client.serverCert == Some(h.cert)
  {
    PinAgreement(p, run, k, id, i, Reached(p, run).parties[k].choice.h1, permissions, name, env);
    assert H.FirstRequest(suite, c).otpauth.None?;
    R.HonestPairingOnTheWire(suite, c, h);
  }

  // -------------------------------------------------------------------------
  // Such runs exist

  const HOST: Bytes := seq(9, i => 49)
  const TOKEN: Bytes := seq(32, i => 48)
  const ONE_BYTE: Bytes := [48]

  /** A host has registered and a client has been given a challenge. */
  lemma AskingRunExists(p: Primitives) returns (run: Run)
    ensures Legal(p, run) && Now(Reached(p, run).history) == 0
    ensures Reached(p, run).parties == map[0 := Asked(HOST, ONE_BYTE, [])]
    ensures forall id :: Deliveries(p, Reached(p, run).history, id) == []
    ensures var s := After(p, Reached(p, run).history);
      && s.challenges == map[ONE_BYTE := Challenge(HOST, [], 0)]
      && HOST in s.hosts && s.hosts[HOST].tokenFp == TokenFingerprint(p, TOKEN) && s.hosts[HOST].lastSeen == Some(0)
      && RuntimeOf(s, HOST).pending == []
  {
    var register := DoRegister(RegisterRequest(None, TOKEN, ONE_BYTE, [], [], [], []), HOST);
    var first := Do(Begin, 0, Serve(register));
    var h1 := Then(Start, 0, register);
    assert LastResponse(p, h1) == Registered(HOST);
    assert Reached(p, first) == System(h1, map[]);
    assert Minted(p, h1) == map[] && Legal(p, Begin) && Legal(p, first);
    run := Do(first, 0, Ask(0, HOST, ONE_BYTE, []));
    var h2 := Then(h1, 0, DoChallenge(HOST, ONE_BYTE, []));
    assert LastResponse(p, h2) == Issued(ONE_BYTE, []);
    assert Reached(p, run).history == h2;
    assert forall id :: Deliveries(p, h1, id) == [];
  }

  /** The client has sealed its PIN, and its submission is queued. */
  lemma SendingRunExists(p: Primitives, choice: Choice) returns (run: Run)
    requires p.Laws() && IsValidPin(choice.pin) && |choice.nonce| == 12 && 1 <= |choice.device| <= 64
    ensures Legal(p, run) && Now(Reached(p, run).history) == 0
    ensures 0 in Reached(p, run).parties && Reached(p, run).parties[0].Sent?
    ensures Deliveries(p, Reached(p, run).history, HOST) == []
    ensures var s, party := After(p, Reached(p, run).history), Reached(p, run).parties[0];
      && party.host == HOST && party.rid == ONE_BYTE && party.choice == choice
      && RuntimeOf(s, HOST).pending == [AsChosen(p, party.rid, party.chal, choice)]
      && Authorize(p, s, HOST, Some(TOKEN)) == None
  {
    var asking := AskingRunExists(p);
    var h := Reached(p, asking).history;
    SealOpen(p, PairKey(p, choice.h1, []), choice.pin, choice.nonce);
    BuiltAsChosen(p, ONE_BYTE, [], choice);
    var req := ClientRequest(p, ONE_BYTE, [], choice).value;
    assert WellFormedSubmit(req);
    run := Do(asking, 0, Send(0, choice));
    var sent := Then(h, 0, DoSubmit(HOST, req));
    assert LastResponse(p, sent) == Queued;
    assert Reached(p, run).history == sent;
    CtEqIsEquality(TokenFingerprint(p, TOKEN), TokenFingerprint(p, TOKEN));
  }

  /** The host polls, and has the client's request. */
  lemma DeliveringRunExists(p: Primitives, choice: Choice) returns (run: Run)
    requires p.Laws() && IsValidPin(choice.pin) && |choice.nonce| == 12 && 1 <= |choice.device| <= 64
    ensures Legal(p, run) && 0 in Reached(p, run).parties && Reached(p, run).parties[0].Sent?
    ensures var party := Reached(p, run).parties[0];
      && party.host == HOST && party.choice == choice
      && Deliveries(p, Reached(p, run).history, HOST) == [AsChosen(p, party.rid, party.chal, choice)]
  {
    var sending := SendingRunExists(p, choice);
    var party := Reached(p, sending).parties[0];
    run := Do(sending, 0, Serve(DoPoll(HOST, Some(TOKEN))));
    var polled := Then(Reached(p, sending).history, 0, DoPoll(HOST, Some(TOKEN)));
    assert LastResponse(p, polled) == Delivered([AsChosen(p, party.rid, party.chal, choice)]);
    assert Reached(p, run).history == polled;
  }

  /** Surroundings in which Apollo takes the first PIN and lists a new client. */
  lemma EasySurroundings(p: Primitives, h1: Bytes, pr: PairRequest)
    returns (env: A.Surroundings)
    requires A.Judge(p, h1, pr).Accepts?
    ensures A.Paced(env) && A.Handle(p, h1, 0, pr, [], env).submissions == 1
    ensures A.Handle(p, h1, 0, pr, [], env).result == Ok(())
  {
    var client := A.ApolloClient([], [], 0, 0);
    env := A.Surroundings(0, Ok([]),
                          (i: nat) => A.Tick(i * SECOND, i * SECOND, i * SECOND, Ok(true), Ok([client])), Ok(()));
    assert A.Uuids([]) == {};
    assert A.FindNew([client], {}) == Some(client);
    assert A.DeliverFrom(env, {}, 0, 0, []) == A.LoopEnd(Ok(client), 1, [0]);
  }

  /** Whatever a client brings there is a run from registration to a completed
      pairing, so the premises of `PinAgreement` and `PairingFollows` can all be
      met together. */
  lemma PairingHappens(choice: Choice) returns (p: Primitives, run: Run, suite: H.Suite<Byte>,
                                                c: H.Client<Byte>, h: H.Host<Byte>, env: A.Surroundings)
    requires IsValidPin(choice.pin) && |choice.nonce| == 12 && 1 <= |choice.device| <= 64
    ensures p.Laws() && A.Paced(env) && Legal(p, run)
    ensures 0 in Reached(p, run).parties && Reached(p, run).parties[0].Sent?
    ensures Reached(p, run).parties[0].choice == choice && choice.pin == c.pin
    ensures Deliveries(p, Reached(p, run).history, HOST) != []
    ensures var done := A.Handle(p, choice.h1, 0, Deliveries(p, Reached(p, run).history, HOST)[0], [], env);
      && done.submissions > 0 && h.pin == done.pin == choice.pin
      && A.Report(Deliveries(p, Reached(p, run).history, HOST)[0], done.result).status == Paired
    ensures H.Laws(suite) && H.Ready(suite, c, h)
    ensures W.TalkAll(suite, c, h).outcome == H.Finished
  {
    p := PrimitivesExist();
    run := DeliveringRunExists(p, choice);
    var party := Reached(p, run).parties[0];
    JudgedByPassword(p, party.rid, party.chal, choice, choice.h1);
    env := EasySurroundings(p, choice.h1, AsChosen(p, party.rid, party.chal, choice));
    suite, c, h := R.HonestPartiesExist(choice.pin, None);
    PinAgreement(p, run, 0, HOST, 0, choice.h1, 0, [], env);
    PairingFollows(p, run, 0, HOST, 0, 0, [], env, suite, c, h);
  }
}
