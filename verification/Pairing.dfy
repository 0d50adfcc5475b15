/** The pairing state machine as the object the source makes it, the simulated
    host it is paired with, and the driver that runs it over a network. */
module Pairing {
  import opened ByteStrings
  import opened Handshake
  import opened PairingWire
  import opened PairingRuns
  import C = Crypto
  import Query

  class Pairing {
    const suite: Suite<Byte>
    const certPem: Bytes
    const privateKey: Bytes
    const pin: Bytes
    const salt: Bytes
    const aesKey: Bytes
    const randChallenge: Bytes
    const clientSecret: Bytes
    const otp: Option<OtpAuth<Byte>>
    var serverCertPem: Option<Bytes>
    var serverResponse: Bytes
    var phase: nat

    ghost function View(): Client<Byte>
      reads this
    {
      Client(certPem, privateKey, pin, salt, aesKey, randChallenge, clientSecret, serverCertPem,
             serverResponse, phase, otp)
    }

    ghost predicate Valid()
      reads this
    {
      Sound(View()) && BlockLaws(suite) && OnBytes(suite) && |randChallenge| == 16
    }

    constructor (suite: Suite<Byte>, certPem: Bytes, privateKey: Bytes, pin: Bytes, otp: Option<OtpAuth<Byte>>,
                 salt: Bytes, randChallenge: Bytes, clientSecret: Bytes)
      requires BlockLaws(suite) && OnBytes(suite)
      requires |salt| == |randChallenge| == |clientSecret| == 16
      ensures Valid() && this.suite == suite
      ensures View() == NewClient(suite, certPem, privateKey, pin, otp, salt, randChallenge, clientSecret)
    {
      this.suite, this.certPem, this.privateKey := suite, certPem, privateKey;
      this.pin, this.salt, this.otp := pin, salt, otp;
      this.randChallenge, this.clientSecret := randChallenge, clientSecret;
      this.aesKey := DeriveKey(suite, salt, pin);
      serverCertPem, serverResponse, phase := None, [], 0;
    }

    method OtpAuthText() returns (text: Option<Bytes>)
      requires Valid()
      ensures text == FirstRequest(suite, View()).otpauth
    {
      if otp.None? { return None; }
      text := Some(HexUpper(suite.sha(otp.value.pin + Hex(salt) + otp.value.passphrase)));
    }

    method Begin() returns (step: Step)
      requires Valid()
      ensures step == WriteStep(FirstRequest(suite, View()))
    {
      var params := COMMON + [(PHRASE, GETSERVERCERT), (SALT, Hex(salt)), (CLIENTCERT, Hex(certPem))];
      var text := OtpAuthText();
      if text.Some? { params := params + [(OTPAUTH, text.value)]; }
      assert params == Params(FirstRequest(suite, View()));
      step := Step(Query.Format(params), false);
    }

    /** Feeds one response body to the client. */
    method Next(body: Body) returns (r: Result<Option<Step>, PairError>)
      requires Valid()
      modifies this
      ensures Valid() && (View(), r) == Feed(suite, old(View()), body)
    {
      if body.BadXml? { return Err(Xml); }
      if body.BadStatus? { return Err(Status(body.code)); }
      var paired := body.paired.Some? && Trim(body.paired.value) == ONE;
      if !paired { return Err(NotPaired); }
      if phase == 0 {
        r := TakeCert(body);
      } else if phase == 1 {
        r := TakeChallenge(body);
      } else if phase == 2 {
        r := TakeSecret(body);
      } else if phase == 3 {
        phase := 4;
        r := Ok(Some(WriteStep(PairChallenge)));
      } else {
        phase := 5;
        r := Ok(None);
      }
    }

    method TakeCert(body: Body) returns (r: Result<Option<Step>, PairError>)
      requires Valid() && body.Root? && phase == 0
      modifies this
      ensures Valid()
      ensures var a := AcceptCert(suite, old(View()), ReadCert(body.plaincert));
        View() == a.0 && r == WrittenOut(a.1)
    {
      var plaincert := Trim(if body.plaincert.Some? then body.plaincert.value else []);
      if plaincert == [] { return Err(AlreadyInProgress); }
      var raw := Unhex(plaincert);
      if raw.None? { return Err(HexError); }
      if !IsUtf8(raw.value) { return Err(Malformed); }
      serverCertPem := Some(raw.value);
      phase := 1;
      var enc := C.AesEcbEncrypt(suite, aesKey, randChallenge);
      assert enc.Ok?;
      r := Ok(Some(WriteStep(ClientChallenge(enc.value))));
    }

    method TakeChallenge(body: Body) returns (r: Result<Option<Step>, PairError>)
      requires Valid() && body.Root? && phase == 1
      modifies this
      ensures Valid()
      ensures var a := AnswerChallenge(suite, old(View()), ReadHex(body.challengeResponse));
        View() == a.0 && r == WrittenOut(a.1)
    {
      if body.challengeResponse.None? { return Err(Missing); }
      var enc := Unhex(Trim(body.challengeResponse.value));
      if enc.None? { return Err(HexError); }
      var dec := C.AesEcbDecrypt(suite, aesKey, enc.value);
      if dec.Err? { return Err(dec.error); }
      if |dec.value| < 48 { return Err(Malformed); }
      serverResponse := dec.value[..32];
      var serverChallenge := dec.value[32..48];
      var ourSig := suite.certSignature(certPem);
      if ourSig.None? { return Err(PairError.Crypto); }
      var msg := serverChallenge;
      msg := msg + ourSig.value;
      msg := msg + clientSecret;
      var resp := C.AesEcbEncrypt(suite, aesKey, suite.sha(msg));
      if resp.Err? { return Err(resp.error); }
      phase := 2;
      r := Ok(Some(WriteStep(ServerChallengeResp(resp.value))));
    }

    method TakeSecret(body: Body) returns (r: Result<Option<Step>, PairError>)
      requires Valid() && body.Root? && phase == 2
      modifies this
      ensures Valid()
      ensures var a := CheckSecret(suite, old(View()), ReadHex(body.pairingSecret));
        View() == a.0 && r == WrittenOut(a.1)
    {
      if body.pairingSecret.None? { return Err(Missing); }
      var secret := Unhex(Trim(body.pairingSecret.value));
      if secret.None? { return Err(HexError); }
      if |secret.value| <= 16 { return Err(Malformed); }
      var serverSecret, serverSig := secret.value[..16], secret.value[16..];
      var serverPk := suite.certPublicKey(serverCertPem.value);
      if serverPk.None? { return Err(PairError.Crypto); }
      if !suite.verify(serverPk.value, serverSecret, serverSig) { return Err(BadServerSignature); }
      var serverCertSig := suite.certSignature(serverCertPem.value);
      if serverCertSig.None? { return Err(PairError.Crypto); }
      var expected := suite.sha(randChallenge + serverCertSig.value + serverSecret);
      if expected != serverResponse { return Err(WrongPin); }
      var payload := clientSecret + suite.sign(privateKey, clientSecret);
      phase := 3;
      r := Ok(Some(WriteStep(ClientPairingSecret(payload))));
    }
  }

  /** The simulated host. */
  class FakeHost {
    const suite: Suite<Byte>
    const key: Bytes
    const certPem: Bytes
    const serverSecret: Bytes
    const serverChallenge: Bytes
    var pin: Bytes
    var aesKey: Option<Bytes>
    var clientCertPem: Option<Bytes>
    var clientHash: Bytes
    var otp: Option<OtpAuth<Byte>>

    ghost function View(): Host<Byte>
      reads this
    {
      Host(key, certPem, pin, aesKey, serverSecret, serverChallenge, clientCertPem, clientHash, otp)
    }

    ghost predicate Valid() {
      BlockLaws(suite) && OnBytes(suite)
    }

    constructor (suite: Suite<Byte>, key: Bytes, certPem: Bytes, pin: Bytes, otp: Option<OtpAuth<Byte>>,
                 serverSecret: Bytes, serverChallenge: Bytes)
      requires BlockLaws(suite) && OnBytes(suite)
      ensures Valid() && this.suite == suite
      ensures View() == Host(key, certPem, pin, None, serverSecret, serverChallenge, None, [], otp)
    {
      this.suite, this.key, this.certPem, this.pin, this.otp := suite, key, certPem, pin, otp;
      this.serverSecret, this.serverChallenge := serverSecret, serverChallenge;
      aesKey, clientCertPem, clientHash := None, None, [];
    }

    /** Handles one request; None where the source panics. */
    method Handle(step: Step) returns (body: Option<Body>)
      requires Valid()
      modifies this
      ensures (View(), body) == HandleStep(suite, old(View()), step)
    {
      if step.https { return Some(Root(Some(ONE), None, None, None)); }
      var m := ReadMessage(step.args);
      if m.None? { return None; }
      match m.value {
        case GetServerCert(saltText, salt, cert, otpauth) =>
          body := HandleCert(saltText, salt, cert, otpauth);
        case ClientChallenge(sealed) =>
          body := HandleChallenge(sealed);
        case ServerChallengeResp(sealed) =>
          body := HandleHash(sealed);
        case ClientPairingSecret(payload) =>
          body := HandleSecret(payload);
        case PairChallenge =>
          assert false;
      }
    }

    method HandleCert(saltText: Bytes, salt: Bytes, cert: Bytes, otpauth: Option<Bytes>) returns (body: Option<Body>)
      requires Valid() && |salt| >= 16
      modifies this
      ensures var m := GetServerCert(saltText, salt, cert, otpauth);
        var (h, reply) := Serve(suite, old(View()), m);
        View() == h && body == if reply.None? then None else Some(WriteReply(m, reply.value))
    {
      clientCertPem := Some(cert);
      var chosen := pin;
      if otpauth.Some? {
        if otp.None? { return None; }
        var expected := HexUpper(suite.sha(otp.value.pin + saltText + otp.value.passphrase));
        chosen := if expected == otpauth.value then otp.value.pin else Ascii("9999");
      }
      aesKey := Some(DeriveKey(suite, salt[..16], chosen));
      body := Some(Root(Some(ONE), Some(Hex(certPem)), None, None));
    }

    method HandleChallenge(sealed: Bytes) returns (body: Option<Body>)
      requires Valid()
      ensures var (h, reply) := Serve(suite, View(), ClientChallenge(sealed));
        View() == h && body == if reply.None? then None else Some(WriteReply(ClientChallenge(sealed), reply.value))
    {
      if aesKey.None? { return None; }
      var dec := C.AesEcbDecrypt(suite, aesKey.value, sealed);
      if dec.Err? { return None; }
      var sig := suite.certSignature(certPem);
      if sig.None? { return None; }
      var msg := dec.value;
      msg := msg + sig.value;
      msg := msg + serverSecret;
      var out := suite.sha(msg);
      out := out + serverChallenge;
      var enc := C.AesEcbEncrypt(suite, aesKey.value, out);
      if enc.Err? { return None; }
      body := Some(Root(Some(ONE), None, Some(Hex(enc.value)), None));
    }

    method HandleHash(sealed: Bytes) returns (body: Option<Body>)
      requires Valid()
      modifies this
      ensures var (h, reply) := Serve(suite, old(View()), ServerChallengeResp(sealed));
        View() == h && body == if reply.None? then None else Some(WriteReply(ServerChallengeResp(sealed), reply.value))
    {
      if aesKey.None? { return None; }
      var dec := C.AesEcbDecrypt(suite, aesKey.value, sealed);
      if dec.Err? { return None; }
      clientHash := dec.value;
      var out := serverSecret + suite.sign(key, serverSecret);
      body := Some(Root(Some(ONE), None, None, Some(Hex(out))));
    }

    method HandleSecret(payload: Bytes) returns (body: Option<Body>)
      requires Valid()
      ensures var (h, reply) := Serve(suite, View(), ClientPairingSecret(payload));
        View() == h && body == if reply.None? then None else Some(WriteReply(ClientPairingSecret(payload), reply.value))
    {
      if |payload| < 16 || clientCertPem.None? { return None; }
      var secret, sig := payload[..16], payload[16..];
      var clientSig := suite.certSignature(clientCertPem.value);
      var clientPk := suite.certPublicKey(clientCertPem.value);
      if clientSig.None? || clientPk.None? || |clientHash| < 32 { return None; }
      var hashOk := suite.sha(serverChallenge + clientSig.value + secret) == clientHash[..32];
      var sigOk := suite.verify(clientPk.value, secret, sig);
      body := Some(Root(Some(if hashOk && sigOk then ONE else ZERO), None, None, None));
    }
  }

  /** The client's steps fed to the host and its bodies fed back, until one of
      them stops. */
  method RunAgainst(p: Pairing, h: FakeHost) returns (outcome: Outcome, requests: seq<Step>)
    requires p.Valid() && h.Valid() && p.suite == h.suite
    modifies p, h
    ensures p.Valid()
    ensures Talk(p.View(), h.View(), outcome, requests) == TalkAll(p.suite, old(p.View()), old(h.View()))
  {
    requests := [];
    var step := p.Begin();
    while true
      invariant p.Valid() && p.suite == h.suite
      invariant TalkFrom(p.suite, p.View(), h.View(), step, requests) ==
                TalkAll(p.suite, old(p.View()), old(h.View()))
      decreases 5 - p.phase
    {
      ghost var c, hv, sent := p.View(), h.View(), requests;
      requests := requests + [step];
      var body := h.Handle(step);
      if body.None? {
        TalkPanic(p.suite, c, hv, step, sent, h.View());
        return Panicked, requests;
      }
      var r := p.Next(body.value);
      TalkTurn(p.suite, c, hv, step, sent, h.View(), body.value, (p.View(), r));
      if r.Err? { return Failed(r.error), requests; }
      if r.value.None? { return Finished, requests; }
      step := r.value.value;
    }
  }
}
