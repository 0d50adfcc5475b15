/** Conversations on the wire: they are the conversations of `Handshake`, honest
    ones complete, and no sequence of responses gets the client past its checks. */
module PairingRuns {
  import opened ByteStrings
  import opened Handshake
  import opened PairingWire
  import Q = Query

  /** What the host reads is what the client wrote. */
  lemma ReadWritten(m: Message<Byte>)
    requires Writable(m) && !m.PairChallenge?
    ensures ReadMessage(WriteStep(m).args) == Some(m)
  {
    ParamsAreClean(m);
    NamesAreFree();
    LongNamesAreFree();
    NamesDiffer();
    var params := Params(m);
    Q.ParamOfFormat(params, PHRASE);
    match m {
      case GetServerCert(saltText, salt, cert, otpauth) =>
        Q.ParamOfFormat(params, SALT);
        Q.ParamOfFormat(params, CLIENTCERT);
        Q.ParamOfFormat(params, OTPAUTH);
        UnhexHex(salt);
        UnhexHex(cert);
        LookupOpening(m);
      case ClientChallenge(sealed) =>
        Q.ParamOfFormat(params, CLIENTCHALLENGE);
        UnhexHex(sealed);
        LookupShort(CLIENTCHALLENGE, Hex(sealed));
      case ServerChallengeResp(sealed) =>
        Q.ParamOfFormat(params, CLIENTCHALLENGE);
        Q.ParamOfFormat(params, SERVERCHALLENGERESP);
        UnhexHex(sealed);
        LookupShort(SERVERCHALLENGERESP, Hex(sealed));
      case ClientPairingSecret(payload) =>
        Q.ParamOfFormat(params, CLIENTCHALLENGE);
        Q.ParamOfFormat(params, SERVERCHALLENGERESP);
        Q.ParamOfFormat(params, CLIENTPAIRINGSECRET);
        UnhexHex(payload);
        LookupShort(CLIENTPAIRINGSECRET, Hex(payload));
    }
  }

  lemma LookupSkips(first: (Bytes, Bytes), rest: Q.Pairs, key: Bytes)
    ensures Q.Lookup([first] + rest, key) == if first.0 == key then Some(first.1) else Q.Lookup(rest, key)
  {
    assert ([first] + rest)[1..] == rest;
  }

  lemma LookupCommon(rest: Q.Pairs, key: Bytes)
    requires key != DEVICENAME && key != UPDATE_STATE
    ensures Q.Lookup(COMMON + rest, key) == Q.Lookup(rest, key)
  {
    LookupSkips((UPDATE_STATE, ONE), rest, key);
    LookupSkips((DEVICENAME, ROTH), [(UPDATE_STATE, ONE)] + rest, key);
    assert COMMON + rest == [(DEVICENAME, ROTH)] + ([(UPDATE_STATE, ONE)] + rest);
  }

  lemma LookupPair(name: Bytes, value: Bytes, key: Bytes)
    requires key != DEVICENAME && key != UPDATE_STATE
    ensures Q.Lookup(COMMON + [(name, value)], key) == if key == name then Some(value) else None
  {
    LookupCommon([(name, value)], key);
    LookupSkips((name, value), [], key);
    assert [(name, value)] + [] == [(name, value)];
  }

  lemma LookupShort(name: Bytes, value: Bytes)
    requires name != DEVICENAME && name != UPDATE_STATE && name != PHRASE
    ensures Q.Lookup(COMMON + [(name, value)], name) == Some(value)
    ensures Q.Lookup(COMMON + [(name, value)], PHRASE) == None
    ensures name != CLIENTCHALLENGE ==> Q.Lookup(COMMON + [(name, value)], CLIENTCHALLENGE) == None
    ensures name != SERVERCHALLENGERESP ==> Q.Lookup(COMMON + [(name, value)], SERVERCHALLENGERESP) == None
  {
    NamesDiffer();
    LookupPair(name, value, name);
    LookupPair(name, value, PHRASE);
    LookupPair(name, value, CLIENTCHALLENGE);
    LookupPair(name, value, SERVERCHALLENGERESP);
  }

  lemma LookupOpeningAt(m: Message<Byte>, key: Bytes)
    requires m.GetServerCert? && key != DEVICENAME && key != UPDATE_STATE
    ensures Q.Lookup(Params(m), key) ==
      if key == PHRASE then Some(GETSERVERCERT) else if key == SALT then Some(m.saltText)
      else if key == CLIENTCERT then Some(Hex(m.cert)) else if key == OTPAUTH then m.otpauth else None
  {
    NamesDiffer();
    var last: Q.Pairs := if m.otpauth.Some? then [(OTPAUTH, m.otpauth.value)] else [];
    var a, b, c := (PHRASE, GETSERVERCERT), (SALT, m.saltText), (CLIENTCERT, Hex(m.cert));
    assert Params(m) == COMMON + ([a] + ([b] + ([c] + last)));
    LookupCommon([a] + ([b] + ([c] + last)), key);
    LookupSkips(a, [b] + ([c] + last), key);
    LookupSkips(b, [c] + last, key);
    LookupSkips(c, last, key);
    if m.otpauth.Some? {
      LookupSkips((OTPAUTH, m.otpauth.value), [], key);
      assert [(OTPAUTH, m.otpauth.value)] + [] == last;
    }
  }

  lemma LookupOpening(m: Message<Byte>)
    requires m.GetServerCert?
    ensures Q.Lookup(Params(m), PHRASE) == Some(GETSERVERCERT)
    ensures Q.Lookup(Params(m), SALT) == Some(m.saltText)
    ensures Q.Lookup(Params(m), CLIENTCERT) == Some(Hex(m.cert))
    ensures Q.Lookup(Params(m), OTPAUTH) == m.otpauth
    ensures Q.Lookup(Params(m), CLIENTPAIRINGSECRET) == None
  {
    NamesDiffer();
    LookupOpeningAt(m, PHRASE);
    LookupOpeningAt(m, SALT);
    LookupOpeningAt(m, CLIENTCERT);
    LookupOpeningAt(m, OTPAUTH);
    LookupOpeningAt(m, CLIENTPAIRINGSECRET);
  }

  /** The request a client in a given phase waits on. */
  predicate AwaitedIn(phase: nat, m: Message<Byte>) {
    match m
    case GetServerCert(_, _, _, _) => phase == 0
    case ClientChallenge(_) => phase == 1
    case ServerChallengeResp(_) => phase == 2
    case ClientPairingSecret(_) => phase == 3
    case PairChallenge => phase == 4
  }

  /** What the client reads is what the host wrote. */
  lemma ReadReplied(m: Message<Byte>, r: Reply<Byte>, phase: nat)
    requires AwaitedIn(phase, m)
    requires phase == 0 ==> r.field.Ok? && r.field.value != [] && IsUtf8(r.field.value)
    requires phase <= 2 ==> r.field.Ok?
    requires phase >= 3 ==> r.field == Err(Missing)
    ensures ReadReply(phase, WriteReply(m, r)) == r
  {
    assert ONE[0] != ZERO[0];
    assert Trim(ONE) == ONE && Trim(ZERO) == ZERO;
    if r.field.Ok? {
      UnhexHex(r.field.value);
      TrimHex(r.field.value);
    }
  }

  /** A host the wire can carry: its certificate is a non-empty text. */
  predicate Presentable(h: Host<Byte>) {
    h.cert != [] && IsUtf8(h.cert)
  }

  lemma ServedReplies(suite: Suite<Byte>, h: Host<Byte>, m: Message<Byte>)
    requires Presentable(h)
    ensures var (h', reply) := Serve(suite, h, m);
      && Presentable(h')
      && (reply.Some? ==>
            && (m.GetServerCert? ==> reply.value.field == Ok(h.cert))
            && (m.ClientChallenge? || m.ServerChallengeResp? ==> reply.value.field.Ok?)
            && (m.ClientPairingSecret? || m.PairChallenge? ==> reply.value.field == Err(Missing)))
  {
  }

  lemma NextRequest(suite: Suite<Byte>, c: Client<Byte>, r: Reply<Byte>)
    requires Sound(c)
    ensures var (c', out) := Advance(suite, c, r);
      out.Ok? && out.value.Some? ==> AwaitedIn(c'.phase, out.value.value) && Writable(out.value.value)
  {
  }

  /** A round on the wire is a round of the handshake. */
  lemma WireRound(suite: Suite<Byte>, c: Client<Byte>, h: Host<Byte>, m: Message<Byte>)
    requires Sound(c) && AwaitedIn(c.phase, m) && Writable(m) && Presentable(h)
    ensures var (h', reply) := Serve(suite, h, m);
      && HandleStep(suite, h, WriteStep(m)) ==
         (h', if reply.None? then None else Some(WriteReply(m, reply.value)))
      && (reply.Some? ==> ReadReply(c.phase, WriteReply(m, reply.value)) == reply.value)
  {
    var (h', reply) := Serve(suite, h, m);
    ServedReplies(suite, h, m);
    if !m.PairChallenge? { ReadWritten(m); }
    if reply.Some? { ReadReplied(m, reply.value, c.phase); }
  }

  function Written(sent: seq<Message<Byte>>): (steps: seq<Step>)
    ensures |steps| == |sent|
  {
    seq(|sent|, i requires 0 <= i < |sent| => WriteStep(sent[i]))
  }

  function WrittenOut(out: Result<Option<Message<Byte>>, PairError>): Result<Option<Step>, PairError> {
    match out
    case Err(e) => Err(e)
    case Ok(None) => Ok(None)
    case Ok(Some(m)) => Ok(Some(WriteStep(m)))
  }

  lemma FeedReply(suite: Suite<Byte>, c: Client<Byte>, m: Message<Byte>, r: Reply<Byte>)
    requires Sound(c) && ReadReply(c.phase, WriteReply(m, r)) == r
    ensures var (c', out) := Advance(suite, c, r);
      Feed(suite, c, WriteReply(m, r)) == (c', WrittenOut(out))
  {
    assert WriteReply(m, r).Root?;
  }

  lemma TalkTurn(suite: Suite<Byte>, c: Client<Byte>, h: Host<Byte>, step: Step, sent: seq<Step>,
                 h': Host<Byte>, body: Body, f: Fed)
    requires Sound(c) && HandleStep(suite, h, step) == (h', Some(body)) && Feed(suite, c, body) == f
    ensures TalkFrom(suite, c, h, step, sent) ==
            if f.1.Err? then Talk(f.0, h', Failed(f.1.error), sent + [step])
            else if f.1.value.None? then Talk(f.0, h', Finished, sent + [step])
            else TalkFrom(suite, f.0, h', f.1.value.value, sent + [step])
  {
  }

  lemma TalkPanic(suite: Suite<Byte>, c: Client<Byte>, h: Host<Byte>, step: Step, sent: seq<Step>, h': Host<Byte>)
    requires Sound(c) && HandleStep(suite, h, step) == (h', None)
    ensures TalkFrom(suite, c, h, step, sent) == Talk(c, h', Panicked, sent + [step])
  {
  }

  function WrittenTalk(e: End<Byte>): Talk {
    Talk(e.client, e.host, e.outcome, Written(e.sent))
  }

  lemma WrittenPush(sent: seq<Message<Byte>>, m: Message<Byte>)
    ensures Written(sent + [m]) == Written(sent) + [WriteStep(m)]
  {
  }

  lemma WirePanic(suite: Suite<Byte>, c: Client<Byte>, h: Host<Byte>, m: Message<Byte>, sent: seq<Message<Byte>>)
    requires Sound(c) && AwaitedIn(c.phase, m) && Writable(m) && Presentable(h)
    requires Serve(suite, h, m).1.None?
    ensures TalkFrom(suite, c, h, WriteStep(m), Written(sent)) ==
            Talk(c, Serve(suite, h, m).0, Panicked, Written(sent + [m]))
  {
    WireRound(suite, c, h, m);
    WrittenPush(sent, m);
    TalkPanic(suite, c, h, WriteStep(m), Written(sent), Serve(suite, h, m).0);
  }

  lemma WireTurn(suite: Suite<Byte>, c: Client<Byte>, h: Host<Byte>, m: Message<Byte>, sent: seq<Message<Byte>>,
                 h': Host<Byte>, r: Reply<Byte>, a: Advanced<Byte>)
    requires Sound(c) && AwaitedIn(c.phase, m) && Writable(m) && Presentable(h)
    requires Serve(suite, h, m) == (h', Some(r)) && Advance(suite, c, r) == a
    ensures Presentable(h')
    ensures TalkFrom(suite, c, h, WriteStep(m), Written(sent)) ==
            if a.1.Err? then Talk(a.0, h', Failed(a.1.error), Written(sent + [m]))
            else if a.1.value.None? then Talk(a.0, h', Finished, Written(sent + [m]))
            else TalkFrom(suite, a.0, h', WriteStep(a.1.value.value), Written(sent + [m]))
  {
    WireRound(suite, c, h, m);
    ServedReplies(suite, h, m);
    WrittenPush(sent, m);
    FeedReply(suite, c, m, r);
    TalkTurn(suite, c, h, WriteStep(m), Written(sent), h', WriteReply(m, r), (a.0, WrittenOut(a.1)));
  }

  /** Every conversation on the wire is the conversation of the decoded messages:
      same end, same parties, and the requests are the written messages. */
  lemma {:induction false} WireIsFaithful(suite: Suite<Byte>, c: Client<Byte>, h: Host<Byte>, m: Message<Byte>,
                                          sent: seq<Message<Byte>>)
    requires Sound(c) && AwaitedIn(c.phase, m) && Writable(m) && Presentable(h)
    ensures TalkFrom(suite, c, h, WriteStep(m), Written(sent)) == WrittenTalk(Converse(suite, c, h, m, sent))
    decreases 5 - c.phase
  {
    var (h', reply) := Serve(suite, h, m);
    if reply.None? {
      WirePanic(suite, c, h, m, sent);
      PanicEnds(suite, c, h, m, sent, h');
    } else {
      var a := Advance(suite, c, reply.value);
      WireTurn(suite, c, h, m, sent, h', reply.value, a);
      Turn(suite, c, h, m, sent, h', reply.value, a);
      if a.1.Ok? && a.1.value.Some? {
        NextRequest(suite, c, reply.value);
        WireIsFaithful(suite, a.0, h', a.1.value.value, sent + [m]);
      }
    }
  }

  /** A whole conversation on the wire, from the first request on. */
  lemma TalkIsWritten(suite: Suite<Byte>, c: Client<Byte>, h: Host<Byte>)
    requires OnBytes(suite) && Sound(c) && c.phase == 0 && |c.salt| == 16 && IsUtf8(c.cert) && Presentable(h)
    ensures TalkAll(suite, c, h) == WrittenTalk(Pair(suite, c, h))
  {
    OpeningIsWritable(suite, c);
    WireIsFaithful(suite, c, h, FirstRequest(suite, c), []);
    assert Written([]) == [];
  }

  /** A conversation on the wire that went through: exactly five requests, only the
      last over HTTPS, both sides on one key and each with the certificate of the
      other. */
  predicate Paired(c: Client<Byte>, h: Host<Byte>, t: Talk) {
    && t.outcome == Finished && t.client.phase == 5 && |t.requests| == 5
    && (forall i | 0 <= i < 5 :: t.requests[i].https <==> i == 4)
    && t.client.serverCert == Some(h.cert) && t.host.clientCert == Some(c.cert)
    && t.host.aesKey == Some(t.client.aesKey)
  }

  /** The honest handshake completes on the wire: for all identities,
      certificates, salts, challenges and secrets, if the host settles on the
      client's PIN, the steps of the client fed to the host and its responses fed
      back go through. */
  lemma HonestPairingOnTheWire(suite: Suite<Byte>, c: Client<Byte>, h: Host<Byte>)
    requires Laws(suite) && OnBytes(suite) && Ready(suite, c, h)
    requires IsUtf8(c.cert) && Presentable(h) && HostPin(suite, c, h) == c.pin
    ensures Paired(c, h, TalkAll(suite, c, h))
  {
    OpeningIsWritable(suite, c);
    TalkIsWritten(suite, c, h);
    HonestPairingCompletes(suite, c, h);
    SentInOrder(suite, c, h, FirstRequest(suite, c), []);
  }

  /** Which PIN the host settles on when the client sends `otpauth`: the one-time
      PIN exactly when the hash agrees on the two strings that were hashed, though
      what is compared is their upper-case hexadecimal text. */
  lemma OtpPinOnBytes(suite: Suite<Byte>, c: Client<Byte>, h: Host<Byte>)
    requires OnBytes(suite) && Ready(suite, c, h) && c.otp.Some?
    ensures var theirs := h.otp.value.pin + Hex(c.salt) + h.otp.value.passphrase;
      var ours := c.otp.value.pin + Hex(c.salt) + c.otp.value.passphrase;
      HostPin(suite, c, h) == if suite.sha(theirs) == suite.sha(ours) then h.otp.value.pin else Ascii("9999")
  {
    UnhexHexUpper(suite.sha(h.otp.value.pin + Hex(c.salt) + h.otp.value.passphrase));
    UnhexHexUpper(suite.sha(c.otp.value.pin + Hex(c.salt) + c.otp.value.passphrase));
  }

  /** One-time pairing completes on the wire: with the same one-time PIN and
      passphrase on both sides nobody types a PIN, whatever PIN the host holds. */
  lemma OtpPairingOnTheWire(suite: Suite<Byte>, c: Client<Byte>, h: Host<Byte>)
    requires Laws(suite) && OnBytes(suite) && Ready(suite, c, h) && IsUtf8(c.cert) && Presentable(h)
    requires c.otp.Some? && h.otp == c.otp && c.pin == c.otp.value.pin
    ensures Paired(c, h, TalkAll(suite, c, h))
  {
    OtpPinOnBytes(suite, c, h);
    HonestPairingOnTheWire(suite, c, h);
  }

  /** The conditions above can be met together, for every PIN, with or without
      one-time credentials: a transparent cryptography in which a key is its own
      certificate does. */
  lemma HonestPartiesExist(pin: Bytes, otp: Option<OtpAuth<Byte>>)
    returns (suite: Suite<Byte>, c: Client<Byte>, h: Host<Byte>)
    requires otp.Some? ==> otp.value.pin == pin
    ensures Laws(suite) && OnBytes(suite) && Ready(suite, c, h) && IsUtf8(c.cert) && Presentable(h)
    ensures c.pin == pin == h.pin && c.otp == otp == h.otp && HostPin(suite, c, h) == c.pin
  {
    suite := Suite(m => seq(32, i => 0), (key, b) => b, (key, b) => b, (key, m) => [0], (pk, m, sig) => true,
                   key => key, cert => Some(cert), cert => Some(cert), b => Hex(b), b => HexUpper(b), Ascii("9999"));
    var zeros: Bytes := seq(16, i => 0);
    var cert := Ascii("A");
    AsciiIsUtf8(cert);
    c := NewClient(suite, cert, cert, pin, otp, zeros, zeros, zeros);
    h := Host(cert, cert, pin, None, zeros, zeros, None, [], otp);
  }

  lemma OpeningIsWritable(suite: Suite<Byte>, c: Client<Byte>)
    requires OnBytes(suite) && |c.salt| == 16 && IsUtf8(c.cert)
    ensures Writable(FirstRequest(suite, c))
  {
    if c.otp.Some? {
      var digest := suite.sha(c.otp.value.pin + suite.hexLower(c.salt) + c.otp.value.passphrase);
      HexIsFree(digest);
    }
  }

  /** The i-th request of a conversation is the one of phase i, as a client writes
      it. */
  lemma {:induction false} SentInOrder(suite: Suite<Byte>, c: Client<Byte>, h: Host<Byte>, m: Message<Byte>,
                                       sent: seq<Message<Byte>>)
    requires Sound(c) && AwaitedIn(c.phase, m) && Writable(m) && |sent| == c.phase
    requires InOrder(sent)
    ensures InOrder(Converse(suite, c, h, m, sent).sent)
    decreases 5 - c.phase
  {
    var (h', reply) := Serve(suite, h, m);
    if reply.None? {
      PanicEnds(suite, c, h, m, sent, h');
    } else {
      var a := Advance(suite, c, reply.value);
      Turn(suite, c, h, m, sent, h', reply.value, a);
      NextRequest(suite, c, reply.value);
      if a.1.Ok? && a.1.value.Some? {
        SentInOrder(suite, a.0, h', a.1.value.value, sent + [m]);
      }
    }
  }

  predicate InOrder(sent: seq<Message<Byte>>) {
    forall i | 0 <= i < |sent| :: AwaitedIn(i, sent[i]) && Writable(sent[i])
  }

  /** The query string carries a pairing secret. */
  predicate CarriesSecret(step: Step) {
    Q.Param(step.args, CLIENTPAIRINGSECRET).Some?
  }

  lemma OnlySecretsCarry(m: Message<Byte>)
    requires Writable(m)
    ensures CarriesSecret(WriteStep(m)) <==> m.ClientPairingSecret?
  {
    ParamsAreClean(m);
    LongNamesAreFree();
    NamesDiffer();
    Q.ParamOfFormat(Params(m), CLIENTPAIRINGSECRET);
    match m {
      case GetServerCert(saltText, salt, cert, otpauth) => LookupOpening(m);
      case ClientChallenge(sealed) => LookupPair(CLIENTCHALLENGE, Hex(sealed), CLIENTPAIRINGSECRET);
      case ServerChallengeResp(sealed) => LookupPair(SERVERCHALLENGERESP, Hex(sealed), CLIENTPAIRINGSECRET);
      case ClientPairingSecret(payload) => LookupPair(CLIENTPAIRINGSECRET, Hex(payload), CLIENTPAIRINGSECRET);
      case PairChallenge => LookupPair(PHRASE, PAIRCHALLENGE, CLIENTPAIRINGSECRET);
    }
  }

  /** A pairing on the wire ends in `WrongPin` exactly on unequal digests, on the
      third response, and no request has then carried the pairing secret. */
  lemma RejectionOnTheWire(suite: Suite<Byte>, c: Client<Byte>, h: Host<Byte>)
    requires Laws(suite) && OnBytes(suite) && Ready(suite, c, h)
    requires IsUtf8(c.cert) && Presentable(h)
    ensures |Read(suite, c, h)| == 48
    ensures TalkAll(suite, c, h).outcome == Failed(WrongPin) <==> ClientRejects(suite, c, h)
    ensures ClientRejects(suite, c, h) ==>
              && |TalkAll(suite, c, h).requests| == 3
              && forall i | 0 <= i < 3 :: !CarriesSecret(TalkAll(suite, c, h).requests[i])
  {
    OpeningIsWritable(suite, c);
    TalkIsWritten(suite, c, h);
    PairEndsExactly(suite, c, h);
    SentInOrder(suite, c, h, FirstRequest(suite, c), []);
    if ClientRejects(suite, c, h) {
      var sent := Pair(suite, c, h).sent;
      forall i | 0 <= i < 3 ensures !CarriesSecret(WriteStep(sent[i])) { OnlySecretsCarry(sent[i]); }
    }
  }

  // -------------------------------------------------------------------------
  // Client safety against arbitrary responses

  /** Everything that was ever fed to a client, oldest first. */
  datatype Heard = Silence | Hear(past: Heard, body: Body)

  function ClientAfter(suite: Suite<Byte>, start: Client<Byte>, t: Heard): (c: Client<Byte>)
    requires Sound(start)
    ensures Sound(c)
  {
    match t
    case Silence => start
    case Hear(past, body) => Feed(suite, ClientAfter(suite, start, past), body).0
  }

  /** The bytes of a hexadecimal field, white space around it aside. */
  function FieldBytes(field: Option<Bytes>): Option<Bytes> {
    if field.None? then None else Unhex(Trim(field.value))
  }

  /** `body` delivered this certificate. */
  predicate DeliversCert(body: Body, cert: Bytes) {
    body.Root? && FieldBytes(body.plaincert) == Some(cert) && cert != [] && IsUtf8(cert)
  }

  /** `body` decrypts, under the client's key, to something beginning with these
      32 bytes. */
  predicate DeliversDigest(suite: Suite<Byte>, c: Client<Byte>, body: Body, digest: Bytes) {
    body.Root? && FieldBytes(body.challengeResponse).Some?
    && var sealed := FieldBytes(body.challengeResponse).value;
       && sealed != [] && |sealed| % 16 == 0
       && var plain := DecryptBlocks(suite, c.aesKey, sealed);
          |plain| >= 48 && digest == plain[..32]
  }

  /** `body` reveals a secret signed under the key of `cert`, whose hash with our
      challenge and that certificate's signature is `digest`. */
  predicate ProvesSecret(suite: Suite<Byte>, c: Client<Byte>, body: Body, cert: Bytes, digest: Bytes) {
    body.Root? && FieldBytes(body.pairingSecret).Some?
    && var raw := FieldBytes(body.pairingSecret).value;
       && |raw| > 16
       && suite.certPublicKey(cert).Some? && suite.certSignature(cert).Some?
       && suite.verify(suite.certPublicKey(cert).value, raw[..16], raw[16..])
       && suite.sha(c.randChallenge + suite.certSignature(cert).value + raw[..16]) == digest
  }

  /** The client keeps its own secrets whatever it hears. */
  predicate SameSelf(c: Client<Byte>, d: Client<Byte>) {
    c.aesKey == d.aesKey && c.randChallenge == d.randChallenge && c.clientSecret == d.clientSecret
    && c.cert == d.cert && c.key == d.key && c.pin == d.pin && c.salt == d.salt && c.otp == d.otp
  }

  lemma AdvanceKeepsSelf(suite: Suite<Byte>, c: Client<Byte>, r: Reply<Byte>)
    requires Sound(c)
    ensures SameSelf(c, Advance(suite, c, r).0)
    ensures c.phase >= 1 ==> Advance(suite, c, r).0.serverCert == c.serverCert
    ensures c.phase >= 2 ==> Advance(suite, c, r).0.serverResponse == c.serverResponse
  {
  }

  lemma FeedKeepsSelf(suite: Suite<Byte>, c: Client<Byte>, body: Body)
    requires Sound(c)
    ensures SameSelf(c, Feed(suite, c, body).0)
    ensures c.phase >= 1 ==> Feed(suite, c, body).0.serverCert == c.serverCert
    ensures c.phase >= 2 ==> Feed(suite, c, body).0.serverResponse == c.serverResponse
  {
    if body.Root? { AdvanceKeepsSelf(suite, c, ReadReply(c.phase, body)); }
  }

  lemma FeedJustifies(suite: Suite<Byte>, c: Client<Byte>, body: Body)
    requires Sound(c) && Feed(suite, c, body).1.Ok?
    ensures var c' := Feed(suite, c, body).0;
      && (c.phase == 0 ==> DeliversCert(body, c'.serverCert.value))
      && (c.phase == 1 ==> DeliversDigest(suite, c, body, c'.serverResponse))
      && (c.phase == 2 ==> ProvesSecret(suite, c, body, c'.serverCert.value, c'.serverResponse))
  {
  }

  predicate HeardCert(t: Heard, cert: Bytes) {
    t.Hear? && (DeliversCert(t.body, cert) || HeardCert(t.past, cert))
  }

  /** The certificate was heard, and later the digest. */
  predicate HeardDigest(suite: Suite<Byte>, self: Client<Byte>, t: Heard, cert: Bytes, digest: Bytes) {
    t.Hear?
    && ((DeliversDigest(suite, self, t.body, digest) && HeardCert(t.past, cert))
        || HeardDigest(suite, self, t.past, cert, digest))
  }

  /** And later still, the secret that proves them. */
  predicate HeardSecret(suite: Suite<Byte>, self: Client<Byte>, t: Heard, cert: Bytes, digest: Bytes) {
    t.Hear?
    && ((ProvesSecret(suite, self, t.body, cert, digest) && HeardDigest(suite, self, t.past, cert, digest))
        || HeardSecret(suite, self, t.past, cert, digest))
  }

  /** A client past phase 2 has heard, among whatever else and in this order, a
      certificate, the digest it kept, and a secret signed under that
      certificate's key and matching that digest. */
  predicate Justified(suite: Suite<Byte>, self: Client<Byte>, c: Client<Byte>, t: Heard)
    requires Sound(c)
  {
    && (c.phase >= 1 ==> HeardCert(t, c.serverCert.value))
    && (c.phase >= 2 ==> HeardDigest(suite, self, t, c.serverCert.value, c.serverResponse))
    && (c.phase >= 3 ==> HeardSecret(suite, self, t, c.serverCert.value, c.serverResponse))
  }

  /** For every sequence of responses whatsoever, a fresh client only gets past
      its checks with the evidence for them, and keeps its own secrets. */
  lemma {:induction false} ClientSafety(suite: Suite<Byte>, start: Client<Byte>, t: Heard)
    requires start.phase == 0
    ensures Justified(suite, start, ClientAfter(suite, start, t), t)
    ensures SameSelf(start, ClientAfter(suite, start, t))
  {
    if t.Silence? {
    } else {
      ClientSafety(suite, start, t.past);
      var c := ClientAfter(suite, start, t.past);
      FeedKeepsSelf(suite, c, t.body);
      if Feed(suite, c, t.body).1.Ok? { FeedJustifies(suite, c, t.body); }
    }
  }
}
