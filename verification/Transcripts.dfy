/** The handshake spelled out: the very texts that cross the wire, what the client
    makes of any response, and what a host's consent proves. */
module Transcripts {
  import opened ByteStrings
  import opened Handshake
  import opened PairingWire
  import opened PairingRuns
  import Q = Query

  // -------------------------------------------------------------------------
  // The texts

  /** The query string of a message, as one text. */
  function Spelled(m: Message<Byte>): Bytes {
    Ascii("devicename=roth&updateState=1&") +
    match m
    case GetServerCert(saltText, _, cert, otpauth) =>
      Ascii("phrase=getservercert&salt=") + saltText + Ascii("&clientcert=") + Hex(cert)
      + (if otpauth.Some? then Ascii("&otpauth=") + otpauth.value else [])
    case ClientChallenge(sealed) => Ascii("clientchallenge=") + Hex(sealed)
    case ServerChallengeResp(sealed) => Ascii("serverchallengeresp=") + Hex(sealed)
    case ClientPairingSecret(payload) => Ascii("clientpairingsecret=") + Hex(payload)
    case PairChallenge => Ascii("phrase=pairchallenge")
  }

  lemma FormatPair(name: Bytes, value: Bytes, rest: Q.Pairs)
    ensures Q.Format([(name, value)] + rest) ==
            name + [Q.EQUALS] + value + if rest == [] then [] else [Q.AMP] + Q.Format(rest)
  {
    var all: Q.Pairs := [(name, value)] + rest;
    assert all[1..] == rest;
    if rest == [] {
      assert all == [(name, value)];
    } else {
      assert Q.Pieces(all)[1..] == Q.Pieces(rest);
      assert name + [Q.EQUALS] + value + [Q.AMP] + Q.Format(rest) ==
             name + [Q.EQUALS] + value + ([Q.AMP] + Q.Format(rest));
    }
  }

  const COMMON_TEXT: Bytes := DEVICENAME + [Q.EQUALS] + ROTH + [Q.AMP] + UPDATE_STATE + [Q.EQUALS] + ONE + [Q.AMP]

  lemma CommonText()
    ensures COMMON_TEXT == Ascii("devicename=roth&updateState=1&")
  {
  }

  lemma OpeningTexts()
    ensures PHRASE + [Q.EQUALS] + GETSERVERCERT + [Q.AMP] + SALT + [Q.EQUALS] == Ascii("phrase=getservercert&salt=")
    ensures [Q.AMP] + CLIENTCERT + [Q.EQUALS] == Ascii("&clientcert=")
    ensures [Q.AMP] + OTPAUTH + [Q.EQUALS] == Ascii("&otpauth=")
  {
  }

  lemma ShortTexts()
    ensures CLIENTCHALLENGE + [Q.EQUALS] == Ascii("clientchallenge=")
    ensures SERVERCHALLENGERESP + [Q.EQUALS] == Ascii("serverchallengeresp=")
    ensures CLIENTPAIRINGSECRET + [Q.EQUALS] == Ascii("clientpairingsecret=")
    ensures PHRASE + [Q.EQUALS] + PAIRCHALLENGE == Ascii("phrase=pairchallenge")
  {
  }

  lemma Flatten(a: Bytes, b: Bytes, c: Bytes, d: Bytes, rest: Bytes)
    ensures a + b + c + (d + rest) == (a + b + c + d) + rest
  {
  }

  lemma FlattenTwo(front: Bytes, a: Bytes, b: Bytes, c: Bytes, d: Bytes, rest: Bytes)
    ensures front + (a + b + c + (d + rest)) == (front + a + b + c + d) + rest
  {
  }

  lemma FormatCommon(rest: Q.Pairs)
    requires rest != []
    ensures Q.Format(COMMON + rest) == Ascii("devicename=roth&updateState=1&") + Q.Format(rest)
  {
    var more: Q.Pairs := [(UPDATE_STATE, ONE)] + rest;
    var text := Q.Format(rest);
    assert COMMON + rest == [(DEVICENAME, ROTH)] + more;
    FormatPair(DEVICENAME, ROTH, more);
    FormatPair(UPDATE_STATE, ONE, rest);
    var eq, amp := [Q.EQUALS], [Q.AMP];
    Flatten(DEVICENAME, eq, ROTH, amp, UPDATE_STATE + eq + ONE + (amp + text));
    FlattenTwo(DEVICENAME + eq + ROTH + amp, UPDATE_STATE, eq, ONE, amp, text);
    CommonText();
  }

  lemma FormatOne(name: Bytes, value: Bytes)
    ensures Q.Format([(name, value)]) == name + [Q.EQUALS] + value
  {
    FormatPair(name, value, []);
    assert [(name, value)] + [] == [(name, value)];
    assert name + [Q.EQUALS] + value + [] == name + [Q.EQUALS] + value;
  }

  lemma FormatLast(certText: Bytes, otpauth: Option<Bytes>)
    ensures var last: Q.Pairs := if otpauth.Some? then [(OTPAUTH, otpauth.value)] else [];
      Q.Format([(CLIENTCERT, certText)] + last) ==
      CLIENTCERT + [Q.EQUALS] + certText + if otpauth.Some? then Ascii("&otpauth=") + otpauth.value else []
  {
    if otpauth.Some? {
      FormatPair(CLIENTCERT, certText, [(OTPAUTH, otpauth.value)]);
      FormatOne(OTPAUTH, otpauth.value);
      OpeningTexts();
      assert [Q.AMP] + (OTPAUTH + [Q.EQUALS] + otpauth.value) == ([Q.AMP] + OTPAUTH + [Q.EQUALS]) + otpauth.value;
    } else {
      FormatPair(CLIENTCERT, certText, []);
    }
  }

  lemma Interleave(a: Bytes, eq: Bytes, b: Bytes, amp: Bytes, c: Bytes, salt: Bytes, d: Bytes, tail: Bytes)
    ensures a + eq + b + (amp + (c + eq + salt + (amp + (d + eq + tail)))) ==
            (a + eq + b + amp + c + eq) + salt + (amp + d + eq) + tail
  {
  }

  lemma OpeningSpelled(m: Message<Byte>)
    requires m.GetServerCert?
    ensures Q.Format(Params(m)) == Spelled(m)
  {
    var last: Q.Pairs := if m.otpauth.Some? then [(OTPAUTH, m.otpauth.value)] else [];
    var a, b, c := (PHRASE, GETSERVERCERT), (SALT, m.saltText), (CLIENTCERT, Hex(m.cert));
    assert Params(m) == COMMON + ([a] + ([b] + ([c] + last)));
    FormatCommon([a] + ([b] + ([c] + last)));
    FormatPair(PHRASE, GETSERVERCERT, [b] + ([c] + last));
    FormatPair(SALT, m.saltText, [c] + last);
    FormatLast(Hex(m.cert), m.otpauth);
    OpeningTail(m.saltText, Hex(m.cert), if m.otpauth.Some? then Ascii("&otpauth=") + m.otpauth.value else []);
  }

  lemma OpeningTail(saltText: Bytes, certText: Bytes, tail: Bytes)
    ensures PHRASE + [Q.EQUALS] + GETSERVERCERT
            + ([Q.AMP] + (SALT + [Q.EQUALS] + saltText + ([Q.AMP] + (CLIENTCERT + [Q.EQUALS] + certText + tail)))) ==
            Ascii("phrase=getservercert&salt=") + saltText + Ascii("&clientcert=") + certText + tail
  {
    OpeningTexts();
    var eq, amp := [Q.EQUALS], [Q.AMP];
    Interleave(PHRASE, eq, GETSERVERCERT, amp, SALT, saltText, CLIENTCERT, certText + tail);
    assert CLIENTCERT + eq + certText + tail == CLIENTCERT + eq + (certText + tail);
    Associate(PHRASE + eq + GETSERVERCERT + amp + SALT + eq + saltText + (amp + CLIENTCERT + eq), certText, tail);
  }

  lemma Associate(a: Bytes, b: Bytes, c: Bytes)
    ensures a + (b + c) == a + b + c
  {
  }

  lemma ShortSpelled(name: Bytes, value: Bytes)
    ensures Q.Format(COMMON + [(name, value)]) ==
            Ascii("devicename=roth&updateState=1&") + (name + [Q.EQUALS] + value)
  {
    FormatCommon([(name, value)]);
    FormatOne(name, value);
  }

  /** The client writes exactly these texts, the last alone for HTTPS. */
  lemma WrittenAsSpelled(m: Message<Byte>)
    ensures WriteStep(m) == Step(Spelled(m), m.PairChallenge?)
  {
    if m.GetServerCert? {
      OpeningSpelled(m);
    } else {
      ShortTexts();
      match m {
        case ClientChallenge(sealed) => ShortSpelled(CLIENTCHALLENGE, Hex(sealed));
        case ServerChallengeResp(sealed) => ShortSpelled(SERVERCHALLENGERESP, Hex(sealed));
        case ClientPairingSecret(payload) => ShortSpelled(CLIENTPAIRINGSECRET, Hex(payload));
        case PairChallenge => ShortSpelled(PHRASE, PAIRCHALLENGE);
      }
    }
  }

  // -------------------------------------------------------------------------
  // An honest pairing, text by text

  /** The key of a pairing. */
  function Key(suite: Suite<Byte>, c: Client<Byte>): Bytes
    requires |suite.sha(c.salt + c.pin)| >= 16
  {
    suite.sha(c.salt + c.pin)[..16]
  }

  ghost predicate Honest(suite: Suite<Byte>, c: Client<Byte>, h: Host<Byte>) {
    && Laws(suite) && OnBytes(suite) && Ready(suite, c, h) && IsUtf8(c.cert) && Presentable(h)
    && HostPin(suite, c, h) == c.pin
  }

  /** The first message of the client. */
  function Opening(suite: Suite<Byte>, c: Client<Byte>): Message<Byte> {
    GetServerCert(
      Hex(c.salt), c.salt, c.cert,
      if c.otp.None? then None
      else Some(HexUpper(suite.sha(c.otp.value.pin + Hex(c.salt) + c.otp.value.passphrase))))
  }

  lemma FirstIsOpening(suite: Suite<Byte>, c: Client<Byte>)
    requires OnBytes(suite)
    ensures FirstRequest(suite, c) == Opening(suite, c)
  {
  }

  /** The five messages of the client. */
  function Messages(suite: Suite<Byte>, c: Client<Byte>, h: Host<Byte>): seq<Message<Byte>>
    requires |suite.sha(c.salt + c.pin)| >= 16
    requires suite.certSignature(c.cert).Some?
  {
    var K, ourSig := Key(suite, c), suite.certSignature(c.cert).value;
    [Opening(suite, c),
     ClientChallenge(EncryptBlocks(suite, K, c.randChallenge)),
     ServerChallengeResp(EncryptBlocks(suite, K, suite.sha(h.serverChallenge + ourSig + c.clientSecret))),
     ClientPairingSecret(c.clientSecret + suite.sign(c.key, c.clientSecret)),
     PairChallenge]
  }

  lemma HonestMessages(suite: Suite<Byte>, c: Client<Byte>, h: Host<Byte>)
    requires Honest(suite, c, h)
    ensures Pair(suite, c, h).sent == Messages(suite, c, h)
    ensures c.aesKey == Key(suite, c) == HostKey(suite, c, h)
  {
    SameKeySucceeds(suite, c, h);
    PairEndsExactly(suite, c, h);
    FirstIsOpening(suite, c);
    var sent := FirstTwo(suite, c) + LastThree(suite, c, h);
    assert sent[2] == Messages(suite, c, h)[2];
  }

  predicate AreSpelled(requests: seq<Step>, messages: seq<Message<Byte>>) {
    && |requests| == |messages|
    && forall i | 0 <= i < |messages| :: requests[i] == Step(Spelled(messages[i]), messages[i].PairChallenge?)
  }

  lemma AllWrittenAsSpelled(messages: seq<Message<Byte>>)
    ensures AreSpelled(Written(messages), messages)
  {
    forall i | 0 <= i < |messages|
      ensures Written(messages)[i] == Step(Spelled(messages[i]), messages[i].PairChallenge?)
    {
      WrittenAsSpelled(messages[i]);
    }
  }

  /** The five requests of an honest pairing are these texts: the salt and the
      certificate in hexadecimal, the challenge sealed under the key hashed from
      salt and PIN, the sealed commitment to the host's challenge, the certificate's
      signature and the secret, the secret with its signature, and the last over
      HTTPS. */
  lemma HonestRequests(suite: Suite<Byte>, c: Client<Byte>, h: Host<Byte>)
    requires Honest(suite, c, h)
    ensures AreSpelled(TalkAll(suite, c, h).requests, Messages(suite, c, h))
  {
    TalkIsWritten(suite, c, h);
    HonestMessages(suite, c, h);
    AllWrittenAsSpelled(Messages(suite, c, h));
  }

  // What the host holds after its first and after its third request.

  function HostKeyed(suite: Suite<Byte>, c: Client<Byte>, h: Host<Byte>): Host<Byte>
    requires |suite.sha(c.salt + c.pin)| >= 16
  {
    h.(clientCert := Some(c.cert), aesKey := Some(suite.sha(c.salt + c.pin)[..16]))
  }

  function HostCommitted(suite: Suite<Byte>, c: Client<Byte>, h: Host<Byte>): Host<Byte>
    requires |suite.sha(c.salt + c.pin)| >= 16 && suite.certSignature(c.cert).Some?
  {
    HostKeyed(suite, c, h).(clientHash :=
      suite.sha(h.serverChallenge + suite.certSignature(c.cert).value + c.clientSecret))
  }

  const YES: Option<Bytes> := Some(Ascii("1"))

  lemma FirstBody(suite: Suite<Byte>, c: Client<Byte>, h: Host<Byte>)
    requires Honest(suite, c, h)
    ensures HandleStep(suite, h, WriteStep(Messages(suite, c, h)[0])) ==
            (HostKeyed(suite, c, h), Some(Root(YES, Some(Hex(h.cert)), None, None)))
  {
    var m := FirstRequest(suite, c);
    HonestMessages(suite, c, h);
    OpeningIsWritable(suite, c);
    Round1(suite, c, h);
    WireRound(suite, c, h, m);
    assert WriteReply(m, Reply(true, Ok(h.cert))) == Root(YES, Some(Hex(h.cert)), None, None);
    FirstIsOpening(suite, c);
  }

  lemma SecondBody(suite: Suite<Byte>, c: Client<Byte>, h: Host<Byte>)
    requires Honest(suite, c, h)
    ensures suite.certSignature(h.cert).Some?
    ensures var digest := suite.sha(c.randChallenge + suite.certSignature(h.cert).value + h.serverSecret);
      var sealed := EncryptBlocks(suite, Key(suite, c), digest + h.serverChallenge);
      HandleStep(suite, HostKeyed(suite, c, h), WriteStep(Messages(suite, c, h)[1])) ==
      (HostKeyed(suite, c, h), Some(Root(YES, None, Some(Hex(sealed)), None)))
  {
    HonestMessages(suite, c, h);
    SameKeySucceeds(suite, c, h);
    var c1, m := c.(serverCert := Some(h.cert), phase := 1), Messages(suite, c, h)[1];
    Round2(suite, c, h, c1, HostKeyed(suite, c, h));
    WireRound(suite, c1, HostKeyed(suite, c, h), m);
    assert WriteReply(m, Reply(true, Ok(HostAnswer(suite, c, h)))) ==
           Root(YES, None, Some(Hex(HostAnswer(suite, c, h))), None);
  }

  lemma ThirdBody(suite: Suite<Byte>, c: Client<Byte>, h: Host<Byte>)
    requires Honest(suite, c, h)
    ensures HandleStep(suite, HostKeyed(suite, c, h), WriteStep(Messages(suite, c, h)[2])) ==
            (HostCommitted(suite, c, h),
             Some(Root(YES, None, None, Some(Hex(h.serverSecret + suite.sign(h.key, h.serverSecret))))))
  {
    HonestMessages(suite, c, h);
    SameKeySucceeds(suite, c, h);
    var h1, m := HostKeyed(suite, c, h), Messages(suite, c, h)[2];
    var c2 := c.(serverCert := Some(h.cert), serverResponse := Read(suite, c, h)[..32], phase := 2);
    var commitment := suite.sha(h.serverChallenge + suite.certSignature(c.cert).value + c.clientSecret);
    BlocksLength(suite, c.aesKey, commitment);
    Round3(suite, c, h, c2, h1, m.sealed);
    WireRound(suite, c2, h1, m);
    DecryptUndoesEncryptBlocks(suite, c.aesKey, commitment);
  }

  lemma LastBodies(suite: Suite<Byte>, c: Client<Byte>, h: Host<Byte>)
    requires Honest(suite, c, h)
    ensures var messages, h2 := Messages(suite, c, h), HostCommitted(suite, c, h);
      && HandleStep(suite, h2, WriteStep(messages[3])) == (h2, Some(Root(YES, None, None, None)))
      && HandleStep(suite, h2, WriteStep(messages[4])) == (h2, Some(Root(YES, None, None, None)))
  {
    HonestMessages(suite, c, h);
    SameKeySucceeds(suite, c, h);
    DecryptUndoesEncryptBlocks(suite, c.aesKey,
      suite.sha(h.serverChallenge + suite.certSignature(c.cert).value + c.clientSecret));
    var h2, c3 := HostCommitted(suite, c, h), c.(serverCert := Some(h.cert), phase := 3);
    Round4(suite, c, h, c3, h2);
    WireRound(suite, c3, h2, Messages(suite, c, h)[3]);
  }

  /** And the host's five bodies: its certificate, the digest and its challenge
      sealed under the same key, its secret with its signature, and twice consent.
      It derives the key and takes the certificate on the first request, and the
      client's commitment on the third. */
  lemma HonestBodies(suite: Suite<Byte>, c: Client<Byte>, h: Host<Byte>)
    requires Honest(suite, c, h)
    ensures suite.certSignature(h.cert).Some?
    ensures var messages, h1, h2 := Messages(suite, c, h), HostKeyed(suite, c, h), HostCommitted(suite, c, h);
      var digest := suite.sha(c.randChallenge + suite.certSignature(h.cert).value + h.serverSecret);
      var sealed := EncryptBlocks(suite, Key(suite, c), digest + h.serverChallenge);
      var secret := h.serverSecret + suite.sign(h.key, h.serverSecret);
      && HandleStep(suite, h, WriteStep(messages[0])) == (h1, Some(Root(YES, Some(Hex(h.cert)), None, None)))
      && HandleStep(suite, h1, WriteStep(messages[1])) == (h1, Some(Root(YES, None, Some(Hex(sealed)), None)))
      && HandleStep(suite, h1, WriteStep(messages[2])) == (h2, Some(Root(YES, None, None, Some(Hex(secret)))))
      && HandleStep(suite, h2, WriteStep(messages[3])) == (h2, Some(Root(YES, None, None, None)))
      && HandleStep(suite, h2, WriteStep(messages[4])) == (h2, Some(Root(YES, None, None, None)))
  {
    FirstBody(suite, c, h);
    SecondBody(suite, c, h);
    ThirdBody(suite, c, h);
    LastBodies(suite, c, h);
  }

  // -------------------------------------------------------------------------
  // What the client makes of any response

  predicate IsPaired(body: Body) {
    body.Root? && body.paired.Some? && Trim(body.paired.value) == Ascii("1")
  }

  /** A client goes on exactly with the evidence for it: a response that says
      paired, and in phase 0 a certificate, in phase 1 something that decrypts to 48
      bytes, in phase 2 a secret signed under the certificate's key that matches
      the digest. */
  lemma AcceptsExactly(suite: Suite<Byte>, c: Client<Byte>, body: Body)
    requires Laws(suite) && Sound(c) && |c.randChallenge| == 16
    ensures Feed(suite, c, body).1.Ok? <==>
      && IsPaired(body)
      && (c.phase == 0 ==> exists cert :: DeliversCert(body, cert))
      && (c.phase == 1 ==> suite.certSignature(c.cert).Some? && exists digest :: DeliversDigest(suite, c, body, digest))
      && (c.phase == 2 ==> ProvesSecret(suite, c, body, c.serverCert.value, c.serverResponse))
  {
    if c.phase == 0 && IsPaired(body) {
      CertField(body);
    }
    if c.phase == 1 && IsPaired(body) && FieldBytes(body.challengeResponse).Some? {
      var plain := DecryptBlocks(suite, c.aesKey, FieldBytes(body.challengeResponse).value);
      if |plain| >= 48 { assert Feed(suite, c, body).1.Ok? ==> DeliversDigest(suite, c, body, plain[..32]); }
    }
  }

  lemma CertField(body: Body)
    requires body.Root?
    ensures ReadCert(body.plaincert).Ok? <==> exists cert :: DeliversCert(body, cert)
  {
    if ReadCert(body.plaincert).Ok? { assert DeliversCert(body, ReadCert(body.plaincert).value); }
  }

  /** What the client sends when it goes on, whatever it was told: its challenge
      sealed under its key; the sealed hash of the host's challenge, its own
      certificate's signature and its secret; that secret with its signature; the
      closing phrase; nothing more. */
  lemma SendsExactly(suite: Suite<Byte>, c: Client<Byte>, body: Body)
    requires Sound(c) && Feed(suite, c, body).1.Ok?
    ensures var sent := Feed(suite, c, body).1.value;
      && (c.phase == 0 ==> sent == Some(Step(Spelled(ClientChallenge(
            EncryptBlocks(suite, c.aesKey, c.randChallenge))), false)))
      && (c.phase == 1 ==>
            && FieldBytes(body.challengeResponse).Some? && suite.certSignature(c.cert).Some?
            && var plain := DecryptBlocks(suite, c.aesKey, FieldBytes(body.challengeResponse).value);
               |plain| >= 48 && sent == Some(Step(Spelled(ServerChallengeResp(
                 EncryptBlocks(suite, c.aesKey,
                   suite.sha(plain[32..48] + suite.certSignature(c.cert).value + c.clientSecret)))), false)))
      && (c.phase == 2 ==> sent == Some(Step(Spelled(ClientPairingSecret(
            c.clientSecret + suite.sign(c.key, c.clientSecret))), false)))
      && (c.phase == 3 ==> sent == Some(Step(Spelled(PairChallenge), true)))
      && (c.phase >= 4 ==> sent == None)
  {
    var out := Advance(suite, c, ReadReply(c.phase, body)).1;
    if out.value.Some? { WrittenAsSpelled(out.value.value); }
  }

  /** The text of a field without white space around it, empty if there is none. */
  function Stripped(field: Option<Bytes>): Bytes {
    if field.None? then [] else Trim(field.value)
  }

  /** The reasons a client gives are true, and the telling ones are given whenever
      they are: not paired; no certificate, so another pairing is going on; a secret
      not signed under the certificate's key; a signed one that does not match the
      digest, so the PIN was wrong. */
  lemma RefusesTruly(suite: Suite<Byte>, c: Client<Byte>, body: Body)
    requires Sound(c) && body.Root?
    ensures var out := Feed(suite, c, body).1;
      && (out == Err(NotPaired) <==> !IsPaired(body))
      && (out == Err(AlreadyInProgress) <==>
            IsPaired(body) && c.phase == 0 && Stripped(body.plaincert) == [])
      && (out == Err(BadServerSignature) <==>
            IsPaired(body) && c.phase == 2 && Signed(suite, c, body) == Some(false))
      && (out == Err(WrongPin) <==>
            && IsPaired(body) && c.phase == 2 && Signed(suite, c, body) == Some(true)
            && suite.certSignature(c.serverCert.value).Some?
            && !ProvesSecret(suite, c, body, c.serverCert.value, c.serverResponse))
  {
  }

  /** The text of the field that a client reads in its phase. */
  function FieldOf(phase: nat, body: Body): Option<Bytes>
    requires body.Root?
  {
    if phase == 0 then body.plaincert else if phase == 1 then body.challengeResponse else body.pairingSecret
  }

  /** What is broken is said to be: a document that is none, or whose status is not
      success; a field that is missing (in phase 0 that means something else) or not
      hexadecimal; a certificate that is no text, an answer that decrypts to less
      than 48 bytes, a secret without a signature. */
  lemma ReportsDamage(suite: Suite<Byte>, c: Client<Byte>, body: Body)
    requires Sound(c)
    ensures var out := Feed(suite, c, body).1;
      && (out == Err(Xml) <==> body.BadXml?)
      && (forall code :: out == Err(Status(code)) <==> body == BadStatus(code))
      && (IsPaired(body) && c.phase <= 2 && Stripped(FieldOf(c.phase, body)) != [] ==>
            (out == Err(HexError) <==> FieldBytes(FieldOf(c.phase, body)).None?))
      && (IsPaired(body) && 1 <= c.phase <= 2 ==> (out == Err(Missing) <==> FieldOf(c.phase, body).None?))
      && (IsPaired(body) && c.phase <= 2 && FieldBytes(FieldOf(c.phase, body)).Some? ==>
            var raw := FieldBytes(FieldOf(c.phase, body)).value;
            out == Err(Malformed) <==>
              if c.phase == 0 then raw != [] && !IsUtf8(raw)
              else if c.phase == 1 then
                raw != [] && |raw| % 16 == 0 && |DecryptBlocks(suite, c.aesKey, raw)| < 48
              else |raw| <= 16)
  {
  }

  /** Whether the secret in the body is signed under the key of the certificate the
      client holds; None when there is no such secret or key. */
  function Signed(suite: Suite<Byte>, c: Client<Byte>, body: Body): Option<bool>
    requires body.Root? && Sound(c) && c.phase >= 1
  {
    var raw, pk := FieldBytes(body.pairingSecret), suite.certPublicKey(c.serverCert.value);
    if raw.None? || |raw.value| <= 16 || pk.None? then None
    else Some(suite.verify(pk.value, raw.value[..16], raw.value[16..]))
  }
}
