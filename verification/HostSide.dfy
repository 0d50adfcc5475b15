/** The simulated host against arbitrary requests: what it answers follows from the
    steps it was handed, and its consent proves the client's certificate. */
module HostSide {
  import opened ByteStrings
  import opened Handshake
  import opened PairingWire

  /** Every step a host was handed, oldest first. */
  datatype Handed = Nothing | Hand(past: Handed, step: Step)

  function HostAfter(suite: Suite<Byte>, start: Host<Byte>, t: Handed): Host<Byte> {
    match t
    case Nothing => start
    case Hand(past, step) => HandleStep(suite, HostAfter(suite, start, past), step).0
  }

  /** The message in a step that does not come over HTTPS. */
  function MessageIn(step: Step): Option<Message<Byte>> {
    if step.https then None else ReadMessage(step.args)
  }

  // -------------------------------------------------------------------------
  // What the steps leave with the host

  /** The PIN a host goes by for a first message: its own without one-time text; with
      one, the one-time PIN if the text is the hash of that PIN, the salt as written
      and the passphrase, and 9999 if not. */
  function PinFor(suite: Suite<Byte>, start: Host<Byte>, saltText: Bytes, otpauth: Option<Bytes>): Option<Bytes> {
    if otpauth.None? then Some(start.pin)
    else if start.otp.None? then None
    else if HexUpper(suite.sha(start.otp.value.pin + saltText + start.otp.value.passphrase)) == otpauth.value
    then Some(start.otp.value.pin)
    else Some(Ascii("9999"))
  }

  function CertHeld(start: Host<Byte>, t: Handed): Option<Bytes> {
    if t.Nothing? then start.clientCert
    else
      var m := MessageIn(t.step);
      if m.Some? && m.value.GetServerCert? then Some(m.value.cert) else CertHeld(start, t.past)
  }

  function KeyHeld(suite: Suite<Byte>, start: Host<Byte>, t: Handed): Option<Bytes> {
    if t.Nothing? then start.aesKey
    else
      var m := MessageIn(t.step);
      if m.Some? && m.value.GetServerCert? && KeyFor(suite, start, m.value).Some? then KeyFor(suite, start, m.value)
      else KeyHeld(suite, start, t.past)
  }

  /** The key hashed from the first sixteen bytes of the salt and the PIN. */
  function KeyFor(suite: Suite<Byte>, start: Host<Byte>, m: Message<Byte>): Option<Bytes>
    requires m.GetServerCert?
  {
    var pin := PinFor(suite, start, m.saltText, m.otpauth);
    if pin.None? || |m.salt| < 16 || |suite.sha(m.salt[..16] + pin.value)| < 16 then None
    else Some(suite.sha(m.salt[..16] + pin.value)[..16])
  }

  function HashHeld(suite: Suite<Byte>, start: Host<Byte>, t: Handed): Bytes {
    if t.Nothing? then start.clientHash
    else
      var m, key := MessageIn(t.step), KeyHeld(suite, start, t.past);
      if m.Some? && m.value.ServerChallengeResp? && key.Some? && WholeBlocks(m.value.sealed)
      then DecryptBlocks(suite, key.value, m.value.sealed)
      else HashHeld(suite, start, t.past)
  }

  predicate WholeBlocks(data: Bytes) {
    data != [] && |data| % 16 == 0
  }

  lemma SaltIsLong(step: Step)
    ensures MessageIn(step).Some? && MessageIn(step).value.GetServerCert? ==> |MessageIn(step).value.salt| >= 16
  {
  }

  lemma ServeLeaves(suite: Suite<Byte>, h: Host<Byte>, m: Message<Byte>)
    requires Laws(suite) && OnBytes(suite) && (m.GetServerCert? ==> |m.salt| >= 16)
    ensures var h' := Serve(suite, h, m).0;
      if m.GetServerCert? then
        h' == h.(clientCert := Some(m.cert),
                 aesKey := if KeyFor(suite, h, m).Some? then KeyFor(suite, h, m) else h.aesKey)
      else if m.ServerChallengeResp? && h.aesKey.Some? && WholeBlocks(m.sealed) then
        h' == h.(clientHash := DecryptBlocks(suite, h.aesKey.value, m.sealed))
      else h' == h
  {
  }

  /** The host with what it holds replaced. */
  function Holding(h: Host<Byte>, cert: Option<Bytes>, key: Option<Bytes>, hash: Bytes): Host<Byte> {
    h.(clientCert := cert, aesKey := key, clientHash := hash)
  }

  lemma StepLeaves(suite: Suite<Byte>, h: Host<Byte>, step: Step)
    ensures HandleStep(suite, h, step).0 ==
            if MessageIn(step).Some? then Serve(suite, h, MessageIn(step).value).0 else h
  {
  }

  /** A host holds the certificate of the last first message, the key settled on
      last, and what the last commitment opened to; all else stays. */
  lemma {:induction false} HostHolds(suite: Suite<Byte>, start: Host<Byte>, t: Handed)
    requires Laws(suite) && OnBytes(suite)
    ensures HostAfter(suite, start, t) ==
            Holding(start, CertHeld(start, t), KeyHeld(suite, start, t), HashHeld(suite, start, t))
  {
    if t.Nothing? {
    } else {
      HostHolds(suite, start, t.past);
      var h := HostAfter(suite, start, t.past);
      StepLeaves(suite, h, t.step);
      SaltIsLong(t.step);
      if MessageIn(t.step).Some? {
        ServeLeaves(suite, h, MessageIn(t.step).value);
        if MessageIn(t.step).value.GetServerCert? {
          assert KeyFor(suite, h, MessageIn(t.step).value) == KeyFor(suite, start, MessageIn(t.step).value);
        }
      }
    }
  }

  // -------------------------------------------------------------------------
  // What it answers

  const YES: Option<Bytes> := Some(Ascii("1"))
  const NO: Option<Bytes> := Some(Ascii("0"))

  /** The secret in a payload matches the commitment held and is signed under the key
      of the certificate held; None when there is nothing to compare. */
  function Consent(suite: Suite<Byte>, start: Host<Byte>, t: Handed, payload: Bytes): Option<bool> {
    var cert, hash := CertHeld(start, t), HashHeld(suite, start, t);
    if |payload| < 16 || cert.None? || |hash| < 32
       || suite.certSignature(cert.value).None? || suite.certPublicKey(cert.value).None?
    then None
    else
      Some(suite.sha(start.serverChallenge + suite.certSignature(cert.value).value + payload[..16]) == hash[..32]
           && suite.verify(suite.certPublicKey(cert.value).value, payload[..16], payload[16..]))
  }

  /** The body due to a step after others; None for a panic. */
  function BodyDue(suite: Suite<Byte>, start: Host<Byte>, t: Handed, step: Step): Option<Body> {
    if step.https then Some(Root(YES, None, None, None))
    else if MessageIn(step).None? then None
    else
      var m := MessageIn(step).value;
      BodyFor(suite, start, KeyHeld(suite, start, t),
              if m.ClientPairingSecret? then Consent(suite, start, t, m.payload) else None, m)
  }

  function BodyFor(suite: Suite<Byte>, start: Host<Byte>, key: Option<Bytes>, consent: Option<bool>, m: Message<Byte>)
    : Option<Body>
  {
    if m.GetServerCert? then
      if PinFor(suite, start, m.saltText, m.otpauth).None? then None
      else Some(Root(YES, Some(Hex(start.cert)), None, None))
    else if m.ClientChallenge? then ChallengeBody(suite, start, key, m.sealed)
    else if m.ServerChallengeResp? then
      if key.None? || !WholeBlocks(m.sealed) then None
      else Some(Root(YES, None, None, Some(Hex(start.serverSecret + suite.sign(start.key, start.serverSecret)))))
    else if m.ClientPairingSecret? then
      if consent.None? then None else Some(Root(if consent.value then YES else NO, None, None, None))
    else Some(Root(YES, None, None, None))
  }

  /** The digest of the opened challenge, the host's certificate's signature and its
      secret, then its own challenge, sealed. */
  function ChallengeBody(suite: Suite<Byte>, start: Host<Byte>, key: Option<Bytes>, sealed: Bytes): Option<Body> {
    if key.None? || suite.certSignature(start.cert).None? || !WholeBlocks(sealed) then None
    else
      var plain := DecryptBlocks(suite, key.value, sealed);
      var digest := suite.sha(plain + suite.certSignature(start.cert).value + start.serverSecret);
      if !WholeBlocks(digest + start.serverChallenge) then None
      else Some(Root(YES, None, Some(Hex(EncryptBlocks(suite, key.value, digest + start.serverChallenge))), None))
  }

  lemma StepAnswers(suite: Suite<Byte>, h: Host<Byte>, step: Step)
    requires !step.https && MessageIn(step).Some?
    ensures var m := MessageIn(step).value;
      var reply := Serve(suite, h, m).1;
      HandleStep(suite, h, step).1 == if reply.None? then None else Some(WriteReply(m, reply.value))
  {
  }

  lemma ChallengeAnswered(suite: Suite<Byte>, h: Host<Byte>, sealed: Bytes)
    ensures var reply := ServeChallenge(suite, h, sealed);
      ChallengeBody(suite, h, h.aesKey, sealed) ==
      if reply.None? then None else Some(WriteReply(ClientChallenge(sealed), reply.value))
  {
  }

  lemma MessageAnswered(suite: Suite<Byte>, h: Host<Byte>, m: Message<Byte>)
    requires Laws(suite) && OnBytes(suite) && (m.GetServerCert? ==> |m.salt| >= 16)
    ensures var reply := Serve(suite, h, m).1;
      BodyFor(suite, h, h.aesKey, if m.ClientPairingSecret? then CheckClient(suite, h, m.payload) else None, m) ==
      if reply.None? then None else Some(WriteReply(m, reply.value))
  {
    if m.ClientChallenge? { ChallengeAnswered(suite, h, m.sealed); }
  }

  /** What a host holds does not enter into the body otherwise. */
  lemma SameBody(suite: Suite<Byte>, start: Host<Byte>, h: Host<Byte>, key: Option<Bytes>, consent: Option<bool>,
                 m: Message<Byte>)
    requires h == Holding(start, h.clientCert, h.aesKey, h.clientHash)
    ensures BodyFor(suite, h, key, consent, m) == BodyFor(suite, start, key, consent, m)
  {
  }

  lemma ConsentGiven(suite: Suite<Byte>, start: Host<Byte>, t: Handed, payload: Bytes)
    requires Laws(suite) && OnBytes(suite)
    ensures CheckClient(suite, HostAfter(suite, start, t), payload) == Consent(suite, start, t, payload)
  {
    HostHolds(suite, start, t);
  }

  /** Whatever a host was handed, it answers the body due; in particular it consents
      to a pairing secret exactly if the secret matches the commitment it opened
      last and is signed under the key of the certificate it was handed last. */
  lemma BodyIsDue(suite: Suite<Byte>, start: Host<Byte>, t: Handed, step: Step)
    requires Laws(suite) && OnBytes(suite)
    ensures HandleStep(suite, HostAfter(suite, start, t), step).1 == BodyDue(suite, start, t, step)
  {
    var h := HostAfter(suite, start, t);
    if step.https || MessageIn(step).None? {
    } else {
      var m := MessageIn(step).value;
      HostHolds(suite, start, t);
      SaltIsLong(step);
      StepAnswers(suite, h, step);
      MessageAnswered(suite, h, m);
      var consent := if m.ClientPairingSecret? then CheckClient(suite, h, m.payload) else None;
      SameBody(suite, start, h, h.aesKey, consent, m);
      if m.ClientPairingSecret? { ConsentGiven(suite, start, t, m.payload); }
    }
  }
}
