/** The handshake as it travels: hexadecimal fields in query strings one way, in
    parsed response documents the other. */
module PairingWire {
  import opened ByteStrings
  import opened Handshake
  import Q = Query

  /** A request: the query string, and whether it goes over HTTPS. */
  datatype Step = Step(args: Bytes, https: bool)

  /** A response document as the XML reader delivers it: the text of the first
      child of each name. */
  datatype Body =
    | BadXml
    | BadStatus(code: int)
    | Root(paired: Option<Bytes>, plaincert: Option<Bytes>, challengeResponse: Option<Bytes>,
           pairingSecret: Option<Bytes>)

  const DEVICENAME: Bytes := Ascii("devicename")
  const UPDATE_STATE: Bytes := Ascii("updateState")
  const PHRASE: Bytes := Ascii("phrase")
  const SALT: Bytes := Ascii("salt")
  const CLIENTCERT: Bytes := Ascii("clientcert")
  const OTPAUTH: Bytes := Ascii("otpauth")
  const CLIENTCHALLENGE: Bytes := Ascii("clientchallenge")
  const SERVERCHALLENGERESP: Bytes := Ascii("serverchallengeresp")
  const CLIENTPAIRINGSECRET: Bytes := Ascii("clientpairingsecret")
  const ROTH: Bytes := Ascii("roth")
  const GETSERVERCERT: Bytes := Ascii("getservercert")
  const PAIRCHALLENGE: Bytes := Ascii("pairchallenge")
  const ONE: Bytes := Ascii("1")
  const ZERO: Bytes := Ascii("0")

  /** The suite works on bytes, and its texts are hexadecimal. */
  ghost predicate OnBytes(suite: Suite<Byte>) {
    && (forall b: Bytes :: suite.hexLower(b) == Hex(b))
    && (forall b: Bytes :: suite.hexUpper(b) == HexUpper(b))
    && suite.garbagePin == Ascii("9999")
  }

  // -------------------------------------------------------------------------
  // Requests

  const COMMON: Q.Pairs := [(DEVICENAME, ROTH), (UPDATE_STATE, ONE)]

  function Params(m: Message<Byte>): (params: Q.Pairs)
    ensures params != []
  {
    match m
    case GetServerCert(saltText, salt, cert, otpauth) =>
      COMMON + [(PHRASE, GETSERVERCERT), (SALT, saltText), (CLIENTCERT, Hex(cert))]
      + (if otpauth.Some? then [(OTPAUTH, otpauth.value)] else [])
    case ClientChallenge(sealed) => COMMON + [(CLIENTCHALLENGE, Hex(sealed))]
    case ServerChallengeResp(sealed) => COMMON + [(SERVERCHALLENGERESP, Hex(sealed))]
    case ClientPairingSecret(payload) => COMMON + [(CLIENTPAIRINGSECRET, Hex(payload))]
    case PairChallenge => COMMON + [(PHRASE, PAIRCHALLENGE)]
  }

  function WriteStep(m: Message<Byte>): Step {
    Step(Q.Format(Params(m)), m.PairChallenge?)
  }

  /** The request the host sees in a query string; None where it would panic. */
  function ReadMessage(args: Bytes): Option<Message<Byte>> {
    if Q.Param(args, PHRASE) == Some(GETSERVERCERT) then
      match (Q.Param(args, SALT), Q.Param(args, CLIENTCERT))
      case (Some(saltText), Some(certText)) =>
        (match (Unhex(saltText), Unhex(certText))
         case (Some(salt), Some(cert)) =>
           if |salt| < 16 || !IsUtf8(cert) then None
           else Some(GetServerCert(saltText, salt, cert, Q.Param(args, OTPAUTH)))
         case _ => None)
      case _ => None
    else if Q.Param(args, CLIENTCHALLENGE).Some? then
      match Unhex(Q.Param(args, CLIENTCHALLENGE).value)
      case Some(sealed) => Some(ClientChallenge(sealed))
      case None => None
    else if Q.Param(args, SERVERCHALLENGERESP).Some? then
      match Unhex(Q.Param(args, SERVERCHALLENGERESP).value)
      case Some(sealed) => Some(ServerChallengeResp(sealed))
      case None => None
    else if Q.Param(args, CLIENTPAIRINGSECRET).Some? then
      match Unhex(Q.Param(args, CLIENTPAIRINGSECRET).value)
      case Some(payload) => Some(ClientPairingSecret(payload))
      case None => None
    else None
  }

  // -------------------------------------------------------------------------
  // Responses

  function WriteReply(m: Message<Byte>, r: Reply<Byte>): Body {
    var paired := Some(if r.paired then ONE else ZERO);
    var field := match r.field case Ok(b) => Some(Hex(b)) case Err(_) => None;
    match m
    case GetServerCert(_, _, _, _) => Root(paired, field, None, None)
    case ClientChallenge(_) => Root(paired, None, field, None)
    case ServerChallengeResp(_) => Root(paired, None, None, field)
    case _ => Root(paired, None, None, None)
  }

  function ReadHex(text: Option<Bytes>): Result<Bytes, PairError> {
    match text
    case None => Err(Missing)
    case Some(t) => match Unhex(Trim(t)) case None => Err(HexError) case Some(b) => Ok(b)
  }

  function ReadCert(text: Option<Bytes>): Result<Bytes, PairError> {
    var t := Trim(if text.Some? then text.value else []);
    if t == [] then Err(AlreadyInProgress)
    else
      match Unhex(t)
      case None => Err(HexError)
      case Some(b) => if IsUtf8(b) then Ok(b) else Err(Malformed)
  }

  /** What the client makes of a response in a given phase. */
  function ReadReply(phase: nat, body: Body): Reply<Byte>
    requires body.Root?
  {
    Reply(body.paired.Some? && Trim(body.paired.value) == ONE,
          if phase == 0 then ReadCert(body.plaincert)
          else if phase == 1 then ReadHex(body.challengeResponse)
          else if phase == 2 then ReadHex(body.pairingSecret)
          else Err(Missing))
  }

  // -------------------------------------------------------------------------
  // One response and one request, on the wire

  type Fed = (Client<Byte>, Result<Option<Step>, PairError>)

  function Feed(suite: Suite<Byte>, c: Client<Byte>, body: Body): (f: Fed)
    requires Sound(c)
    ensures Sound(f.0)
    ensures f.1.Err? ==> f.0.phase == c.phase && f.0.serverCert == c.serverCert
    ensures f.1.Ok? ==> f.0.phase == (if c.phase < 5 then c.phase + 1 else 5)
    ensures f.1.Ok? ==> (f.1.value.Some? <==> c.phase < 4)
    ensures f.1.Ok? && f.1.value.Some? ==> (f.1.value.value.https <==> f.0.phase == 4)
  {
    match body
    case BadXml => (c, Err(Xml))
    case BadStatus(code) => (c, Err(Status(code)))
    case Root(_, _, _, _) =>
      var (c', out) := Advance(suite, c, ReadReply(c.phase, body));
      (c', match out
           case Err(e) => Err(e)
           case Ok(None) => Ok(None)
           case Ok(Some(m)) => Ok(Some(WriteStep(m))))
  }

  function HandleStep(suite: Suite<Byte>, h: Host<Byte>, step: Step): (Host<Byte>, Option<Body>) {
    if step.https then (h, Some(Root(Some(ONE), None, None, None)))
    else
      match ReadMessage(step.args)
      case None => (h, None)
      case Some(m) =>
        var (h', reply) := Serve(suite, h, m);
        (h', match reply case None => None case Some(r) => Some(WriteReply(m, r)))
  }

  datatype Talk = Talk(client: Client<Byte>, host: Host<Byte>, outcome: Outcome, requests: seq<Step>)

  /** The client's steps fed to the host and its responses fed back. */
  function TalkFrom(suite: Suite<Byte>, c: Client<Byte>, h: Host<Byte>, step: Step, sent: seq<Step>): Talk
    requires Sound(c)
    decreases 5 - c.phase
  {
    var sent' := sent + [step];
    var (h', body) := HandleStep(suite, h, step);
    match body
    case None => Talk(c, h', Panicked, sent')
    case Some(b) =>
      var (c', out) := Feed(suite, c, b);
      match out
      case Err(e) => Talk(c', h', Failed(e), sent')
      case Ok(None) => Talk(c', h', Finished, sent')
      case Ok(Some(step')) => TalkFrom(suite, c', h', step', sent')
  }

  function TalkAll(suite: Suite<Byte>, c: Client<Byte>, h: Host<Byte>): Talk
    requires Sound(c)
  {
    TalkFrom(suite, c, h, WriteStep(FirstRequest(suite, c)), [])
  }

  // -------------------------------------------------------------------------
  // The wire form is faithful

  lemma NamesAreFree()
    ensures Q.Free(DEVICENAME, Q.AMP) && Q.Free(DEVICENAME, Q.EQUALS)
    ensures Q.Free(UPDATE_STATE, Q.AMP) && Q.Free(UPDATE_STATE, Q.EQUALS)
    ensures Q.Free(PHRASE, Q.AMP) && Q.Free(PHRASE, Q.EQUALS)
    ensures Q.Free(SALT, Q.AMP) && Q.Free(SALT, Q.EQUALS)
    ensures Q.Free(OTPAUTH, Q.AMP) && Q.Free(OTPAUTH, Q.EQUALS)
    ensures Q.Free(ROTH, Q.AMP) && Q.Free(ONE, Q.AMP)
  {
  }

  lemma LongNamesAreFree()
    ensures Q.Free(CLIENTCERT, Q.AMP) && Q.Free(CLIENTCERT, Q.EQUALS)
    ensures Q.Free(CLIENTCHALLENGE, Q.AMP) && Q.Free(CLIENTCHALLENGE, Q.EQUALS)
    ensures Q.Free(SERVERCHALLENGERESP, Q.AMP) && Q.Free(SERVERCHALLENGERESP, Q.EQUALS)
    ensures Q.Free(CLIENTPAIRINGSECRET, Q.AMP) && Q.Free(CLIENTPAIRINGSECRET, Q.EQUALS)
    ensures Q.Free(GETSERVERCERT, Q.AMP) && Q.Free(PAIRCHALLENGE, Q.AMP)
  {
  }

  lemma NamesDiffer()
    ensures DEVICENAME != CLIENTCERT
    ensures SERVERCHALLENGERESP != CLIENTPAIRINGSECRET
    ensures |DEVICENAME| == |CLIENTCERT| == 10 && |UPDATE_STATE| == 11 && |PHRASE| == 6 && |SALT| == 4
    ensures |OTPAUTH| == 7 && |CLIENTCHALLENGE| == 15
    ensures |SERVERCHALLENGERESP| == |CLIENTPAIRINGSECRET| == 19
  {
    assert DEVICENAME[0] == 100 && CLIENTCERT[0] == 99;
    assert SERVERCHALLENGERESP[0] == 115 && CLIENTPAIRINGSECRET[0] == 99;
  }

  lemma HexIsFree(b: Bytes)
    ensures Q.Free(Hex(b), Q.AMP) && Q.Free(HexUpper(b), Q.AMP)
  {
    HexIsDigits(b);
    HexUpperIsDigits(b);
    forall i | 0 <= i < |Hex(b)| ensures Hex(b)[i] != Q.AMP { assert IsHexDigit(Hex(b)[i]); }
    forall i | 0 <= i < |HexUpper(b)| ensures HexUpper(b)[i] != Q.AMP { assert IsHexDigit(HexUpper(b)[i]); }
  }

  lemma TrimHex(b: Bytes)
    ensures Trim(Hex(b)) == Hex(b)
  {
    HexIsDigits(b);
    if b != [] {
      assert IsHexDigit(Hex(b)[0]) && IsHexDigit(Hex(b)[|Hex(b)| - 1]);
    }
  }

  /** The messages a client writes. */
  predicate Writable(m: Message<Byte>) {
    m.GetServerCert? ==>
      && m.saltText == Hex(m.salt) && |m.salt| >= 16 && IsUtf8(m.cert)
      && (m.otpauth.Some? ==> Q.Free(m.otpauth.value, Q.AMP))
  }

  lemma ParamsAreClean(m: Message<Byte>)
    requires Writable(m)
    ensures Q.Clean(Params(m))
  {
    NamesAreFree();
    LongNamesAreFree();
    match m {
      case GetServerCert(saltText, salt, cert, otpauth) => HexIsFree(salt); HexIsFree(cert);
      case ClientChallenge(sealed) => HexIsFree(sealed);
      case ServerChallengeResp(sealed) => HexIsFree(sealed);
      case ClientPairingSecret(payload) => HexIsFree(payload);
      case PairChallenge =>
    }
  }
}
