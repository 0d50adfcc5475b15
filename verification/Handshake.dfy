/** The GameStream pairing handshake on decoded messages, generic in the bytes it
    is made of: `PairingWire` runs it on real bytes in hexadecimal query strings,
    `SymbolicHandshake` on the terms of an ideal cryptography. */
module Handshake {
  import opened ByteStrings

  /** The cryptography, given as functions. `encrypt` and `decrypt` are the block
      function of AES-128 under a key. */
  datatype Suite<!B> = Suite(
    sha: seq<B> -> seq<B>,
    encrypt: (seq<B>, seq<B>) -> seq<B>,
    decrypt: (seq<B>, seq<B>) -> seq<B>,
    sign: (seq<B>, seq<B>) -> seq<B>,
    verify: (seq<B>, seq<B>, seq<B>) -> bool,
    publicOf: seq<B> -> seq<B>,
    certSignature: seq<B> -> Option<seq<B>>,
    certPublicKey: seq<B> -> Option<seq<B>>,
    hexLower: seq<B> -> seq<B>,
    hexUpper: seq<B> -> seq<B>,
    garbagePin: seq<B>)

  ghost predicate BlockLaws<B(!new)>(suite: Suite<B>) {
    && (forall key: seq<B>, b: seq<B> :: |b| == 16 ==> |suite.encrypt(key, b)| == 16)
    && (forall key: seq<B>, b: seq<B> :: |b| == 16 ==> |suite.decrypt(key, b)| == 16)
    && (forall key: seq<B>, b: seq<B> :: |b| == 16 ==> suite.decrypt(key, suite.encrypt(key, b)) == b)
  }

  ghost predicate Laws<B(!new)>(suite: Suite<B>) {
    && BlockLaws(suite)
    && (forall m: seq<B> :: |suite.sha(m)| == 32)
    && (forall key: seq<B>, m: seq<B> :: |suite.sign(key, m)| > 0)
    && (forall key: seq<B>, m: seq<B> :: suite.verify(suite.publicOf(key), m, suite.sign(key, m)))
  }

  /** The certificate belongs to the private key. */
  predicate Certifies<B(==)>(suite: Suite<B>, cert: seq<B>, key: seq<B>) {
    suite.certSignature(cert).Some? && suite.certPublicKey(cert) == Some(suite.publicOf(key))
  }

  datatype PairError =
    | Xml | Status(code: int) | NotPaired | AlreadyInProgress | WrongPin | BadServerSignature
    | Malformed | HexError | Missing | Crypto

  // -------------------------------------------------------------------------
  // AES-128-ECB without padding (section 6.1 of NIST SP 800-38A)

  predicate BlockLengthOk<B>(data: seq<B>) {
    |data| != 0 && |data| % 16 == 0
  }

  /** `f` applied to the whole blocks of `data` one by one; a shorter rest is
      left as it is. */
  function MapBlocks<B>(f: seq<B> -> seq<B>, data: seq<B>): seq<B> {
    if |data| < 16 then data else f(data[..16]) + MapBlocks(f, data[16..])
  }

  function Sealing<B>(suite: Suite<B>, key: seq<B>): seq<B> -> seq<B> {
    b => suite.encrypt(key, b)
  }

  function Opening<B>(suite: Suite<B>, key: seq<B>): seq<B> -> seq<B> {
    b => suite.decrypt(key, b)
  }

  function EncryptBlocks<B>(suite: Suite<B>, key: seq<B>, data: seq<B>): seq<B> {
    MapBlocks(Sealing(suite, key), data)
  }

  function DecryptBlocks<B>(suite: Suite<B>, key: seq<B>, data: seq<B>): seq<B> {
    MapBlocks(Opening(suite, key), data)
  }

  function Encrypt<B>(suite: Suite<B>, key: seq<B>, data: seq<B>): Result<seq<B>, PairError> {
    if BlockLengthOk(data) then Ok(EncryptBlocks(suite, key, data)) else Err(Crypto)
  }

  function Decrypt<B>(suite: Suite<B>, key: seq<B>, data: seq<B>): Result<seq<B>, PairError> {
    if BlockLengthOk(data) then Ok(DecryptBlocks(suite, key, data)) else Err(Crypto)
  }

  ghost predicate KeepsBlocks<B(!new)>(f: seq<B> -> seq<B>) {
    forall b: seq<B> :: |b| == 16 ==> |f(b)| == 16
  }

  lemma {:induction false} MapLength<B(!new)>(f: seq<B> -> seq<B>, data: seq<B>)
    requires KeepsBlocks(f)
    ensures |MapBlocks(f, data)| == |data|
  {
    if |data| < 16 {
    } else {
      assert |data[..16]| == 16;
      MapLength(f, data[16..]);
    }
  }

  lemma BlocksLength<B(!new)>(suite: Suite<B>, key: seq<B>, data: seq<B>)
    requires BlockLaws(suite)
    ensures KeepsBlocks(Sealing(suite, key)) && KeepsBlocks(Opening(suite, key))
    ensures |EncryptBlocks(suite, key, data)| == |data| == |DecryptBlocks(suite, key, data)|
  {
    MapLength(Sealing(suite, key), data);
    MapLength(Opening(suite, key), data);
  }

  lemma {:induction false} MapUndoes<B(!new)>(f: seq<B> -> seq<B>, g: seq<B> -> seq<B>, data: seq<B>)
    requires KeepsBlocks(f) && forall b: seq<B> :: |b| == 16 ==> g(f(b)) == b
    ensures MapBlocks(g, MapBlocks(f, data)) == data
  {
    if |data| < 16 {
    } else {
      var head, tail := data[..16], data[16..];
      MapUndoes(f, g, tail);
      var mapped := MapBlocks(f, data);
      assert |f(head)| == 16;
      assert mapped[..16] == f(head) && mapped[16..] == MapBlocks(f, tail);
      assert data == head + tail;
    }
  }

  lemma DecryptUndoesEncryptBlocks<B(!new)>(suite: Suite<B>, key: seq<B>, data: seq<B>)
    requires BlockLaws(suite)
    ensures DecryptBlocks(suite, key, EncryptBlocks(suite, key, data)) == data
  {
    MapUndoes(Sealing(suite, key), Opening(suite, key), data);
  }

  /** Decrypting undoes encrypting for every key and every message the length
      check lets through; both refuse exactly the same lengths. */
  lemma EcbRoundTrip<B(!new)>(suite: Suite<B>, key: seq<B>, data: seq<B>)
    requires BlockLaws(suite)
    ensures Encrypt(suite, key, data).Ok? <==> |data| > 0 && |data| % 16 == 0
    ensures Decrypt(suite, key, data).Ok? <==> |data| > 0 && |data| % 16 == 0
    ensures Encrypt(suite, key, data).Ok? ==>
              && |Encrypt(suite, key, data).value| == |data|
              && Decrypt(suite, key, Encrypt(suite, key, data).value) == Ok(data)
  {
    if BlockLengthOk(data) {
      BlocksLength(suite, key, data);
      DecryptUndoesEncryptBlocks(suite, key, data);
    }
  }

  lemma {:induction false} MapAt<B(!new)>(f: seq<B> -> seq<B>, data: seq<B>, n: nat)
    requires KeepsBlocks(f) && n % 16 == 0 && n + 16 <= |data|
    ensures |MapBlocks(f, data)| == |data|
    ensures MapBlocks(f, data)[n..n + 16] == f(data[n..n + 16])
  {
    var head, tail := data[..16], data[16..];
    assert |head| == 16 && |f(head)| == 16;
    MapLength(f, data);
    var mapped := MapBlocks(f, data);
    if n == 0 {
      assert mapped[0..16] == f(head) && data[0..16] == head;
    } else {
      MapAt(f, tail, n - 16);
      SliceOfTail(mapped, 16, n - 16, n);
      SliceOfTail(data, 16, n - 16, n);
      assert mapped[16..] == MapBlocks(f, tail);
    }
  }

  /** Each block goes through the block function on its own, in its own place. */
  lemma EcbIsBlockwise<B(!new)>(suite: Suite<B>, key: seq<B>, data: seq<B>, n: nat)
    requires BlockLaws(suite) && |data| % 16 == 0 && n % 16 == 0 && n + 16 <= |data|
    ensures var sealed := Encrypt(suite, key, data);
      sealed.Ok? && |sealed.value| == |data| && sealed.value[n..n + 16] == suite.encrypt(key, data[n..n + 16])
    ensures var plain := Decrypt(suite, key, data);
      plain.Ok? && |plain.value| == |data| && plain.value[n..n + 16] == suite.decrypt(key, data[n..n + 16])
  {
    BlocksLength(suite, key, data);
    MapAt(Sealing(suite, key), data, n);
    MapAt(Opening(suite, key), data, n);
  }

  // -------------------------------------------------------------------------
  // Messages

  datatype Message<+B> =
    | GetServerCert(saltText: seq<B>, salt: seq<B>, cert: seq<B>, otpauth: Option<seq<B>>)
    | ClientChallenge(sealed: seq<B>)
    | ServerChallengeResp(sealed: seq<B>)
    | ClientPairingSecret(payload: seq<B>)
    | PairChallenge

  /** A response: its `paired` flag and the field the client reads next, or what
      is wrong with that field. */
  datatype Reply<+B> = Reply(paired: bool, field: Result<seq<B>, PairError>)

  datatype OtpAuth<+B> = OtpAuth(pin: seq<B>, passphrase: seq<B>)

  function DeriveKey<B>(suite: Suite<B>, salt: seq<B>, pin: seq<B>): seq<B> {
    var d := suite.sha(salt + pin);
    if |d| < 16 then d else d[..16]
  }

  function OtpText<B>(suite: Suite<B>, otp: OtpAuth<B>, saltText: seq<B>): seq<B> {
    suite.hexUpper(suite.sha(otp.pin + saltText + otp.passphrase))
  }

  // -------------------------------------------------------------------------
  // The client

  datatype Client<+B> = Client(
    cert: seq<B>, key: seq<B>, pin: seq<B>, salt: seq<B>, aesKey: seq<B>, randChallenge: seq<B>,
    clientSecret: seq<B>, serverCert: Option<seq<B>>, serverResponse: seq<B>, phase: nat,
    otp: Option<OtpAuth<B>>)

  function NewClient<B>(suite: Suite<B>, cert: seq<B>, key: seq<B>, pin: seq<B>, otp: Option<OtpAuth<B>>,
                        salt: seq<B>, randChallenge: seq<B>, clientSecret: seq<B>): Client<B>
  {
    Client(cert, key, pin, salt, DeriveKey(suite, salt, pin), randChallenge, clientSecret, None, [], 0, otp)
  }

  function FirstRequest<B>(suite: Suite<B>, c: Client<B>): Message<B> {
    var saltText := suite.hexLower(c.salt);
    GetServerCert(saltText, c.salt, c.cert,
                  if c.otp.Some? then Some(OtpText(suite, c.otp.value, saltText)) else None)
  }

  /** From phase 1 on the server's certificate is there. */
  predicate Sound<B>(c: Client<B>) {
    c.phase <= 5 && (c.phase >= 1 ==> c.serverCert.Some?)
  }

  type Advanced<+B> = (Client<B>, Result<Option<Message<B>>, PairError>)

  /** One response fed to the client. */
  function Advance<B(==)>(suite: Suite<B>, c: Client<B>, r: Reply<B>): (a: Advanced<B>)
    requires Sound(c)
    ensures Sound(a.0)
    ensures a.1.Err? ==> a.0.phase == c.phase && a.0.serverCert == c.serverCert
    ensures a.1.Ok? ==> a.0.phase == (if c.phase < 5 then c.phase + 1 else 5)
    ensures a.1.Ok? ==> (a.1.value.Some? <==> c.phase < 4)
    ensures a.1.Ok? && a.1.value.Some? ==> (a.1.value.value.PairChallenge? <==> a.0.phase == 4)
  {
    if !r.paired then (c, Err(NotPaired))
    else if c.phase == 0 then AcceptCert(suite, c, r.field)
    else if c.phase == 1 then AnswerChallenge(suite, c, r.field)
    else if c.phase == 2 then CheckSecret(suite, c, r.field)
    else if c.phase == 3 then (c.(phase := 4), Ok(Some(PairChallenge)))
    else (c.(phase := 5), Ok(None))
  }

  /** The challenge is 16 bytes, so sealing it cannot fail. */
  function AcceptCert<B>(suite: Suite<B>, c: Client<B>, field: Result<seq<B>, PairError>): (a: Advanced<B>)
    requires Sound(c) && c.phase == 0
    ensures a.1.Err? ==> a.0 == c
    ensures a.1.Ok? ==> a.0.phase == 1 && a.1.value.Some? && a.1.value.value.ClientChallenge?
    ensures Sound(a.0)
  {
    match field
    case Err(e) => (c, Err(e))
    case Ok(cert) =>
      match Encrypt(suite, c.aesKey, c.randChallenge)
      case Err(e) => (c, Err(e))
      case Ok(sealed) => (c.(serverCert := Some(cert), phase := 1), Ok(Some(ClientChallenge(sealed))))
  }

  function AnswerChallenge<B>(suite: Suite<B>, c: Client<B>, field: Result<seq<B>, PairError>): (a: Advanced<B>)
    requires Sound(c) && c.phase == 1
    ensures a.1.Err? ==> a.0.phase == 1
    ensures a.1.Ok? ==> a.0.phase == 2 && a.1.value.Some? && a.1.value.value.ServerChallengeResp?
    ensures Sound(a.0) && a.0.serverCert == c.serverCert
  {
    match field
    case Err(e) => (c, Err(e))
    case Ok(sealed) =>
      match Decrypt(suite, c.aesKey, sealed)
      case Err(e) => (c, Err(e))
      case Ok(plain) =>
        if |plain| < 48 then (c, Err(Malformed))
        else
          var c' := c.(serverResponse := plain[..32]);
          match suite.certSignature(c.cert)
          case None => (c', Err(Crypto))
          case Some(ourSig) =>
            match Encrypt(suite, c.aesKey, suite.sha(plain[32..48] + ourSig + c.clientSecret))
            case Err(e) => (c', Err(e))
            case Ok(resp) => (c'.(phase := 2), Ok(Some(ServerChallengeResp(resp))))
  }

  function CheckSecret<B(==)>(suite: Suite<B>, c: Client<B>, field: Result<seq<B>, PairError>): (a: Advanced<B>)
    requires Sound(c) && c.phase == 2
    ensures a.1.Err? ==> a.0 == c
    ensures a.1.Ok? ==> a.0 == c.(phase := 3) && a.1.value.Some? && a.1.value.value.ClientPairingSecret?
  {
    match field
    case Err(e) => (c, Err(e))
    case Ok(raw) =>
      if |raw| <= 16 then (c, Err(Malformed))
      else
        var secret, sig := raw[..16], raw[16..];
        match suite.certPublicKey(c.serverCert.value)
        case None => (c, Err(Crypto))
        case Some(pk) =>
          if !suite.verify(pk, secret, sig) then (c, Err(BadServerSignature))
          else
            match suite.certSignature(c.serverCert.value)
            case None => (c, Err(Crypto))
            case Some(certSig) =>
              if suite.sha(c.randChallenge + certSig + secret) != c.serverResponse then (c, Err(WrongPin))
              else (c.(phase := 3), Ok(Some(ClientPairingSecret(c.clientSecret + suite.sign(c.key, c.clientSecret)))))
  }

  // -------------------------------------------------------------------------
  // The host

  datatype Host<+B> = Host(
    key: seq<B>, cert: seq<B>, pin: seq<B>, aesKey: Option<seq<B>>, serverSecret: seq<B>,
    serverChallenge: seq<B>, clientCert: Option<seq<B>>, clientHash: seq<B>, otp: Option<OtpAuth<B>>)

  /** The PIN the host settles on; None when an `otpauth` comes and no one-time
      PIN was set up. */
  function ChoosePin<B(==)>(suite: Suite<B>, h: Host<B>, saltText: seq<B>, otpauth: Option<seq<B>>): Option<seq<B>> {
    match otpauth
    case None => Some(h.pin)
    case Some(text) =>
      if h.otp.None? then None
      else if OtpText(suite, h.otp.value, saltText) == text then Some(h.otp.value.pin)
      else Some(suite.garbagePin)
  }

  /** One request served; no reply means the host panicked. */
  function Serve<B(==)>(suite: Suite<B>, h: Host<B>, m: Message<B>): (Host<B>, Option<Reply<B>>) {
    match m
    case GetServerCert(saltText, salt, cert, otpauth) =>
      if |salt| < 16 then (h, None)
      else
        var h' := h.(clientCert := Some(cert));
        (match ChoosePin(suite, h, saltText, otpauth)
         case None => (h', None)
         case Some(pin) =>
           (h'.(aesKey := Some(DeriveKey(suite, salt[..16], pin))), Some(Reply(true, Ok(h.cert)))))
    case ClientChallenge(sealed) => (h, ServeChallenge(suite, h, sealed))
    case ServerChallengeResp(sealed) =>
      if h.aesKey.None? then (h, None)
      else
        (match Decrypt(suite, h.aesKey.value, sealed)
         case Err(_) => (h, None)
         case Ok(hash) =>
           (h.(clientHash := hash), Some(Reply(true, Ok(h.serverSecret + suite.sign(h.key, h.serverSecret))))))
    case ClientPairingSecret(payload) =>
      (match CheckClient(suite, h, payload)
       case None => (h, None)
       case Some(good) => (h, Some(Reply(good, Err(Missing)))))
    case PairChallenge => (h, Some(Reply(true, Err(Missing))))
  }

  function ServeChallenge<B>(suite: Suite<B>, h: Host<B>, sealed: seq<B>): Option<Reply<B>> {
    if h.aesKey.None? || suite.certSignature(h.cert).None? then None
    else
      match Decrypt(suite, h.aesKey.value, sealed)
      case Err(_) => None
      case Ok(plain) =>
        var digest := suite.sha(plain + suite.certSignature(h.cert).value + h.serverSecret);
        match Encrypt(suite, h.aesKey.value, digest + h.serverChallenge)
        case Err(_) => None
        case Ok(resp) => Some(Reply(true, Ok(resp)))
  }

  /** Whether the pairing secret matches the hash sent before and is signed under
      the client's certificate; None stands for a panic. */
  function CheckClient<B(==)>(suite: Suite<B>, h: Host<B>, payload: seq<B>): Option<bool> {
    if |payload| < 16 || h.clientCert.None? || |h.clientHash| < 32 then None
    else
      match (suite.certSignature(h.clientCert.value), suite.certPublicKey(h.clientCert.value))
      case (Some(certSig), Some(pk)) =>
        var secret, sig := payload[..16], payload[16..];
        Some(suite.sha(h.serverChallenge + certSig + secret) == h.clientHash[..32] && suite.verify(pk, secret, sig))
      case _ => None
  }

  // -------------------------------------------------------------------------
  // A conversation

  datatype Outcome = Finished | Failed(error: PairError) | Panicked

  /** How a conversation ended, and the requests that were sent. */
  datatype End<+B> = End(client: Client<B>, host: Host<B>, outcome: Outcome, sent: seq<Message<B>>)

  function Converse<B(==)>(suite: Suite<B>, c: Client<B>, h: Host<B>, m: Message<B>, sent: seq<Message<B>>): End<B>
    requires Sound(c)
    decreases 5 - c.phase
  {
    var sent' := sent + [m];
    var (h', reply) := Serve(suite, h, m);
    match reply
    case None => End(c, h', Panicked, sent')
    case Some(r) =>
      var (c', out) := Advance(suite, c, r);
      match out
      case Err(e) => End(c', h', Failed(e), sent')
      case Ok(None) => End(c', h', Finished, sent')
      case Ok(Some(m')) => Converse(suite, c', h', m', sent')
  }

  function Pair<B(==)>(suite: Suite<B>, c: Client<B>, h: Host<B>): End<B>
    requires Sound(c)
  {
    Converse(suite, c, h, FirstRequest(suite, c), [])
  }

  /** Both parties as they stand before the first request. */
  predicate Ready<B(==)>(suite: Suite<B>, c: Client<B>, h: Host<B>) {
    && |c.salt| == |c.randChallenge| == |c.clientSecret| == 16
    && |h.serverSecret| == |h.serverChallenge| == 16
    && c == NewClient(suite, c.cert, c.key, c.pin, c.otp, c.salt, c.randChallenge, c.clientSecret)
    && Certifies(suite, c.cert, c.key) && Certifies(suite, h.cert, h.key)
    && (c.otp.Some? ==> h.otp.Some?)
  }

  /** The PIN the host settles on for this client. */
  function HostPin<B(==)>(suite: Suite<B>, c: Client<B>, h: Host<B>): seq<B>
    requires Ready(suite, c, h)
  {
    ChoosePin(suite, h, suite.hexLower(c.salt), FirstRequest(suite, c).otpauth).value
  }

  // The script of a conversation. `K` below is the key the host derives; the
  // client's own is `c.aesKey`.

  function HostKey<B(==)>(suite: Suite<B>, c: Client<B>, h: Host<B>): seq<B>
    requires Ready(suite, c, h)
  {
    DeriveKey(suite, c.salt, HostPin(suite, c, h))
  }

  /** What the host answers the challenge with: the digest of what its own key
      makes of it, then its own challenge. */
  function HostAnswer<B(==)>(suite: Suite<B>, c: Client<B>, h: Host<B>): seq<B>
    requires Ready(suite, c, h)
  {
    var K := HostKey(suite, c, h);
    var plain := DecryptBlocks(suite, K, EncryptBlocks(suite, c.aesKey, c.randChallenge));
    var digest := suite.sha(plain + suite.certSignature(h.cert).value + h.serverSecret);
    EncryptBlocks(suite, K, digest + h.serverChallenge)
  }

  /** The 48 bytes the client reads in that answer. */
  function Read<B(==)>(suite: Suite<B>, c: Client<B>, h: Host<B>): seq<B>
    requires Ready(suite, c, h)
  {
    DecryptBlocks(suite, c.aesKey, HostAnswer(suite, c, h))
  }

  lemma ReadLength<B(!new)>(suite: Suite<B>, c: Client<B>, h: Host<B>)
    requires Laws(suite) && Ready(suite, c, h)
    ensures |Read(suite, c, h)| == |HostAnswer(suite, c, h)| == 48
  {
    var K := HostKey(suite, c, h);
    var plain := DecryptBlocks(suite, K, EncryptBlocks(suite, c.aesKey, c.randChallenge));
    var digest := suite.sha(plain + suite.certSignature(h.cert).value + h.serverSecret);
    BlocksLength(suite, K, digest + h.serverChallenge);
    BlocksLength(suite, c.aesKey, HostAnswer(suite, c, h));
  }

  /** The client's test on the third response fails. */
  predicate ClientRejects<B(==)>(suite: Suite<B>, c: Client<B>, h: Host<B>)
    requires Ready(suite, c, h) && |Read(suite, c, h)| == 48
  {
    suite.sha(c.randChallenge + suite.certSignature(h.cert).value + h.serverSecret) != Read(suite, c, h)[..32]
  }

  /** The hash the client commits to. */
  function Commitment<B(==)>(suite: Suite<B>, c: Client<B>, challenge: seq<B>): seq<B>
    requires suite.certSignature(c.cert).Some?
  {
    suite.sha(challenge + suite.certSignature(c.cert).value + c.clientSecret)
  }

  /** The host's test on the fourth request succeeds. */
  predicate HostAgrees<B(==)>(suite: Suite<B>, c: Client<B>, h: Host<B>)
    requires Ready(suite, c, h) && |Read(suite, c, h)| == 48
  {
    var sent := EncryptBlocks(suite, c.aesKey, Commitment(suite, c, Read(suite, c, h)[32..48]));
    Commitment(suite, c, h.serverChallenge) == DecryptBlocks(suite, HostKey(suite, c, h), sent)
  }

  lemma Round1<B(!new)>(suite: Suite<B>, c: Client<B>, h: Host<B>)
    requires Laws(suite) && Ready(suite, c, h)
    ensures var h1 := h.(clientCert := Some(c.cert), aesKey := Some(HostKey(suite, c, h)));
      && Serve(suite, h, FirstRequest(suite, c)) == (h1, Some(Reply(true, Ok(h.cert))))
      && Advance(suite, c, Reply(true, Ok(h.cert))) ==
         (c.(serverCert := Some(h.cert), phase := 1),
          Ok(Some(ClientChallenge(EncryptBlocks(suite, c.aesKey, c.randChallenge)))))
  {
    assert c.salt[..16] == c.salt;
  }

  lemma Round2<B(!new)>(suite: Suite<B>, c: Client<B>, h: Host<B>, c1: Client<B>, h1: Host<B>)
    requires Laws(suite) && Ready(suite, c, h)
    requires c1 == c.(serverCert := Some(h.cert), phase := 1)
    requires h1 == h.(clientCert := Some(c.cert), aesKey := Some(HostKey(suite, c, h)))
    ensures |Read(suite, c, h)| == 48
    ensures Serve(suite, h1, ClientChallenge(EncryptBlocks(suite, c.aesKey, c.randChallenge))) ==
            (h1, Some(Reply(true, Ok(HostAnswer(suite, c, h)))))
    ensures Advance(suite, c1, Reply(true, Ok(HostAnswer(suite, c, h)))) ==
            (c1.(serverResponse := Read(suite, c, h)[..32], phase := 2),
             Ok(Some(ServerChallengeResp(
               EncryptBlocks(suite, c.aesKey, Commitment(suite, c, Read(suite, c, h)[32..48]))))))
  {
    ReadLength(suite, c, h);
    BlocksLength(suite, c.aesKey, c.randChallenge);
    var sealed := EncryptBlocks(suite, c.aesKey, c.randChallenge);
    BlocksLength(suite, HostKey(suite, c, h), sealed);
  }

  lemma Round3<B(!new)>(suite: Suite<B>, c: Client<B>, h: Host<B>, c2: Client<B>, h1: Host<B>, sealed: seq<B>)
    requires Laws(suite) && Ready(suite, c, h) && |Read(suite, c, h)| == 48
    requires c2 == c.(serverCert := Some(h.cert), serverResponse := Read(suite, c, h)[..32], phase := 2)
    requires h1 == h.(clientCert := Some(c.cert), aesKey := Some(HostKey(suite, c, h)))
    requires |sealed| == 32
    ensures var secret := h.serverSecret + suite.sign(h.key, h.serverSecret);
      && Serve(suite, h1, ServerChallengeResp(sealed)) ==
         (h1.(clientHash := DecryptBlocks(suite, HostKey(suite, c, h), sealed)), Some(Reply(true, Ok(secret))))
      && Advance(suite, c2, Reply(true, Ok(secret))) ==
         if ClientRejects(suite, c, h) then (c2, Err(WrongPin))
         else (c2.(phase := 3), Ok(Some(ClientPairingSecret(c.clientSecret + suite.sign(c.key, c.clientSecret)))))
  {
    var sig := suite.sign(h.key, h.serverSecret);
    var secret := h.serverSecret + sig;
    assert secret[..16] == h.serverSecret && secret[16..] == sig;
  }

  lemma Round4<B(!new)>(suite: Suite<B>, c: Client<B>, h: Host<B>, c3: Client<B>, h2: Host<B>)
    requires Laws(suite) && Ready(suite, c, h) && |Read(suite, c, h)| == 48
    requires c3.phase == 3 && c3.serverCert.Some?
    requires h2.clientCert == Some(c.cert) && h2.serverChallenge == h.serverChallenge
    requires h2.clientHash == DecryptBlocks(suite, HostKey(suite, c, h),
               EncryptBlocks(suite, c.aesKey, Commitment(suite, c, Read(suite, c, h)[32..48])))
    ensures Serve(suite, h2, ClientPairingSecret(c.clientSecret + suite.sign(c.key, c.clientSecret))) ==
            (h2, Some(Reply(HostAgrees(suite, c, h), Err(Missing))))
    ensures Advance(suite, c3, Reply(HostAgrees(suite, c, h), Err(Missing))) ==
            if HostAgrees(suite, c, h) then (c3.(phase := 4), Ok(Some(PairChallenge))) else (c3, Err(NotPaired))
  {
    var sig := suite.sign(c.key, c.clientSecret);
    var payload := c.clientSecret + sig;
    assert payload[..16] == c.clientSecret && payload[16..] == sig;
    var sealed := EncryptBlocks(suite, c.aesKey, Commitment(suite, c, Read(suite, c, h)[32..48]));
    BlocksLength(suite, c.aesKey, Commitment(suite, c, Read(suite, c, h)[32..48]));
    BlocksLength(suite, HostKey(suite, c, h), sealed);
    assert h2.clientHash[..32] == h2.clientHash;
  }

  /** One round of a conversation. */
  lemma Turn<B(!new)>(suite: Suite<B>, c: Client<B>, h: Host<B>, m: Message<B>, sent: seq<Message<B>>,
                      h': Host<B>, r: Reply<B>, a: Advanced<B>)
    requires Sound(c) && Serve(suite, h, m) == (h', Some(r)) && Advance(suite, c, r) == a
    ensures Converse(suite, c, h, m, sent) ==
            if a.1.Err? then End(a.0, h', Failed(a.1.error), sent + [m])
            else if a.1.value.None? then End(a.0, h', Finished, sent + [m])
            else Converse(suite, a.0, h', a.1.value.value, sent + [m])
  {
  }

  predicate SendsSecret<B>(m: Message<B>) {
    m.ClientPairingSecret?
  }

  lemma PanicEnds<B(!new)>(suite: Suite<B>, c: Client<B>, h: Host<B>, m: Message<B>, sent: seq<Message<B>>, h': Host<B>)
    requires Sound(c) && Serve(suite, h, m) == (h', None)
    ensures Converse(suite, c, h, m, sent) == End(c, h', Panicked, sent + [m])
  {
  }

  /** The client after two rounds. */
  function ClientHalfway<B(==)>(suite: Suite<B>, c: Client<B>, h: Host<B>): Client<B>
    requires Ready(suite, c, h) && |Read(suite, c, h)| == 48
  {
    c.(serverCert := Some(h.cert), serverResponse := Read(suite, c, h)[..32], phase := 2)
  }

  /** The host after two rounds. */
  function HostHalfway<B(==)>(suite: Suite<B>, c: Client<B>, h: Host<B>): Host<B>
    requires Ready(suite, c, h)
  {
    h.(clientCert := Some(c.cert), aesKey := Some(HostKey(suite, c, h)))
  }

  /** The commitment as the client sends it. */
  function SealedCommitment<B(==)>(suite: Suite<B>, c: Client<B>, h: Host<B>): seq<B>
    requires Ready(suite, c, h) && |Read(suite, c, h)| == 48
  {
    EncryptBlocks(suite, c.aesKey, Commitment(suite, c, Read(suite, c, h)[32..48]))
  }

  lemma CommitmentLength<B(!new)>(suite: Suite<B>, c: Client<B>, h: Host<B>)
    requires Laws(suite) && Ready(suite, c, h)
    ensures |Read(suite, c, h)| == 48 && |SealedCommitment(suite, c, h)| == 32
  {
    ReadLength(suite, c, h);
    BlocksLength(suite, c.aesKey, Commitment(suite, c, Read(suite, c, h)[32..48]));
  }

  function FirstTwo<B(==)>(suite: Suite<B>, c: Client<B>): seq<Message<B>> {
    [FirstRequest(suite, c)] + [ClientChallenge(EncryptBlocks(suite, c.aesKey, c.randChallenge))]
  }

  lemma FirstRound<B(!new)>(suite: Suite<B>, c: Client<B>, h: Host<B>)
    requires Laws(suite) && Ready(suite, c, h)
    ensures Pair(suite, c, h) ==
            Converse(suite, c.(serverCert := Some(h.cert), phase := 1), HostHalfway(suite, c, h),
                     ClientChallenge(EncryptBlocks(suite, c.aesKey, c.randChallenge)), [FirstRequest(suite, c)])
  {
    var m1, m2 := FirstRequest(suite, c), ClientChallenge(EncryptBlocks(suite, c.aesKey, c.randChallenge));
    var c1 := c.(serverCert := Some(h.cert), phase := 1);
    Round1(suite, c, h);
    Turn(suite, c, h, m1, [], HostHalfway(suite, c, h), Reply(true, Ok(h.cert)), (c1, Ok(Some(m2))));
    assert [] + [m1] == [m1];
  }

  /** Every conversation gets through the first two rounds. */
  lemma FirstRounds<B(!new)>(suite: Suite<B>, c: Client<B>, h: Host<B>)
    requires Laws(suite) && Ready(suite, c, h) && |Read(suite, c, h)| == 48
    ensures Pair(suite, c, h) ==
            Converse(suite, ClientHalfway(suite, c, h), HostHalfway(suite, c, h),
                     ServerChallengeResp(SealedCommitment(suite, c, h)), FirstTwo(suite, c))
  {
    var c1, h1 := c.(serverCert := Some(h.cert), phase := 1), HostHalfway(suite, c, h);
    var m2 := ClientChallenge(EncryptBlocks(suite, c.aesKey, c.randChallenge));
    var c2, m3 := ClientHalfway(suite, c, h), ServerChallengeResp(SealedCommitment(suite, c, h));
    FirstRound(suite, c, h);
    Round2(suite, c, h, c1, h1);
    Turn(suite, c1, h1, m2, [FirstRequest(suite, c)], h1, Reply(true, Ok(HostAnswer(suite, c, h))), (c2, Ok(Some(m3))));
  }

  /** What is sent after the first two requests. */
  function LastThree<B(==)>(suite: Suite<B>, c: Client<B>, h: Host<B>): seq<Message<B>>
    requires Ready(suite, c, h) && |Read(suite, c, h)| == 48
  {
    [ServerChallengeResp(SealedCommitment(suite, c, h)),
     ClientPairingSecret(c.clientSecret + suite.sign(c.key, c.clientSecret)),
     PairChallenge]
  }

  /** A conversation decided by the two tests: `WrongPin` on the third response,
      the pairing secret unsent, when the client's test fails; else `NotPaired` on
      the fourth when the host's test fails; else completed on the fifth, with both
      sides on the keys and certificates of the other. */
  predicate DecidedByTests<B(==)>(suite: Suite<B>, c: Client<B>, h: Host<B>, e: End<B>)
    requires Ready(suite, c, h) && |Read(suite, c, h)| == 48
  {
    if ClientRejects(suite, c, h) then
      e.outcome == Failed(WrongPin) && |e.sent| == 3 && e.client.phase == 2
      && forall i | 0 <= i < |e.sent| :: !SendsSecret(e.sent[i])
    else if !HostAgrees(suite, c, h) then
      e.outcome == Failed(NotPaired) && |e.sent| == 4 && e.client.phase == 3
    else
      && e.outcome == Finished && |e.sent| == 5 && e.client.phase == 5
      && e.client.serverCert == Some(h.cert) && e.host.clientCert == Some(c.cert)
      && e.client.aesKey == c.aesKey && e.host.aesKey == Some(HostKey(suite, c, h))
      && e.sent == FirstTwo(suite, c) + LastThree(suite, c, h)
  }

  lemma LastRounds<B(!new)>(suite: Suite<B>, c: Client<B>, h: Host<B>, sent: seq<Message<B>>)
    requires Laws(suite) && Ready(suite, c, h) && |Read(suite, c, h)| == 48
    requires |SealedCommitment(suite, c, h)| == 32
    requires sent == FirstTwo(suite, c)
    ensures DecidedByTests(suite, c, h,
              Converse(suite, ClientHalfway(suite, c, h), HostHalfway(suite, c, h),
                       ServerChallengeResp(SealedCommitment(suite, c, h)), sent))
  {
    var c2, h1, sealed := ClientHalfway(suite, c, h), HostHalfway(suite, c, h), SealedCommitment(suite, c, h);
    Round3(suite, c, h, c2, h1, sealed);
    var m3 := ServerChallengeResp(sealed);
    var h2 := h1.(clientHash := DecryptBlocks(suite, HostKey(suite, c, h), sealed));
    var secret := Reply(true, Ok(h.serverSecret + suite.sign(h.key, h.serverSecret)));
    Turn(suite, c2, h1, m3, sent, h2, secret, Advance(suite, c2, secret));
    if !ClientRejects(suite, c, h) {
      var c3 := c2.(phase := 3);
      Round4(suite, c, h, c3, h2);
      FinalRounds(suite, c, h, c3, h2, sent + [m3]);
      assert sent + [m3] + LastThree(suite, c, h)[1..] == sent + LastThree(suite, c, h);
    }
  }

  lemma FinalRounds<B(!new)>(suite: Suite<B>, c: Client<B>, h: Host<B>, c3: Client<B>, h2: Host<B>,
                             sent: seq<Message<B>>)
    requires Ready(suite, c, h) && |Read(suite, c, h)| == 48 && Sound(c3) && c3.phase == 3
    requires Serve(suite, h2, ClientPairingSecret(c.clientSecret + suite.sign(c.key, c.clientSecret))) ==
             (h2, Some(Reply(HostAgrees(suite, c, h), Err(Missing))))
    ensures var secret := ClientPairingSecret(c.clientSecret + suite.sign(c.key, c.clientSecret));
      var e := Converse(suite, c3, h2, secret, sent);
      if HostAgrees(suite, c, h)
      then
        && e.outcome == Finished && e.client == c3.(phase := 5) && e.host == h2
        && e.sent == sent + [secret, PairChallenge]
      else e.outcome == Failed(NotPaired) && |e.sent| == |sent| + 1 && e.client == c3
  {
    var m4 := ClientPairingSecret(c.clientSecret + suite.sign(c.key, c.clientSecret));
    var r := Reply(HostAgrees(suite, c, h), Err(Missing));
    Turn(suite, c3, h2, m4, sent, h2, r, Advance(suite, c3, r));
    if HostAgrees(suite, c, h) {
      var last := Reply(true, Err(Missing));
      var c4 := c3.(phase := 4);
      Turn(suite, c4, h2, PairChallenge, sent + [m4], h2, last, Advance(suite, c4, last));
      assert sent + [m4] + [PairChallenge] == sent + [m4, PairChallenge];
    }
  }

  /** How every conversation between the two parties ends, for any cryptography:
      as the two tests decide. Neither side panics. */
  lemma PairEndsExactly<B(!new)>(suite: Suite<B>, c: Client<B>, h: Host<B>)
    requires Laws(suite) && Ready(suite, c, h)
    ensures |Read(suite, c, h)| == 48
    ensures DecidedByTests(suite, c, h, Pair(suite, c, h))
  {
    CommitmentLength(suite, c, h);
    FirstRounds(suite, c, h);
    LastRounds(suite, c, h, FirstTwo(suite, c));
  }

  /** On the same key both tests succeed. */
  lemma SameKeySucceeds<B(!new)>(suite: Suite<B>, c: Client<B>, h: Host<B>)
    requires Laws(suite) && Ready(suite, c, h) && HostKey(suite, c, h) == c.aesKey
    ensures |Read(suite, c, h)| == 48
    ensures !ClientRejects(suite, c, h) && HostAgrees(suite, c, h)
    ensures var digest := suite.sha(c.randChallenge + suite.certSignature(h.cert).value + h.serverSecret);
      HostAnswer(suite, c, h) == EncryptBlocks(suite, c.aesKey, digest + h.serverChallenge)
    ensures Read(suite, c, h)[32..48] == h.serverChallenge
  {
    var K := c.aesKey;
    ReadLength(suite, c, h);
    DecryptUndoesEncryptBlocks(suite, K, c.randChallenge);
    var digest := suite.sha(c.randChallenge + suite.certSignature(h.cert).value + h.serverSecret);
    DecryptUndoesEncryptBlocks(suite, K, digest + h.serverChallenge);
    assert Read(suite, c, h) == digest + h.serverChallenge;
    assert Read(suite, c, h)[..32] == digest;
    assert Read(suite, c, h)[32..48] == h.serverChallenge;
    DecryptUndoesEncryptBlocks(suite, K, Commitment(suite, c, h.serverChallenge));
  }

  /** The honest handshake completes: for every cryptography, identity, salt,
      challenge and secret, when the host settles on the client's PIN. */
  lemma HonestPairingCompletes<B(!new)>(suite: Suite<B>, c: Client<B>, h: Host<B>)
    requires Laws(suite) && Ready(suite, c, h) && HostPin(suite, c, h) == c.pin
    ensures var e := Pair(suite, c, h);
      && e.outcome == Finished && |e.sent| == 5 && e.client.phase == 5
      && e.client.serverCert == Some(h.cert) && e.host.clientCert == Some(c.cert)
      && e.host.aesKey == Some(e.client.aesKey)
  {
    SameKeySucceeds(suite, c, h);
    PairEndsExactly(suite, c, h);
  }
}
