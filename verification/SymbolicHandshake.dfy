/** The handshake over ideal cryptography: bytes are terms, hashes and signatures
    are free, and the block function is a bijection under every key that shows
    nothing through another key. Here a wrong PIN is always caught. */
module SymbolicHandshake {
  import opened ByteStrings
  import opened Handshake

  /** A symbolic byte: an atom, or one byte of the value of an operation. */
  datatype Term =
    | Atom(n: nat)
    | HashByte(i: nat, of: seq<Term>)
    | SealedByte(i: nat, key: seq<Term>, block: seq<Term>)
    | OpenedByte(i: nat, key: seq<Term>, block: seq<Term>)
    | Signature(key: seq<Term>, of: seq<Term>)
    | Public(key: seq<Term>)
    | Certificate(public: seq<Term>, signature: seq<Term>)
    | HexText(upper: bool, of: seq<Term>)

  function Sha(m: seq<Term>): seq<Term> {
    seq(32, i requires 0 <= i < 32 => HashByte(i, m))
  }

  function Sealed(key: seq<Term>, block: seq<Term>): seq<Term> {
    seq(16, i requires 0 <= i < 16 => SealedByte(i, key, block))
  }

  function Opened(key: seq<Term>, block: seq<Term>): seq<Term> {
    seq(16, i requires 0 <= i < 16 => OpenedByte(i, key, block))
  }

  /** `b` is what sealing under `key` yields for a block that is not itself the
      opening of something. */
  predicate IsSealed(key: seq<Term>, b: seq<Term>)
    decreases b
  {
    && |b| == 16 && b[0].SealedByte? && |b[0].block| == 16
    && b == Sealed(key, b[0].block)
    && !IsOpened(key, b[0].block)
  }

  predicate IsOpened(key: seq<Term>, b: seq<Term>)
    decreases b
  {
    && |b| == 16 && b[0].OpenedByte? && |b[0].block| == 16
    && b == Opened(key, b[0].block)
    && !IsSealed(key, b[0].block)
  }

  function Seal(key: seq<Term>, b: seq<Term>): seq<Term> {
    if IsOpened(key, b) then b[0].block else Sealed(key, b)
  }

  function Open(key: seq<Term>, b: seq<Term>): seq<Term> {
    if IsSealed(key, b) then b[0].block else Opened(key, b)
  }

  lemma SealedAt(key: seq<Term>, b: seq<Term>)
    ensures |Sealed(key, b)| == |Opened(key, b)| == 16
    ensures Sealed(key, b)[0] == SealedByte(0, key, b)
    ensures Opened(key, b)[0] == OpenedByte(0, key, b)
  {
  }

  /** Opening and sealing under one key undo each other. */
  lemma BlockIsBijective(key: seq<Term>, b: seq<Term>)
    requires |b| == 16
    ensures |Seal(key, b)| == |Open(key, b)| == 16
    ensures Open(key, Seal(key, b)) == b
    ensures Seal(key, Open(key, b)) == b
  {
    SealedAt(key, b);
    if IsOpened(key, b) {
      var x := b[0].block;
      assert !IsSealed(key, x);
      assert Open(key, x) == Opened(key, x) == b;
    } else {
      assert IsSealed(key, Sealed(key, b));
    }
    if IsSealed(key, b) {
      var x := b[0].block;
      assert Seal(key, x) == Sealed(key, x) == b;
    } else {
      assert IsOpened(key, Opened(key, b));
    }
  }

  function Sign(key: seq<Term>, m: seq<Term>): seq<Term> {
    [Signature(key, m)]
  }

  function PublicOf(key: seq<Term>): seq<Term> {
    [Public(key)]
  }

  predicate Verifies(public: seq<Term>, m: seq<Term>, sig: seq<Term>) {
    |sig| == 1 && sig[0].Signature? && sig[0].of == m && public == PublicOf(sig[0].key)
  }

  function CertSignature(cert: seq<Term>): Option<seq<Term>> {
    if |cert| == 1 && cert[0].Certificate? then Some(cert[0].signature) else None
  }

  function CertPublicKey(cert: seq<Term>): Option<seq<Term>> {
    if |cert| == 1 && cert[0].Certificate? then Some(cert[0].public) else None
  }

  /** The text "9999". */
  const GARBAGE: seq<Term> := [Atom(57), Atom(57), Atom(57), Atom(57)]

  const IDEAL: Suite<Term> := Suite(
    Sha, Seal, Open, Sign, Verifies, PublicOf, CertSignature, CertPublicKey,
    m => [HexText(false, m)], m => [HexText(true, m)], GARBAGE)

  /** The ideal cryptography meets every law the handshake relies on, so those
      laws are consistent. */
  lemma IdealLaws()
    ensures Laws(IDEAL)
  {
    forall key: seq<Term>, b: seq<Term> | |b| == 16
      ensures |IDEAL.encrypt(key, b)| == 16 && |IDEAL.decrypt(key, b)| == 16
      ensures IDEAL.decrypt(key, IDEAL.encrypt(key, b)) == b
    {
      BlockIsBijective(key, b);
    }
  }

  lemma HashIsInjective(m: seq<Term>, m': seq<Term>)
    ensures Sha(m)[..16] == Sha(m')[..16] ==> m == m'
    ensures Sha(m) == Sha(m') ==> m == m'
  {
    assert Sha(m)[..16][0] == HashByte(0, m) && Sha(m')[..16][0] == HashByte(0, m');
    assert Sha(m)[0] == HashByte(0, m) && Sha(m')[0] == HashByte(0, m');
  }

  /** Different PINs give different keys. */
  lemma KeysDiffer(salt: seq<Term>, pin: seq<Term>, pin': seq<Term>)
    requires pin != pin'
    ensures DeriveKey(IDEAL, salt, pin) != DeriveKey(IDEAL, salt, pin')
  {
    HashIsInjective(salt + pin, salt + pin');
    CancelLeft(salt, pin, pin');
  }

  lemma SealedNamesItsKey(key: seq<Term>, other: seq<Term>, b: seq<Term>)
    ensures IsSealed(other, Sealed(key, b)) ==> other == key
  {
    assert Sealed(key, b)[0] == SealedByte(0, key, b);
    assert forall x :: Sealed(other, x)[0] == SealedByte(0, other, x);
  }

  /** A hash block sealed under one key and opened under another is no hash. */
  lemma CrossKeyShowsNothing(key: seq<Term>, other: seq<Term>, b: seq<Term>)
    requires key != other && |b| == 16 && b[0].HashByte?
    ensures |Open(other, Seal(key, b))| == 16
    ensures Open(other, Seal(key, b))[0].OpenedByte?
  {
    SealedAt(key, b);
    SealedAt(other, Seal(key, b));
    assert Seal(key, b) == Sealed(key, b);
    SealedNamesItsKey(key, other, b);
  }

  /** On different keys the client's test fails. */
  lemma DifferentKeysReject(c: Client<Term>, h: Host<Term>)
    requires Ready(IDEAL, c, h) && HostPin(IDEAL, c, h) != c.pin
    ensures |Read(IDEAL, c, h)| == 48 && ClientRejects(IDEAL, c, h)
  {
    IdealLaws();
    ReadLength(IDEAL, c, h);
    var K := HostKey(IDEAL, c, h);
    KeysDiffer(c.salt, HostPin(IDEAL, c, h), c.pin);
    var plain := DecryptBlocks(IDEAL, K, EncryptBlocks(IDEAL, c.aesKey, c.randChallenge));
    var digest := Sha(plain + CertSignature(h.cert).value + h.serverSecret);
    var answer := HostAnswer(IDEAL, c, h);
    var text := digest + h.serverChallenge;
    assert text[..16][0] == digest[0];
    BlockIsBijective(K, text[..16]);
    assert answer == Seal(K, text[..16]) + EncryptBlocks(IDEAL, K, text[16..]);
    assert answer[..16] == Seal(K, text[..16]);
    CrossKeyShowsNothing(K, c.aesKey, text[..16]);
    assert Read(IDEAL, c, h)[0] == Open(c.aesKey, answer[..16])[0];
    assert Sha(c.randChallenge + CertSignature(h.cert).value + h.serverSecret)[0].HashByte?;
    assert Read(IDEAL, c, h)[..32][0] == Read(IDEAL, c, h)[0];
  }

  /** Under ideal cryptography a pairing completes exactly when the client's PIN
      is the one the host settled on; otherwise the client stops in `WrongPin` on
      the third response, for all salts, challenges and secrets, and never sends
      its pairing secret. */
  lemma PairsExactlyOnEqualPins(c: Client<Term>, h: Host<Term>)
    requires Ready(IDEAL, c, h)
    ensures var e := Pair(IDEAL, c, h);
      if HostPin(IDEAL, c, h) == c.pin then e.outcome == Finished && |e.sent| == 5
      else
        && e.outcome == Failed(WrongPin) && |e.sent| == 3
        && forall i | 0 <= i < |e.sent| :: !SendsSecret(e.sent[i])
  {
    IdealLaws();
    if HostPin(IDEAL, c, h) == c.pin {
      HonestPairingCompletes(IDEAL, c, h);
    } else {
      DifferentKeysReject(c, h);
      PairEndsExactly(IDEAL, c, h);
    }
  }

  /** Which PIN the host settles on when the client sends `otpauth`: the one-time
      PIN exactly when both hold the same PIN and passphrase text. */
  lemma OtpPinChosen(c: Client<Term>, h: Host<Term>)
    requires Ready(IDEAL, c, h) && c.otp.Some?
    ensures var saltText := IDEAL.hexLower(c.salt);
      HostPin(IDEAL, c, h) ==
      if h.otp.value.pin + saltText + h.otp.value.passphrase == c.otp.value.pin + saltText + c.otp.value.passphrase
      then h.otp.value.pin else GARBAGE
  {
    var saltText := IDEAL.hexLower(c.salt);
    var theirs := h.otp.value.pin + saltText + h.otp.value.passphrase;
    var ours := c.otp.value.pin + saltText + c.otp.value.passphrase;
    HashIsInjective(theirs, ours);
    assert OtpText(IDEAL, h.otp.value, saltText) == [HexText(true, Sha(theirs))];
    assert OtpText(IDEAL, c.otp.value, saltText) == [HexText(true, Sha(ours))];
  }

  /** A right one-time PIN with a wrong passphrase ends in `WrongPin`, unless the
      PIN is the very one the host falls back on. */
  lemma WrongPassphraseIsCaught(c: Client<Term>, h: Host<Term>)
    requires Ready(IDEAL, c, h) && c.otp.Some?
    requires c.otp.value.pin == h.otp.value.pin && c.otp.value.passphrase != h.otp.value.passphrase
    ensures Pair(IDEAL, c, h).outcome == if c.pin == GARBAGE then Finished else Failed(WrongPin)
  {
    OtpPinChosen(c, h);
    var front := c.otp.value.pin + IDEAL.hexLower(c.salt);
    CancelLeft(front, c.otp.value.passphrase, h.otp.value.passphrase);
    PairsExactlyOnEqualPins(c, h);
  }

  /** That PIN is 9999: two parties that disagree on the passphrase and yet pair. */
  lemma FallbackPinPairs() returns (c: Client<Term>, h: Host<Term>)
    ensures Ready(IDEAL, c, h) && c.otp.Some?
    ensures c.otp.value.pin == h.otp.value.pin && c.otp.value.passphrase != h.otp.value.passphrase
    ensures Pair(IDEAL, c, h).outcome == Finished
  {
    var key := [Atom(0)];
    var cert := [Certificate(PublicOf(key), [Atom(1)])];
    var random := seq(16, i => Atom(2));
    c := NewClient(IDEAL, cert, key, GARBAGE, Some(OtpAuth(GARBAGE, [Atom(3)])), random, random, random);
    h := Host(key, cert, [], None, random, random, None, [], Some(OtpAuth(GARBAGE, [Atom(4)])));
    WrongPassphraseIsCaught(c, h);
  }
}
