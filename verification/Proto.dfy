/** Wire types and the password scheme shared by the rendezvous server, the host
    agent and the client. */
module Proto {
  import opened ByteStrings

  const ID_DIGITS: nat := 9

  datatype Endpoint = Endpoint(host: Bytes, port: nat, kind: Bytes)

  datatype RegisterRequest = RegisterRequest(
    id: Option<Bytes>, token: Bytes, name: Bytes, platform: Bytes,
    endpoints: seq<Endpoint>, passwordSalt: Bytes, agentVersion: Bytes)

  /** A pairing request as queued for the host. */
  datatype PairRequest = PairRequest(
    requestId: Bytes, challenge: Bytes, response: Bytes, deviceName: Bytes,
    clientUid: Option<Bytes>, sealedPin: Bytes, remember: bool)

  datatype PairStatus = Accepted | Paired | Rejected | Failed

  datatype PairResult = PairResult(requestId: Bytes, status: PairStatus, message: Option<Bytes>)

  /** What a client posts to complete a pair request. */
  datatype SubmitPairRequest = SubmitPairRequest(
    requestId: Bytes, response: Bytes, deviceName: Bytes,
    clientUid: Option<Bytes>, sealedPin: Bytes, remember: bool)

  // -------------------------------------------------------------------------
  // Primitives, given by their laws only

  /** SHA-256 and ChaCha20-Poly1305 (section 2.8 of RFC 8439). */
  datatype Primitives = Primitives(
    sha: Bytes -> Bytes,
    seal: (Bytes, Bytes, Bytes) -> Bytes,
    open: (Bytes, Bytes, Bytes) -> Option<Bytes>)
  {
    ghost predicate Laws() {
      && (forall m: Bytes :: |sha(m)| == 32)
      && (forall key: Bytes, nonce: Bytes, plain: Bytes :: |seal(key, nonce, plain)| == |plain| + 16)
      && (forall key: Bytes, nonce: Bytes, plain: Bytes ::
            open(key, nonce, seal(key, nonce, plain)) == Some(plain))
    }
  }

  /** The laws are consistent: a hash of zeros and a transparent cipher with a
      16-byte tag meet them. */
  lemma PrimitivesExist() returns (p: Primitives)
    ensures p.Laws()
  {
    p := Primitives(
      m => seq(32, i => 0),
      (key, nonce, plain) => plain + seq(16, i => 0),
      (key, nonce, sealed: Bytes) => if |sealed| < 16 then None else Some(sealed[..|sealed| - 16]));
    forall key: Bytes, nonce: Bytes, plain: Bytes
      ensures p.open(key, nonce, p.seal(key, nonce, plain)) == Some(plain)
    {
      var sealed := p.seal(key, nonce, plain);
      assert sealed[..|sealed| - 16] == plain;
    }
  }

  // -------------------------------------------------------------------------
  // Constant-time comparison

  /** `x ^ y`; on two bytes this is the 8-bit operation. */
  function BitXor(x: nat, y: nat): nat
    decreases x + y
  {
    if x == 0 && y == 0 then 0
    else (if x % 2 == y % 2 then 0 else 1) + 2 * BitXor(x / 2, y / 2)
  }

  /** `x | y`. */
  function BitOr(x: nat, y: nat): nat
    decreases x + y
  {
    if x == 0 && y == 0 then 0
    else (if x % 2 == 0 && y % 2 == 0 then 0 else 1) + 2 * BitOr(x / 2, y / 2)
  }

  lemma {:induction false} BitXorZero(x: nat, y: nat)
    ensures BitXor(x, y) == 0 <==> x == y
    decreases x + y
  {
    if x == 0 && y == 0 {
    } else {
      BitXorZero(x / 2, y / 2);
    }
  }

  lemma {:induction false} BitOrZero(x: nat, y: nat)
    ensures BitOr(x, y) == 0 <==> x == 0 && y == 0
    decreases x + y
  {
    if x == 0 && y == 0 {
    } else {
      BitOrZero(x / 2, y / 2);
    }
  }

  /** The fold of `ct_eq` from an accumulator. */
  function XorOrFold(acc: nat, a: Bytes, b: Bytes): nat
    requires |a| == |b|
    decreases |a|
  {
    if a == [] then acc
    else XorOrFold(BitOr(acc, BitXor(a[0] as nat, b[0] as nat)), a[1..], b[1..])
  }

  predicate CtEq(a: Bytes, b: Bytes) {
    |a| == |b| && XorOrFold(0, a, b) == 0
  }

  lemma {:induction false} XorOrFoldZero(acc: nat, a: Bytes, b: Bytes)
    requires |a| == |b|
    ensures XorOrFold(acc, a, b) == 0 <==> acc == 0 && a == b
    decreases |a|
  {
    if a == [] {
    } else {
      var x := BitXor(a[0] as nat, b[0] as nat);
      BitXorZero(a[0] as nat, b[0] as nat);
      BitOrZero(acc, x);
      XorOrFoldZero(BitOr(acc, x), a[1..], b[1..]);
      assert a == [a[0]] + a[1..] && b == [b[0]] + b[1..];
    }
  }

  /** The branch-free comparison accepts exactly the equal strings. */
  lemma {:induction false} CtEqIsEquality(a: Bytes, b: Bytes)
    ensures CtEq(a, b) <==> a == b
  {
    if |a| == |b| { XorOrFoldZero(0, a, b); }
  }

  // -------------------------------------------------------------------------
  // Identifiers and PINs

  predicate AllDigits(s: Bytes) {
    forall i | 0 <= i < |s| :: 48 <= s[i] <= 57
  }

  predicate IsValidId(id: Bytes) {
    |id| == ID_DIGITS && AllDigits(id) && id[0] != 48
  }

  predicate IsValidPin(pin: Bytes) {
    |pin| == 4 && AllDigits(pin)
  }

  function Pow10(n: nat): (r: nat)
    ensures r >= 1
  {
    if n == 0 then 1 else 10 * Pow10(n - 1)
  }

  /** A number in decimal, with leading zeros up to a width. */
  function Decimal(n: nat, width: nat): (s: Bytes)
    ensures |s| == width
  {
    if width == 0 then [] else Decimal(n / 10, width - 1) + [(48 + n % 10) as Byte]
  }

  lemma {:induction false} DecimalIsDigits(n: nat, width: nat)
    requires n < Pow10(width)
    ensures AllDigits(Decimal(n, width))
    ensures width > 0 ==> (Decimal(n, width)[0] != 48 <==> n >= Pow10(width - 1))
  {
    if width <= 1 {
    } else {
      DecimalIsDigits(n / 10, width - 1);
      assert Decimal(n, width)[0] == Decimal(n / 10, width - 1)[0];
    }
  }

  lemma {:induction false} DigitsAreDecimal(s: Bytes) returns (n: nat)
    requires AllDigits(s)
    ensures n < Pow10(|s|) && s == Decimal(n, |s|)
  {
    if s == [] {
      n := 0;
    } else {
      var front := DigitsAreDecimal(s[..|s| - 1]);
      n := 10 * front + (s[|s| - 1] as nat - 48);
      assert n / 10 == front && n % 10 == s[|s| - 1] as nat - 48;
    }
  }

  /** Ids are the nine-digit numbers; PINs the numbers below 10000 in four digits. */
  lemma IdsAndPinsAreNumbers(s: Bytes)
    ensures IsValidId(s) <==> exists n: nat :: 100_000_000 <= n < 1_000_000_000 && s == Decimal(n, 9)
    ensures IsValidPin(s) <==> exists n: nat :: n < 10_000 && s == Decimal(n, 4)
  {
    PowersOfTen();
    if AllDigits(s) {
      var n := DigitsAreDecimal(s);
      if |s| == 9 { DecimalIsDigits(n, 9); }
    }
    forall n: nat | 100_000_000 <= n < 1_000_000_000 && s == Decimal(n, 9) ensures IsValidId(s) {
      DecimalIsDigits(n, 9);
    }
    forall n: nat | n < 10_000 && s == Decimal(n, 4) ensures IsValidPin(s) {
      DecimalIsDigits(n, 4);
    }
  }

  lemma PowersOfTen()
    ensures Pow10(4) == 10_000 && Pow10(8) == 100_000_000 && Pow10(9) == 1_000_000_000
  {
    assert Pow10(2) == 100 && Pow10(4) == 10_000 && Pow10(6) == 1_000_000;
  }

  // -------------------------------------------------------------------------
  // Password scheme

  function PasswordH1(p: Primitives, password: Bytes, salt: Bytes): Bytes {
    Hex(p.sha(password + salt))
  }

  function ChallengeResponse(p: Primitives, h1: Bytes, challenge: Bytes): Bytes {
    Hex(p.sha(h1 + challenge))
  }

  function TokenFingerprint(p: Primitives, token: Bytes): Bytes {
    Hex(p.sha(token))
  }

  /** For one salt, equal passwords give equal hashes, and different ones different
      hashes unless the hash collides on the two strings hashed. */
  lemma PasswordDecidesH1(p: Primitives, password: Bytes, other: Bytes, salt: Bytes)
    ensures PasswordH1(p, password, salt) == PasswordH1(p, other, salt) <==>
            p.sha(password + salt) == p.sha(other + salt)
    ensures password + salt == other + salt <==> password == other
  {
    UnhexHex(p.sha(password + salt));
    UnhexHex(p.sha(other + salt));
    CancelRight(password, other, salt);
  }

  /** The three texts are the hexadecimal digests of what they are made of. */
  lemma TextsAreDigests(p: Primitives, a: Bytes, b: Bytes)
    ensures Unhex(PasswordH1(p, a, b)) == Some(p.sha(a + b))
    ensures Unhex(ChallengeResponse(p, a, b)) == Some(p.sha(a + b))
    ensures Unhex(TokenFingerprint(p, a)) == Some(p.sha(a))
    ensures p.Laws() ==>
              |PasswordH1(p, a, b)| == 64 && |ChallengeResponse(p, a, b)| == 64 && |TokenFingerprint(p, a)| == 64
  {
    UnhexHex(p.sha(a + b));
    UnhexHex(p.sha(a));
  }

  /** The key shared by host and client for one pair request. */
  function PairKey(p: Primitives, h1: Bytes, challenge: Bytes): Bytes {
    p.sha(Ascii("ra-pair-v1") + h1 + challenge)
  }

  /** Both sides have one key exactly if they hold the same `h1`, or the hash
      collides; and the response, which everybody sees, gives it away only if the
      hash collides on two strings of different length. */
  lemma KeyMatches(p: Primitives, h1: Bytes, other: Bytes, challenge: Bytes)
    ensures var ours := Ascii("ra-pair-v1") + h1 + challenge;
      var theirs := Ascii("ra-pair-v1") + other + challenge;
      && (PairKey(p, h1, challenge) == PairKey(p, other, challenge) <==> p.sha(ours) == p.sha(theirs))
      && (ours == theirs <==> h1 == other)
      && (Unhex(ChallengeResponse(p, h1, challenge)) == Some(PairKey(p, h1, challenge)) <==>
            p.sha(h1 + challenge) == p.sha(ours))
      && |ours| == |h1 + challenge| + 10
  {
    UnhexHex(p.sha(h1 + challenge));
    CancelLeft(Ascii("ra-pair-v1"), h1, other);
    CancelRight(Ascii("ra-pair-v1") + h1, Ascii("ra-pair-v1") + other, challenge);
  }

  datatype CryptoError = HexError | TooShort | Decrypt | BadPin

  function SealPin(p: Primitives, key: Bytes, pin: Bytes, nonce: Bytes): Result<Bytes, CryptoError> {
    if !IsValidPin(pin) then Err(BadPin)
    else Ok(Hex(nonce + p.seal(key, nonce, pin)))
  }

  function OpenPin(p: Primitives, key: Bytes, sealedHex: Bytes): Result<Bytes, CryptoError> {
    match Unhex(sealedHex)
    case None => Err(HexError)
    case Some(raw) =>
      if |raw| < 12 + 16 then Err(TooShort)
      else
        match p.open(key, raw[..12], raw[12..])
        case None => Err(Decrypt)
        case Some(plain) =>
          if !IsUtf8(plain) then Err(Decrypt)
          else if !IsValidPin(plain) then Err(BadPin)
          else Ok(plain)
  }

  /** Sealing then opening under the same key gives the PIN back, and the sealed
      form always fits the 256-character limit of the rendezvous server. */
  lemma SealOpen(p: Primitives, key: Bytes, pin: Bytes, nonce: Bytes)
    requires p.Laws() && |nonce| == 12 && IsValidPin(pin)
    ensures SealPin(p, key, pin, nonce).Ok?
    ensures |SealPin(p, key, pin, nonce).value| == 64
    ensures OpenPin(p, key, SealPin(p, key, pin, nonce).value) == Ok(pin)
  {
    var sealed := p.seal(key, nonce, pin);
    var raw := nonce + sealed;
    UnhexHex(raw);
    assert raw[..12] == nonce && raw[12..] == sealed;
    AsciiIsUtf8(pin);
  }

  /** Opening gives a PIN exactly for what decrypts, under the key and the first
      twelve bytes as nonce, to four digits; the errors tell the ways it fails. */
  lemma OpenPinExactly(p: Primitives, key: Bytes, sealedHex: Bytes, pin: Bytes)
    requires p.Laws()
    ensures var raw := Unhex(sealedHex);
      && (OpenPin(p, key, sealedHex) == Ok(pin) <==>
            raw.Some? && |raw.value| >= 28 && p.open(key, raw.value[..12], raw.value[12..]) == Some(pin)
            && |pin| == 4 && forall i | 0 <= i < 4 :: '0' as int <= pin[i] as int <= '9' as int)
      && (OpenPin(p, key, sealedHex) == Err(HexError) <==> raw.None?)
      && (OpenPin(p, key, sealedHex) == Err(TooShort) <==> raw.Some? && |raw.value| < 28)
      && (raw.Some? && |raw.value| >= 28 && p.open(key, raw.value[..12], raw.value[12..]).None? ==>
            OpenPin(p, key, sealedHex) == Err(Decrypt))
  {
    if IsValidPin(pin) { AsciiIsUtf8(pin); }
  }

  /** A PIN that is not four digits is not sealed. */
  lemma SealPinRefuses(p: Primitives, key: Bytes, pin: Bytes, nonce: Bytes)
    ensures SealPin(p, key, pin, nonce).Err? <==> !IsValidPin(pin)
    ensures SealPin(p, key, pin, nonce).Err? ==> SealPin(p, key, pin, nonce) == Err(BadPin)
  {
  }

  /** The host accepts a response exactly when both sides hold the same `h1`,
      or the hash collides on the two strings that were hashed. */
  lemma ResponseMatches(p: Primitives, h1: Bytes, other: Bytes, challenge: Bytes)
    ensures CtEq(ChallengeResponse(p, h1, challenge), ChallengeResponse(p, other, challenge))
       <==> p.sha(h1 + challenge) == p.sha(other + challenge)
    ensures h1 + challenge == other + challenge <==> h1 == other
  {
    var x, y := p.sha(h1 + challenge), p.sha(other + challenge);
    CtEqIsEquality(Hex(x), Hex(y));
    UnhexHex(x);
    UnhexHex(y);
    CancelRight(h1, other, challenge);
  }
}
