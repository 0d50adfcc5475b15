/** Bytes, texts and their hexadecimal form. A Rust `String` is the sequence of
    the bytes of its UTF-8 encoding, so lengths here are the byte lengths that
    `str::len` returns. */
module ByteStrings {

  datatype Option<+T> = None | Some(value: T)

  datatype Result<+T, +E> = Ok(value: T) | Err(error: E)

  newtype Byte = x: int | 0 <= x < 256

  type Bytes = seq<Byte>

  /** A text literal of the source. */
  function Ascii(s: string): (b: Bytes)
    requires forall i | 0 <= i < |s| :: s[i] < 128 as char
    ensures |b| == |s|
    ensures forall i | 0 <= i < |s| :: b[i] as int == s[i] as int
  {
    seq(|s|, i requires 0 <= i < |s| => s[i] as int as Byte)
  }

  lemma CancelLeft<T>(front: seq<T>, a: seq<T>, b: seq<T>)
    ensures front + a == front + b <==> a == b
  {
    assert (front + a)[|front|..] == a && (front + b)[|front|..] == b;
  }

  lemma CancelRight<T>(a: seq<T>, b: seq<T>, back: seq<T>)
    ensures a + back == b + back <==> a == b
  {
    assert |a| == |b| || |a + back| != |b + back|;
    assert (a + back)[..|a|] == a && (b + back)[..|b|] == b;
  }

  lemma SliceOfTail<T>(s: seq<T>, k: nat, i: nat, j: nat)
    requires i <= j && k + j <= |s|
    ensures s[k..][i..j] == s[k + i..k + j]
  {
  }

  // -------------------------------------------------------------------------
  // Hexadecimal text (section 8 of RFC 4648)

  function LowerDigit(n: nat): Byte
    requires n < 16
  {
    if n < 10 then (48 + n) as Byte else (87 + n) as Byte
  }

  function UpperDigit(n: nat): Byte
    requires n < 16
  {
    if n < 10 then (48 + n) as Byte else (55 + n) as Byte
  }

  function DigitValue(c: Byte): Option<nat> {
    if 48 <= c <= 57 then Some(c as int - 48)
    else if 97 <= c <= 102 then Some(c as int - 87)
    else if 65 <= c <= 70 then Some(c as int - 55)
    else None
  }

  function Hex(b: Bytes): (text: Bytes)
    ensures |text| == 2 * |b|
  {
    if b == [] then []
    else [LowerDigit(b[0] as int / 16), LowerDigit(b[0] as int % 16)] + Hex(b[1..])
  }

  function HexUpper(b: Bytes): (text: Bytes)
    ensures |text| == 2 * |b|
  {
    if b == [] then []
    else [UpperDigit(b[0] as int / 16), UpperDigit(b[0] as int % 16)] + HexUpper(b[1..])
  }

  /** `hex::decode`: both cases are accepted; an odd length or a foreign
      character is an error. */
  function Unhex(text: Bytes): Option<Bytes> {
    if text == [] then Some([])
    else if |text| == 1 then None
    else match (DigitValue(text[0]), DigitValue(text[1]), Unhex(text[2..]))
      case (Some(hi), Some(lo), Some(rest)) => Some([(16 * hi + lo) as Byte] + rest)
      case _ => None
  }

  lemma {:induction false} UnhexHex(b: Bytes)
    ensures Unhex(Hex(b)) == Some(b)
  {
    if b == [] {
    } else {
      UnhexHex(b[1..]);
      var text := Hex(b);
      assert text[2..] == Hex(b[1..]);
      assert DigitValue(text[0]) == Some(b[0] as int / 16);
      assert DigitValue(text[1]) == Some(b[0] as int % 16);
      assert [b[0]] + b[1..] == b;
    }
  }

  lemma {:induction false} UnhexHexUpper(b: Bytes)
    ensures Unhex(HexUpper(b)) == Some(b)
  {
    if b == [] {
    } else {
      UnhexHexUpper(b[1..]);
      var text := HexUpper(b);
      assert text[2..] == HexUpper(b[1..]);
      assert DigitValue(text[0]) == Some(b[0] as int / 16);
      assert DigitValue(text[1]) == Some(b[0] as int % 16);
      assert [b[0]] + b[1..] == b;
    }
  }

  /** What the text is: two digits a byte, the high half first, out of
      0123456789abcdef. */
  lemma {:induction false} HexSpellsOut(b: Bytes, i: nat)
    requires i < |b|
    ensures Hex(b)[2 * i] as char == "0123456789abcdef"[b[i] as int / 16]
    ensures Hex(b)[2 * i + 1] as char == "0123456789abcdef"[b[i] as int % 16]
    ensures HexUpper(b)[2 * i] as char == "0123456789ABCDEF"[b[i] as int / 16]
    ensures HexUpper(b)[2 * i + 1] as char == "0123456789ABCDEF"[b[i] as int % 16]
  {
    if i == 0 {
      DigitsSpellOut(b[0] as int / 16);
      DigitsSpellOut(b[0] as int % 16);
    } else {
      HexSpellsOut(b[1..], i - 1);
      assert Hex(b)[2 * i] == Hex(b[1..])[2 * (i - 1)] && HexUpper(b)[2 * i] == HexUpper(b[1..])[2 * (i - 1)];
      assert Hex(b)[2 * i + 1] == Hex(b[1..])[2 * (i - 1) + 1];
      assert HexUpper(b)[2 * i + 1] == HexUpper(b[1..])[2 * (i - 1) + 1];
    }
  }

  lemma DigitsSpellOut(n: nat)
    requires n < 16
    ensures LowerDigit(n) as char == "0123456789abcdef"[n]
    ensures UpperDigit(n) as char == "0123456789ABCDEF"[n]
  {
  }

  /** Exactly the texts of an even number of hexadecimal digits, of either case,
      are decoded. */
  lemma {:induction false} UnhexExactly(text: Bytes)
    ensures Unhex(text).Some? <==> |text| % 2 == 0 && forall i | 0 <= i < |text| :: AnyHexDigit(text[i])
  {
    if |text| <= 1 {
    } else {
      var rest := text[2..];
      UnhexExactly(rest);
      forall i | 2 <= i < |text| ensures text[i] == rest[i - 2] {
      }
      forall i | 0 <= i < |rest| ensures rest[i] == text[i + 2] {
      }
    }
  }

  /** A text without upper-case digits is the text of what it decodes to. */
  lemma {:induction false} HexUnhex(text: Bytes)
    requires Unhex(text).Some? && forall i | 0 <= i < |text| :: !('A' as int <= text[i] as int <= 'F' as int)
    ensures Hex(Unhex(text).value) == text
  {
    if text == [] {
    } else {
      HexUnhex(text[2..]);
      var b := Unhex(text).value;
      assert b[1..] == Unhex(text[2..]).value;
      assert b[0] as int == 16 * DigitValue(text[0]).value + DigitValue(text[1]).value;
      assert b[0] as int / 16 == DigitValue(text[0]).value && b[0] as int % 16 == DigitValue(text[1]).value;
      assert text == [text[0], text[1]] + text[2..];
    }
  }

  predicate AnyHexDigit(c: Byte) {
    || '0' as int <= c as int <= '9' as int
    || 'a' as int <= c as int <= 'f' as int
    || 'A' as int <= c as int <= 'F' as int
  }

  /** Letters and digits only: hexadecimal text contains no separator and no
      white space. */
  predicate IsHexDigit(c: Byte) {
    DigitValue(c).Some?
  }

  lemma {:induction false} HexIsDigits(b: Bytes)
    ensures forall i | 0 <= i < |Hex(b)| :: IsHexDigit(Hex(b)[i])
  {
    if b == [] {
    } else {
      HexIsDigits(b[1..]);
      forall i | 0 <= i < |Hex(b)| ensures IsHexDigit(Hex(b)[i]) {
        if i >= 2 { assert Hex(b)[i] == Hex(b[1..])[i - 2]; }
      }
    }
  }

  lemma {:induction false} HexUpperIsDigits(b: Bytes)
    ensures forall i | 0 <= i < |HexUpper(b)| :: IsHexDigit(HexUpper(b)[i])
  {
    if b == [] {
    } else {
      HexUpperIsDigits(b[1..]);
      forall i | 0 <= i < |HexUpper(b)| ensures IsHexDigit(HexUpper(b)[i]) {
        if i >= 2 { assert HexUpper(b)[i] == HexUpper(b[1..])[i - 2]; }
      }
    }
  }

  // -------------------------------------------------------------------------
  // Well-formed UTF-8 (section 4 of RFC 3629), the test of `String::from_utf8`

  predicate IsTail(b: Bytes, i: nat) {
    i < |b| && 0x80 <= b[i] <= 0xBF
  }

  predicate SecondFits(lead: Byte, second: Byte) {
    && (lead == 0xE0 ==> 0xA0 <= second)
    && (lead == 0xED ==> second <= 0x9F)
    && (lead == 0xF0 ==> 0x90 <= second)
    && (lead == 0xF4 ==> second <= 0x8F)
  }

  predicate IsUtf8(b: Bytes) {
    if b == [] then true
    else if b[0] < 0x80 then IsUtf8(b[1..])
    else if 0xC2 <= b[0] <= 0xDF then IsTail(b, 1) && IsUtf8(b[2..])
    else if 0xE0 <= b[0] <= 0xEF then
      IsTail(b, 1) && IsTail(b, 2) && SecondFits(b[0], b[1]) && IsUtf8(b[3..])
    else if 0xF0 <= b[0] <= 0xF4 then
      IsTail(b, 1) && IsTail(b, 2) && IsTail(b, 3) && SecondFits(b[0], b[1]) && IsUtf8(b[4..])
    else false
  }

  lemma {:induction false} AsciiIsUtf8(b: Bytes)
    requires forall i | 0 <= i < |b| :: b[i] < 0x80
    ensures IsUtf8(b)
  {
    if b == [] {
    } else {
      AsciiIsUtf8(b[1..]);
    }
  }

  /** A code point that is not a surrogate. */
  predicate IsScalar(c: nat) {
    c < 0xD800 || 0xE000 <= c < 0x11_0000
  }

  function Encode(c: nat): Bytes
    requires IsScalar(c)
  {
    if c < 0x80 then [c as Byte]
    else if c < 0x800 then [(0xC0 + c / 64) as Byte, (0x80 + c % 64) as Byte]
    else if c < 0x1_0000 then [(0xE0 + c / 4096) as Byte, (0x80 + c / 64 % 64) as Byte, (0x80 + c % 64) as Byte]
    else
      [(0xF0 + c / 262144) as Byte, (0x80 + c / 4096 % 64) as Byte, (0x80 + c / 64 % 64) as Byte,
       (0x80 + c % 64) as Byte]
  }

  predicate AllScalar(cs: seq<nat>) {
    forall i | 0 <= i < |cs| :: IsScalar(cs[i])
  }

  function EncodeAll(cs: seq<nat>): Bytes
    requires AllScalar(cs)
  {
    if cs == [] then [] else Encode(cs[0]) + EncodeAll(cs[1..])
  }

  lemma EncodedIsUtf8(c: nat, rest: Bytes)
    requires IsScalar(c)
    ensures IsUtf8(Encode(c) + rest) <==> IsUtf8(rest)
  {
    var b := Encode(c) + rest;
    assert b[|Encode(c)|..] == rest;
  }

  lemma {:induction false} EncodingsAreUtf8(cs: seq<nat>)
    requires AllScalar(cs)
    ensures IsUtf8(EncodeAll(cs))
  {
    if cs == [] {
    } else {
      EncodingsAreUtf8(cs[1..]);
      EncodedIsUtf8(cs[0], EncodeAll(cs[1..]));
    }
  }

  lemma SixBits(x: nat, y: nat)
    requires y < 64
    ensures (64 * x + y) / 64 == x && (64 * x + y) % 64 == y
  {
  }

  lemma TwelveBits(x: nat, y: nat, z: nat)
    requires y < 64 && z < 64
    ensures var c := 64 * (64 * x + y) + z;
      c / 4096 == x && c / 64 % 64 == y && c % 64 == z
  {
    SixBits(64 * x + y, z);
    SixBits(x, y);
  }

  lemma EighteenBits(w: nat, x: nat, y: nat, z: nat)
    requires x < 64 && y < 64 && z < 64
    ensures var c := 64 * (64 * (64 * w + x) + y) + z;
      c / 262144 == w && c / 4096 % 64 == x && c / 64 % 64 == y && c % 64 == z
  {
    TwelveBits(64 * w + x, y, z);
    SixBits(w, x);
  }

  /** The code point that a well-formed text begins with, by its length in bytes. */
  lemma FirstScalar(b: Bytes) returns (c: nat, n: nat)
    requires b != [] && IsUtf8(b)
    ensures 1 <= n <= |b| && IsUtf8(b[n..]) && IsScalar(c) && Encode(c) == b[..n]
  {
    if b[0] < 0x80 {
      c, n := b[0] as nat, 1;
    } else if b[0] <= 0xDF {
      var x, y := b[0] as nat - 0xC0, b[1] as nat - 0x80;
      SixBits(x, y);
      c, n := 64 * x + y, 2;
    } else if b[0] <= 0xEF {
      var x, y, z := b[0] as nat - 0xE0, b[1] as nat - 0x80, b[2] as nat - 0x80;
      TwelveBits(x, y, z);
      c, n := 64 * (64 * x + y) + z, 3;
    } else {
      var w, x, y, z := b[0] as nat - 0xF0, b[1] as nat - 0x80, b[2] as nat - 0x80, b[3] as nat - 0x80;
      EighteenBits(w, x, y, z);
      c, n := 64 * (64 * (64 * w + x) + y) + z, 4;
    }
  }

  lemma {:induction false} Utf8IsEncoding(b: Bytes) returns (cs: seq<nat>)
    requires IsUtf8(b)
    ensures AllScalar(cs) && b == EncodeAll(cs)
    decreases |b|
  {
    if b == [] {
      cs := [];
    } else {
      var c, n := FirstScalar(b);
      var more := Utf8IsEncoding(b[n..]);
      cs := [c] + more;
      assert b == b[..n] + b[n..];
      assert cs[1..] == more;
    }
  }

  /** The well-formed texts are exactly the encodings of code points. */
  lemma Utf8Exactly(b: Bytes)
    ensures IsUtf8(b) <==> exists cs: seq<nat> :: AllScalar(cs) && b == EncodeAll(cs)
  {
    if IsUtf8(b) { var cs := Utf8IsEncoding(b); }
    forall cs: seq<nat> | AllScalar(cs) && b == EncodeAll(cs) ensures IsUtf8(b) { EncodingsAreUtf8(cs); }
  }

  // -------------------------------------------------------------------------
  // `str::trim`, on ASCII white space

  predicate IsSpace(c: Byte) {
    9 <= c <= 13 || c == 32
  }

  function Trim(s: Bytes): Bytes {
    if s == [] then []
    else if IsSpace(s[0]) then Trim(s[1..])
    else if IsSpace(s[|s| - 1]) then Trim(s[..|s| - 1])
    else s
  }

  predicate Blank(c: Byte) {
    9 <= c <= 13 || c == 32
  }

  /** Trimming takes white space off both ends, all of it, and nothing else. */
  lemma {:induction false} TrimExactly(s: Bytes) returns (i: nat, j: nat)
    ensures i <= j <= |s| && Trim(s) == s[i..j]
    ensures forall k | 0 <= k < i || j <= k < |s| :: Blank(s[k])
    ensures i < j ==> !Blank(s[i]) && !Blank(s[j - 1])
    decreases |s|
  {
    if s == [] {
      i, j := 0, 0;
    } else if IsSpace(s[0]) {
      var back := s[1..];
      i, j := TrimExactly(back);
      assert back[i..j] == s[i + 1..j + 1];
      forall k | 0 < k < i + 1 || j + 1 <= k < |s| ensures Blank(s[k]) { assert s[k] == back[k - 1]; }
      i, j := i + 1, j + 1;
    } else if IsSpace(s[|s| - 1]) {
      var front := s[..|s| - 1];
      i, j := TrimExactly(front);
      assert front[i..j] == s[i..j];
      forall k | 0 <= k < i || j <= k < |s| - 1 ensures Blank(s[k]) { assert s[k] == front[k]; }
    } else {
      i, j := 0, |s|;
      assert s[0..|s|] == s;
    }
  }
}
