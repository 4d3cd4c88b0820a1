/** UTF-8 (section 3 of RFC 3629), and what a decoder that replaces malformed bytes makes of
    any bytes at all. */
module Utf8Decoding {

  type Byte = b: int | 0 <= b < 256

  /** The length that the first byte announces, well-formed or not. */
  function Utf8Length(first: Byte): (n: nat)
    ensures 1 <= n <= 4
  {
    if first < 0xC0 then 1 else if first < 0xE0 then 2 else if first < 0xF0 then 3 else 4
  }

  /** The UTF-8 form of a code point. */
  function Utf8(code: nat): (s: seq<Byte>)
    requires code < 0x110000
    ensures s != [] && |s| == Utf8Length(s[0])
  {
    if code < 0x80 then [code]
    else if code < 0x800 then [0xC0 + code / 64, 0x80 + code % 64]
    else if code < 0x10000 then [0xE0 + code / 4096, 0x80 + code / 64 % 64, 0x80 + code % 64]
    else [0xF0 + code / 262144, 0x80 + code / 4096 % 64, 0x80 + code / 64 % 64, 0x80 + code % 64]
  }

  /** A character: a code point that is no surrogate. */
  predicate IsScalar(code: int) {
    0 <= code < 0xD800 || 0xE000 <= code < 0x110000
  }

  // ---------------------------------------------------------------- replacing what is malformed

  /** One character of the decoded text: itself, or U+FFFD in place of malformed bytes. */
  datatype Piece = Scalar(raw: seq<Byte>) | Replacement

  /** How many bytes a well-formed sequence with this first byte has; 0 if none has it. */
  function Expected(first: Byte): (n: nat)
    ensures n <= 4
  {
    if first < 0x80 then 1
    else if first < 0xC2 || first > 0xF4 then 0
    else Utf8Length(first)
  }

  predicate Continues(b: Byte) {
    0x80 <= b <= 0xBF
  }

  /** The second byte rules out overlong forms, surrogates and what is beyond U+10FFFF. */
  predicate Seconds(first: Byte, b: Byte) {
    && Continues(b)
    && (first == 0xE0 ==> b >= 0xA0) && (first == 0xED ==> b < 0xA0)
    && (first == 0xF0 ==> b >= 0x90) && (first == 0xF4 ==> b < 0x90)
  }

  /** The longest front that is the start of a well-formed sequence, but one byte at least:
      the maximal subpart that one U+FFFD replaces. */
  function Front(raw: seq<Byte>): (n: nat)
    requires raw != []
    ensures 1 <= n <= |raw| && n <= 4
  {
    var n := Expected(raw[0]);
    if n < 2 || |raw| < 2 || !Seconds(raw[0], raw[1]) then 1
    else if n < 3 || |raw| < 3 || !Continues(raw[2]) then 2
    else if n < 4 || |raw| < 4 || !Continues(raw[3]) then 3
    else 4
  }

  /** `decode("utf-8", errors="replace")`. */
  function Lenient(raw: seq<Byte>): (pieces: seq<Piece>)
    ensures raw != [] ==> pieces != []
    decreases |raw|
  {
    if raw == [] then []
    else
      var n := Front(raw);
      [if n == Expected(raw[0]) then Scalar(raw[..n]) else Replacement] + Lenient(raw[n..])
  }

  ghost predicate WellFormed(raw: seq<Byte>) {
    exists code | IsScalar(code) :: raw == Utf8(code)
  }

  lemma {:induction false} WholeFront(raw: seq<Byte>)
    requires raw != [] && Front(raw) == |raw|
    ensures Lenient(raw) == [if |raw| == Expected(raw[0]) then Scalar(raw) else Replacement]
  {
    assert raw[..|raw|] == raw && raw[|raw|..] == [];
  }

  lemma {:induction false} Utf8Front(code: int)
    requires IsScalar(code)
    ensures var raw := Utf8(code); Front(raw) == |raw| == Expected(raw[0])
  {
    var high := code / 4096;
    assert code / 64 / 64 == high && high / 64 == code / 262144;
    if code >= 0x10000 {
      FourFront(high / 64, high % 64, code / 64 % 64, code % 64);
    } else if code >= 0x800 {
      assert high == 0 ==> code / 64 >= 32;
      assert high == 13 ==> code < 0xD800 && code / 64 < 0x360;
      ThreeFront(high, code / 64 % 64, code % 64);
    }
  }

  lemma {:induction false} ThreeFront(a: int, b: int, c: int)
    requires 0 <= a < 16 && 0 <= b < 64 && 0 <= c < 64 && (a == 0 ==> b >= 32) && (a == 13 ==> b < 32)
    ensures var raw: seq<Byte> := [0xE0 + a, 0x80 + b, 0x80 + c]; Front(raw) == 3 == Expected(raw[0])
  {
  }

  lemma {:induction false} FourFront(a: int, b: int, c: int, d: int)
    requires 0 <= a <= 4 && 0 <= b < 64 && 0 <= c < 64 && 0 <= d < 64 && (a == 0 ==> b >= 16) && (a == 4 ==> b < 16)
    ensures var raw: seq<Byte> := [0xF0 + a, 0x80 + b, 0x80 + c, 0x80 + d]; Front(raw) == 4 == Expected(raw[0])
  {
  }

  /** Well-formed text decodes to itself. */
  lemma {:induction false} LenientKeeps(code: int)
    requires IsScalar(code)
    ensures Lenient(Utf8(code)) == [Scalar(Utf8(code))]
  {
    Utf8Front(code);
    WholeFront(Utf8(code));
  }

  lemma {:induction false} ThreeDigits(a: int, b: int, c: int)
    requires 0 <= a && 0 <= b < 64 && 0 <= c < 64
    ensures var code := a * 4096 + b * 64 + c; code / 4096 == a && code / 64 % 64 == b && code % 64 == c
  {
    assert a * 4096 + b * 64 + c == (a * 64 + b) * 64 + c;
  }

  lemma {:induction false} FourDigits(a: int, b: int, c: int, d: int)
    requires 0 <= a && 0 <= b < 64 && 0 <= c < 64 && 0 <= d < 64
    ensures var code := a * 262144 + b * 4096 + c * 64 + d;
            code / 262144 == a && code / 4096 % 64 == b && code / 64 % 64 == c && code % 64 == d
  {
    ThreeDigits(a * 64 + b, c, d);
  }

  lemma {:induction false} ThreeBytes(raw: seq<Byte>)
    requires |raw| == 3 == Expected(raw[0]) && Front(raw) == 3
    ensures WellFormed(raw)
  {
    var a: int, b: int, c: int := raw[0], raw[1], raw[2];
    var code := (a - 0xE0) * 4096 + (b - 0x80) * 64 + (c - 0x80);
    ThreeDigits(a - 0xE0, b - 0x80, c - 0x80);
    assert IsScalar(code) && 0x800 <= code < 0x10000;
    assert raw == Utf8(code);
  }

  lemma {:induction false} FourBytes(raw: seq<Byte>)
    requires |raw| == 4 == Expected(raw[0]) && Front(raw) == 4
    ensures WellFormed(raw)
  {
    var a: int, b: int, c: int, d: int := raw[0], raw[1], raw[2], raw[3];
    var code := (a - 0xF0) * 262144 + (b - 0x80) * 4096 + (c - 0x80) * 64 + (d - 0x80);
    FourDigits(a - 0xF0, b - 0x80, c - 0x80, d - 0x80);
    assert IsScalar(code) && 0x10000 <= code;
    assert raw == Utf8(code);
  }

  /** The bytes of a whole well-formed sequence are those of a character. */
  lemma {:induction false} FrontIsCharacter(raw: seq<Byte>)
    requires raw != [] && Front(raw) == |raw| == Expected(raw[0])
    ensures WellFormed(raw)
  {
    if |raw| == 4 {
      FourBytes(raw);
    } else if |raw| == 3 {
      ThreeBytes(raw);
    } else {
      var first: int := raw[0];
      var code := if |raw| == 1 then first else (first - 0xC0) * 64 + (raw[1] as int - 0x80);
      assert IsScalar(code) && raw == Utf8(code);
    }
  }

  /** A sequence of the announced length becomes one character exactly when it is one byte or
      well-formed; anything else becomes several. */
  lemma {:induction false} OneCharacterIff(raw: seq<Byte>)
    requires raw != [] && |raw| == Utf8Length(raw[0])
    ensures |Lenient(raw)| == 1 <==> |raw| == 1 || WellFormed(raw)
  {
    var n := Front(raw);
    if n == |raw| {
      WholeFront(raw);
      if |raw| > 1 {
        FrontIsCharacter(raw);
      }
    } else {
      assert Lenient(raw[n..]) != [];
      if WellFormed(raw) {
        var code :| IsScalar(code) && raw == Utf8(code);
        LenientKeeps(code);
      }
    }
  }
}
