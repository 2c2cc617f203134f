/** hex_encode and hex_decode of crypto.cc: each byte as two lower-case hexadecimal digits and
    a space, the whole closed by a NUL. */
module HexCoding {

  type Byte = x: int | 0 <= x < 256

  type Bytes = seq<Byte>

  const SPACE: Byte := 32
  const NEWLINE: Byte := 10

  // ---------- what the coding is ----------

  function Digit(d: int): Byte
    requires 0 <= d < 16
  {
    if d < 10 then 48 + d else 87 + d
  }

  function Triple(b: Byte): (t: Bytes)
    ensures |t| == 3
  {
    [Digit(b / 16), Digit(b % 16), SPACE]
  }

  function Hex(message: Bytes): Bytes {
    if message == [] then [] else Hex(message[..|message| - 1]) + Triple(message[|message| - 1])
  }

  lemma {:induction false} HexLength(message: Bytes)
    ensures |Hex(message)| == 3 * |message|
  {
    hide Triple;
    if message != [] {
      HexLength(message[..|message| - 1]);
    }
  }

  lemma {:induction false} HexAt(message: Bytes, i: nat)
    requires i < |message|
    ensures |Hex(message)| == 3 * |message|
    ensures Hex(message)[3 * i..3 * i + 3] == Triple(message[i])
  {
    hide Triple;
    HexLength(message);
    var init, last := message[..|message| - 1], Triple(message[|message| - 1]);
    HexLength(init);
    var coded := Hex(init);
    assert Hex(message) == coded + last;
    if i < |init| {
      HexAt(init, i);
      assert (coded + last)[3 * i..3 * i + 3] == coded[3 * i..3 * i + 3];
    } else {
      assert (coded + last)[|coded|..|coded| + 3] == last;
    }
  }

  /** Neither a NUL nor a newline occurs in it. */
  lemma {:induction false} HexIsText(message: Bytes)
    ensures 0 !in Hex(message) && NEWLINE !in Hex(message)
  {
    if message != [] {
      HexIsText(message[..|message| - 1]);
    }
  }

  // ---------- strtol(s, NULL, 16), the C library's ----------

  predicate IsSpace(c: Byte) {
    c == 32 || 9 <= c <= 13
  }

  function SkipSpaces(s: Bytes): Bytes {
    if s != [] && IsSpace(s[0]) then SkipSpaces(s[1..]) else s
  }

  function DigitValue(c: Byte): int {
    if 48 <= c <= 57 then c - 48 else if 97 <= c <= 102 then c - 87 else if 65 <= c <= 70 then c - 55 else -1
  }

  function Digits(s: Bytes, value: nat): nat {
    if s == [] || DigitValue(s[0]) < 0 then value else Digits(s[1..], 16 * value + DigitValue(s[0]))
  }

  function WithoutPrefix(s: Bytes): Bytes {
    if |s| > 2 && s[0] == 48 && (s[1] == 120 || s[1] == 88) && DigitValue(s[2]) >= 0 then s[2..] else s
  }

  const LONG_MAX := 0x7fff_ffff_ffff_ffff
  const LONG_MIN := -LONG_MAX - 1

  function Strtol(s: Bytes): int {
    var t := SkipSpaces(s);
    var u := if t != [] && (t[0] == 43 || t[0] == 45) then t[1..] else t;
    var n: int := Digits(WithoutPrefix(u), 0);
    if t != [] && t[0] == 45 then (if -n < LONG_MIN then LONG_MIN else -n)
    else (if n > LONG_MAX then LONG_MAX else n)
  }

  /** Assignment of a long to an unsigned char. */
  function Truncated(n: int): Byte {
    n % 256
  }

  function From(s: Bytes, i: nat): Bytes {
    if i <= |s| then s[i..] else []
  }

  function Decoded(input: Bytes, count: nat): Bytes {
    seq(count, i requires 0 <= i => Truncated(Strtol(From(input, 3 * i))))
  }

  /** (length - 1) / 3, in C. */
  function DecodedLength(length: nat): nat {
    if length == 0 then 0 else (length - 1) / 3
  }

  lemma TripleRead(b: Byte, rest: Bytes)
    ensures Truncated(Strtol(Triple(b) + rest)) == b
  {
    var s := Triple(b) + rest;
    var high, low := b / 16, b % 16;
    assert s[0] == Digit(high) && s[1] == Digit(low) && s[2] == SPACE;
    assert SkipSpaces(s) == s && WithoutPrefix(s) == s;
    calc {
      Digits(s, 0);
      Digits(s[1..], high);
      { assert s[1..][0] == s[1]; }
      Digits(s[1..][1..], 16 * high + low);
      { assert s[1..][1..][0] == SPACE; }
      16 * high + low;
    }
  }

  /** Whatever follows an encoding, decoding reads back as many bytes of the message as it is
      asked for. */
  lemma DecodesPrefix(message: Bytes, tail: Bytes, count: nat)
    requires count <= |message|
    ensures Decoded(Hex(message) + tail, count) == message[..count]
  {
    hide Hex, Triple, Strtol;
    forall i | 0 <= i < count ensures Decoded(Hex(message) + tail, count)[i] == message[i] {
      TripleAt(message, tail, i);
      TripleRead(message[i], (Hex(message) + tail)[3 * i + 3..]);
    }
  }

  lemma TripleAt(message: Bytes, tail: Bytes, i: nat)
    requires i < |message|
    ensures |Hex(message)| == 3 * |message|
    ensures From(Hex(message) + tail, 3 * i) == Triple(message[i]) + (Hex(message) + tail)[3 * i + 3..]
  {
    hide Triple, Strtol;
    HexAt(message, i);
    hide Hex;
    var s := Hex(message) + tail;
    assert s[3 * i..3 * i + 3] == Hex(message)[3 * i..3 * i + 3];
    assert s[3 * i..] == s[3 * i..3 * i + 3] + s[3 * i + 3..];
  }

  /** Encoding and then decoding, with the lengths each passes to the other, changes nothing. */
  lemma HexRoundTrip(message: Bytes)
    ensures Decoded(Hex(message) + [0], DecodedLength(|Hex(message) + [0]|)) == message
  {
    HexLength(message);
    DecodesPrefix(message, [0], |message|);
    assert message[..|message|] == message;
  }

  lemma HexOneMore(message: Bytes, i: nat)
    requires i < |message|
    ensures Hex(message[..i + 1]) == Hex(message[..i]) + Triple(message[i])
  {
    assert message[..i + 1][..i] == message[..i];
  }

  // ---------- hex_encode ----------

  /** Returns the buffer; its length is what *length is set to. */
  method HexEncode(input: Bytes) returns (buffer: array<Byte>)
    ensures buffer[..] == Hex(input) + [0]
  {
    HexLength(input);
    buffer := new Byte[3 * |input| + 1](_ => 0);
    for i := 0 to |input|
      invariant buffer[..3 * i] == Hex(input[..i])
      invariant forall k :: 3 * i <= k < buffer.Length ==> buffer[k] == 0
    {
      // sprintf(&buffer[i * 3], "%02x ", input[i])
      buffer[3 * i], buffer[3 * i + 1], buffer[3 * i + 2] := Digit(input[i] / 16), Digit(input[i] % 16), SPACE;
      buffer[3 * i + 3] := 0;
      HexOneMore(input, i);
      assert buffer[..3 * (i + 1)] == buffer[..3 * i] + Triple(input[i]);
    }
    assert input[..|input|] == input;
    assert buffer[..] == buffer[..3 * |input|] + [buffer[3 * |input|]];
  }

  // ---------- hex_decode ----------

  /** input stands for the bytes up to where the buffer is zero. */
  method HexDecode(input: Bytes, length: nat) returns (buffer: array<Byte>)
    ensures buffer[..] == Decoded(input, DecodedLength(length))
  {
    var count := DecodedLength(length);
    buffer := new Byte[count];
    for i := 0 to count
      invariant forall k :: 0 <= k < i ==> buffer[k] == Truncated(Strtol(From(input, 3 * k)))
    {
      buffer[i] := Truncated(Strtol(From(input, 3 * i)));
    }
  }
}
