/**
 * UTF-8 as used on the wire: lines are encoded with str.encode("utf-8") and
 * decoded with bytes.decode("utf-8"), whose strict decoder accepts exactly the
 * well-formed byte sequences of the Unicode standard (Table 3-7 of chapter 3):
 * no overlong forms, no surrogates, nothing above U+10FFFF, no truncated or
 * stray continuation bytes.
 */
module Utf8 {
  import opened Errors
  import opened Seqs

  newtype byte = x: int | 0 <= x < 256

  /** A continuation byte 10xxxxxx. */
  predicate IsCont(b: byte) {
    0x80 <= b < 0xC0
  }

  /** The encoding of one scalar value: one byte below U+0080, else a lead byte and continuation bytes. */
  function EncodeChar(c: char): (b: seq<byte>)
    ensures 1 <= |b| <= 4
    ensures |b| == 1 <==> c < '\U{80}'
    ensures |b| == 1 ==> b[0] as int == c as int
    ensures |b| > 1 ==> forall i :: 0 <= i < |b| ==> b[i] >= 0x80
  {
    var n := c as int;
    var q1 := n / 64;
    var q2 := q1 / 64;
    var q3 := q2 / 64;
    if n < 0x80 then [n as byte]
    else if n < 0x800 then [(0xC0 + q1) as byte, (0x80 + n % 64) as byte]
    else if n < 0x10000 then [(0xE0 + q2) as byte, (0x80 + q1 % 64) as byte, (0x80 + n % 64) as byte]
    else [(0xF0 + q3) as byte, (0x80 + q2 % 64) as byte, (0x80 + q1 % 64) as byte, (0x80 + n % 64) as byte]
  }

  function Encode(s: string): (b: seq<byte>)
    ensures |b| >= |s|
  {
    if s == [] then [] else EncodeChar(s[0]) + Encode(s[1..])
  }

  /**
   * The scalar value a well-formed sequence at the start of b stands for, and
   * the number of bytes it takes; None where the strict decoder fails.
   */
  function DecodeFirst(b: seq<byte>): (r: Option<(char, nat)>)
    ensures r.Some? ==> 1 <= r.value.1 <= |b|
  {
    if |b| == 0 then None
    else
      var b0 := b[0] as int;
      if b0 < 0x80 then Some((b0 as char, 1))
      else if 0xC2 <= b0 <= 0xDF then
        if |b| >= 2 && IsCont(b[1]) then
          Some((((b0 - 0xC0) * 64 + (b[1] as int - 0x80)) as char, 2))
        else None
      else if 0xE0 <= b0 <= 0xEF then
        var lo := if b0 == 0xE0 then 0xA0 else 0x80;
        var hi := if b0 == 0xED then 0x9F else 0xBF;
        if |b| >= 3 && lo <= b[1] as int <= hi && IsCont(b[2]) then
          Some((((b0 - 0xE0) * 4096 + (b[1] as int - 0x80) * 64 + (b[2] as int - 0x80)) as char, 3))
        else None
      else if 0xF0 <= b0 <= 0xF4 then
        var lo := if b0 == 0xF0 then 0x90 else 0x80;
        var hi := if b0 == 0xF4 then 0x8F else 0xBF;
        if |b| >= 4 && lo <= b[1] as int <= hi && IsCont(b[2]) && IsCont(b[3]) then
          Some((((b0 - 0xF0) * 262144 + (b[1] as int - 0x80) * 4096
                 + (b[2] as int - 0x80) * 64 + (b[3] as int - 0x80)) as char, 4))
        else None
      else None
  }

  /** bytes.decode("utf-8"): None where Python raises UnicodeDecodeError. */
  function Decode(b: seq<byte>): (r: Option<string>)
    ensures r.Some? ==> |r.value| <= |b|
    decreases |b|
  {
    if b == [] then Some([])
    else
      match DecodeFirst(b)
      case None => None
      case Some((c, k)) =>
        match Decode(b[k..])
        case None => None
        case Some(s) => Some([c] + s)
  }

  // ---------------------------------------------------------------------------
  // Lemmas

  lemma DivMod64(x: int, y: int)
    requires 0 <= y < 64
    ensures (64 * x + y) / 64 == x && (64 * x + y) % 64 == y
  {
  }

  /** The decoder reads back the scalar value the encoder wrote, whatever follows it. */
  lemma DecodeFirstEncodeChar(c: char, rest: seq<byte>)
    ensures DecodeFirst(EncodeChar(c) + rest) == Some((c, |EncodeChar(c)|))
  {
    var n := c as int;
    if n < 0x80 {
    } else if n < 0x800 {
      RoundTripTwo(c, rest);
    } else if n < 0x10000 {
      RoundTripThree(c, rest);
    } else {
      RoundTripFour(c, rest);
    }
  }

  lemma RoundTripTwo(c: char, rest: seq<byte>)
    requires 0x80 <= c as int < 0x800
    ensures DecodeFirst(EncodeChar(c) + rest) == Some((c, 2))
  {
    var n := c as int;
    Split64(n);
    EncodeTwo(n / 64, n % 64);
    DecodeTwo(n / 64, n % 64, rest);
  }

  lemma RoundTripThree(c: char, rest: seq<byte>)
    requires 0x800 <= c as int < 0x10000
    ensures DecodeFirst(EncodeChar(c) + rest) == Some((c, 3))
  {
    var n := c as int;
    var q1 := n / 64;
    Split64(n);
    Split64(q1);
    assert q1 < 1024;
    EncodeThree(q1 / 64, q1 % 64, n % 64);
    DecodeThree(q1 / 64, q1 % 64, n % 64, rest);
  }

  lemma RoundTripFour(c: char, rest: seq<byte>)
    requires 0x10000 <= c as int
    ensures DecodeFirst(EncodeChar(c) + rest) == Some((c, 4))
  {
    var n := c as int;
    var q1 := n / 64;
    var q2 := q1 / 64;
    Split64(n);
    Split64(q1);
    Split64(q2);
    assert q1 < 0x4400 && q2 < 0x110;
    EncodeFour(q2 / 64, q2 % 64, q1 % 64, n % 64);
    DecodeFour(q2 / 64, q2 % 64, q1 % 64, n % 64, rest);
  }

  lemma Split64(a: int)
    requires a >= 0
    ensures a == 64 * (a / 64) + a % 64 && 0 <= a % 64 < 64 && a / 64 >= 0
  {
  }

  lemma DecodeTwo(x: int, y: int, rest: seq<byte>)
    requires 2 <= x < 32 && 0 <= y < 64
    ensures DecodeFirst([(0xC0 + x) as byte, (0x80 + y) as byte] + rest) == Some(((64 * x + y) as char, 2))
  {
  }

  lemma DecodeThree(x: int, y: int, z: int, rest: seq<byte>)
    requires 0 <= x < 16 && 0 <= y < 64 && 0 <= z < 64
    requires 0x800 <= 64 * (64 * x + y) + z && !(0xD800 <= 64 * (64 * x + y) + z < 0xE000)
    ensures DecodeFirst([(0xE0 + x) as byte, (0x80 + y) as byte, (0x80 + z) as byte] + rest)
            == Some(((64 * (64 * x + y) + z) as char, 3))
  {
  }

  lemma DecodeFour(w: int, x: int, y: int, z: int, rest: seq<byte>)
    requires 0 <= w < 5 && 0 <= x < 64 && 0 <= y < 64 && 0 <= z < 64
    requires 0x10000 <= 64 * (64 * (64 * w + x) + y) + z < 0x110000
    ensures DecodeFirst([(0xF0 + w) as byte, (0x80 + x) as byte, (0x80 + y) as byte, (0x80 + z) as byte] + rest)
            == Some(((64 * (64 * (64 * w + x) + y) + z) as char, 4))
  {
  }

  lemma EncodeTwo(x: int, y: int)
    requires 2 <= x < 32 && 0 <= y < 64
    ensures EncodeChar((64 * x + y) as char) == [(0xC0 + x) as byte, (0x80 + y) as byte]
  {
    DivMod64(x, y);
  }

  lemma EncodeThree(x: int, y: int, z: int)
    requires 0 <= x < 16 && 0 <= y < 64 && 0 <= z < 64
    requires 0x800 <= 64 * (64 * x + y) + z && !(0xD800 <= 64 * (64 * x + y) + z < 0xE000)
    ensures EncodeChar((64 * (64 * x + y) + z) as char)
            == [(0xE0 + x) as byte, (0x80 + y) as byte, (0x80 + z) as byte]
  {
    DivMod64(64 * x + y, z);
    DivMod64(x, y);
  }

  lemma EncodeFour(w: int, x: int, y: int, z: int)
    requires 0 <= w < 5 && 0 <= x < 64 && 0 <= y < 64 && 0 <= z < 64
    requires 0x10000 <= 64 * (64 * (64 * w + x) + y) + z < 0x110000
    ensures EncodeChar((64 * (64 * (64 * w + x) + y) + z) as char)
            == [(0xF0 + w) as byte, (0x80 + x) as byte, (0x80 + y) as byte, (0x80 + z) as byte]
  {
    DivMod64(64 * (64 * w + x) + y, z);
    DivMod64(64 * w + x, y);
    DivMod64(w, x);
  }

  /** Whatever the decoder accepts at the start of b is exactly the encoding of what it returns. */
  lemma EncodeCharDecodeFirst(b: seq<byte>)
    requires DecodeFirst(b).Some?
    ensures EncodeChar(DecodeFirst(b).value.0) == b[..DecodeFirst(b).value.1]
  {
    var b0 := b[0] as int;
    if b0 < 0x80 {
    } else if b0 <= 0xDF {
      EncodeTwo(b0 - 0xC0, b[1] as int - 0x80);
      assert b[..2] == [b[0], b[1]];
    } else if b0 <= 0xEF {
      EncodeThree(b0 - 0xE0, b[1] as int - 0x80, b[2] as int - 0x80);
      assert b[..3] == [b[0], b[1], b[2]];
    } else {
      EncodeFour(b0 - 0xF0, b[1] as int - 0x80, b[2] as int - 0x80, b[3] as int - 0x80);
      assert b[..4] == [b[0], b[1], b[2], b[3]];
    }
  }

  /** Decoding an encoded string gives the string back. */
  lemma {:induction false} DecodeEncode(s: string)
    ensures Decode(Encode(s)) == Some(s)
  {
    if s != [] {
      var e := EncodeChar(s[0]);
      var t := Encode(s[1..]);
      DecodeFirstEncodeChar(s[0], t);
      assert (e + t)[|e|..] == t;
      DecodeEncode(s[1..]);
      assert s == [s[0]] + s[1..];
    }
  }

  /** The decoder is exact: the bytes it accepts are the encoding of what it returns. */
  lemma {:induction false} EncodeDecode(b: seq<byte>)
    requires Decode(b).Some?
    ensures Encode(Decode(b).value) == b
    decreases |b|
  {
    if b != [] {
      var k := DecodeStep(b);
      var c := DecodeFirst(b).value.0;
      var rest := Decode(b[k..]).value;
      EncodeCharDecodeFirst(b);
      EncodeDecode(b[k..]);
      EncodeCons(c, rest);
      Halves(b, k);
    }
  }

  /** One step of the decoder: the first scalar value, then the decoding of the rest. */
  lemma DecodeStep(b: seq<byte>) returns (k: nat)
    requires b != [] && Decode(b).Some?
    ensures DecodeFirst(b).Some? && k == DecodeFirst(b).value.1 && k <= |b|
    ensures Decode(b[k..]).Some? && Decode(b).value == [DecodeFirst(b).value.0] + Decode(b[k..]).value
  {
    k := DecodeFirst(b).value.1;
  }

  lemma EncodeCons(c: char, s: string)
    ensures Encode([c] + s) == EncodeChar(c) + Encode(s)
  {
    assert ([c] + s)[1..] == s;
  }

  /** A byte sequence no string encodes to is rejected by the decoder. */
  lemma NotAnEncodingIsRejected(b: seq<byte>)
    requires forall s: string :: Encode(s) != b
    ensures Decode(b) == None
  {
    if Decode(b).Some? {
      EncodeDecode(b);
    }
  }

  lemma {:induction false} EncodeAppend(a: string, b: string)
    ensures Encode(a + b) == Encode(a) + Encode(b)
    decreases |a|
  {
    if a == [] {
      assert a + b == b;
    } else {
      var c, t := a[0], a[1..];
      ConsAppend(a, b);
      EncodeCons(c, t + b);
      EncodeCons(c, t);
      EncodeAppend(t, b);
      Assoc(EncodeChar(c), Encode(t), Encode(b));
    }
  }

  lemma ConsAppend(a: string, b: string)
    requires a != []
    ensures a == [a[0]] + a[1..] && a + b == [a[0]] + (a[1..] + b)
  {
  }

  /** The line-feed byte 0x0A occurs in an encoding only where the text has a line feed. */
  lemma {:induction false} EncodeNoNewline(s: string)
    requires forall i :: 0 <= i < |s| ==> s[i] != '\n'
    ensures forall i :: 0 <= i < |Encode(s)| ==> Encode(s)[i] != 10
    decreases |s|
  {
    if s != [] {
      EncodeNoNewline(s[1..]);
      var e := EncodeChar(s[0]);
      forall i | 0 <= i < |Encode(s)|
        ensures Encode(s)[i] != 10
      {
        if i >= |e| {
          assert Encode(s)[i] == Encode(s[1..])[i - |e|];
        }
      }
    }
  }

  /** ASCII text encodes byte for byte. */
  lemma {:induction false} EncodeAscii(s: string)
    requires forall i :: 0 <= i < |s| ==> s[i] < '\U{80}'
    ensures |Encode(s)| == |s|
    ensures forall i :: 0 <= i < |s| ==> Encode(s)[i] as int == s[i] as int
    decreases |s|
  {
    if s != [] {
      EncodeAscii(s[1..]);
    }
  }
}
