/**
 The `ignore` decoders of the file layer: byte strings in, sequences of Unicode scalar
 values out, with every byte that belongs to no well-formed sequence dropped.

 The encoders are the ones the standards define (section 3 of RFC 3629, section 2.1 of
 RFC 2781) and share no text with the decoders. The decoders' shifts and masks are
 written as subtraction of the marker bits and multiplication by powers of two;
 `MasksAreMarkers` and `PairMasksAreMarkers` say why that is the same.
 */
module ByteDecoders {
  type Byte = b: int | 0 <= b < 0x100

  datatype Encoding = Utf8 | Utf16Le

  const LF := 0x0A

  predicate IsScalar(v: int) {
    0 <= v < 0xD800 || 0xE000 <= v < 0x11_0000
  }

  predicate AllScalars(vs: seq<int>) {
    forall i | 0 <= i < |vs| :: IsScalar(vs[i])
  }

  // ---------------------------------------------------------------- encoders

  function Encode(enc: Encoding, v: int): (bytes: seq<Byte>)
    requires IsScalar(v)
    ensures bytes != [] && Aligned(enc, |bytes|)
  {
    match enc
    case Utf8 =>
      if v < 0x80 then [v]
      else if v < 0x800 then [0xC0 + v / 0x40, 0x80 + v % 0x40]
      else if v < 0x1_0000 then [0xE0 + v / 0x40 / 0x40, 0x80 + v / 0x40 % 0x40, 0x80 + v % 0x40]
      else [0xF0 + v / 0x40 / 0x40 / 0x40, 0x80 + v / 0x40 / 0x40 % 0x40, 0x80 + v / 0x40 % 0x40, 0x80 + v % 0x40]
    case Utf16Le =>
      if v < 0x1_0000 then CodeUnit(v)
      else CodeUnit(0xD800 + (v - 0x1_0000) / 0x400) + CodeUnit(0xDC00 + (v - 0x1_0000) % 0x400)
  }

  function CodeUnit(u: int): (bytes: seq<Byte>)
    requires 0 <= u < 0x1_0000
  {
    [u % 0x100, u / 0x100]
  }

  /** Bytes per code unit. */
  function Unit(enc: Encoding): nat {
    match enc
    case Utf8 => 1
    case Utf16Le => 2
  }

  /** An offset on a code unit boundary. */
  predicate Aligned(enc: Encoding, i: int) {
    enc.Utf16Le? ==> i % 2 == 0
  }

  function EncodeAll(enc: Encoding, vs: seq<int>): seq<Byte>
    requires AllScalars(vs)
  {
    if vs == [] then [] else Encode(enc, vs[0]) + EncodeAll(enc, vs[1..])
  }

  // ---------------------------------------------------------------- decoders

  /** What the decoder does at the front of the remaining bytes: one character, or a few bytes dropped. */
  datatype Step = Accept(scalar: int, length: nat) | Drop(length: nat)

  /** `data[i]`, with -1 for `undefined`. */
  function At(d: seq<Byte>, i: nat): int {
    if i < |d| then d[i] else -1
  }

  predicate Continuation(b: int) {
    0x80 <= b <= 0xBF
  }

  predicate SecondOfThree(b0: int, b1: int) {
    || (b0 == 0xE0 && 0xA0 <= b1 <= 0xBF)
    || (0xE1 <= b0 <= 0xEC && Continuation(b1))
    || (b0 == 0xED && 0x80 <= b1 <= 0x9F)
    || (0xEE <= b0 <= 0xEF && Continuation(b1))
  }

  predicate SecondOfFour(b0: int, b1: int) {
    || (b0 == 0xF0 && 0x90 <= b1 <= 0xBF)
    || (0xF1 <= b0 <= 0xF3 && Continuation(b1))
    || (b0 == 0xF4 && 0x80 <= b1 <= 0x8F)
  }

  /** The step of `decodeUtf8Ignore` on the next four bytes. */
  function StepUtf8(b0: int, b1: int, b2: int, b3: int): Step {
    if b0 <= 0x7F then Accept(b0, 1)
    else if 0xC2 <= b0 <= 0xDF && Continuation(b1) then Accept(Two(b0, b1), 2)
    else if SecondOfThree(b0, b1) && Continuation(b2) then Accept(Three(b0, b1, b2), 3)
    else if SecondOfFour(b0, b1) && Continuation(b2) && Continuation(b3) then Accept(Four(b0, b1, b2, b3), 4)
    else Drop(1)
  }

  function Two(b0: int, b1: int): int {
    (b0 - 0xC0) * 0x40 + (b1 - 0x80)
  }

  function Three(b0: int, b1: int, b2: int): int {
    (b0 - 0xE0) * 0x1000 + (b1 - 0x80) * 0x40 + (b2 - 0x80)
  }

  function Four(b0: int, b1: int, b2: int, b3: int): int {
    (b0 - 0xF0) * 0x4_0000 + (b1 - 0x80) * 0x1000 + (b2 - 0x80) * 0x40 + (b3 - 0x80)
  }

  /** The step of `decodeUtf16LeIgnore` on the next code unit and the one after it (-1 for none). */
  function StepUtf16Le(unit: int, low: int): Step {
    if 0xD800 <= unit <= 0xDBFF then
      if 0xDC00 <= low <= 0xDFFF then Accept(FromPair(unit, low), 4) else Drop(2)
    else if 0xDC00 <= unit <= 0xDFFF then Drop(2)
    else Accept(unit, 2)
  }

  function FromPair(unit: int, low: int): int {
    0x1_0000 + (unit - 0xD800) * 0x400 + (low - 0xDC00)
  }

  /** `data[i] | (data[i + 1] << 8)`, with -1 when a byte is missing. */
  function UnitAt(d: seq<Byte>, i: nat): int {
    if i + 1 < |d| then At(d, i) + At(d, i + 1) * 0x100 else -1
  }

  function StepOf(enc: Encoding, d: seq<Byte>): (s: Step)
    requires |d| >= Unit(enc)
    ensures 0 < s.length <= |d| && Aligned(enc, s.length)
  {
    if enc.Utf8? then StepUtf8(At(d, 0), At(d, 1), At(d, 2), At(d, 3)) else StepUtf16Le(UnitAt(d, 0), UnitAt(d, 2))
  }

  function Decode(enc: Encoding, d: seq<Byte>): seq<int>
    decreases |d|
  {
    if |d| < Unit(enc) then []
    else
      var s := StepOf(enc, d);
      (if s.Accept? then [s.scalar] else []) + Decode(enc, d[s.length..])
  }

  /** The step at offset i of the whole input. */
  function StepAt(enc: Encoding, data: seq<Byte>, i: nat): (s: Step)
    requires i + Unit(enc) <= |data|
    ensures 0 < s.length && i + s.length <= |data|
  {
    StepOf(enc, data[i..])
  }

  lemma StepAtBytes(enc: Encoding, data: seq<Byte>, i: nat)
    requires i + Unit(enc) <= |data|
    ensures StepAt(enc, data, i)
         == if enc.Utf8? then StepUtf8(At(data, i), At(data, i + 1), At(data, i + 2), At(data, i + 3))
            else StepUtf16Le(UnitAt(data, i), UnitAt(data, i + 2))
  {
    var d := data[i..];
    assert At(d, 0) == At(data, i) && At(d, 1) == At(data, i + 1) && At(d, 2) == At(data, i + 2) && At(d, 3) == At(data, i + 3);
  }

  /** One round of a decoder's loop: `output` is what it has put out when it reaches offset i. */
  lemma DecodeRound(enc: Encoding, data: seq<Byte>, i: nat, output: seq<int>, s: Step, next: nat, more: seq<int>)
    requires i + Unit(enc) <= |data| && s == StepAt(enc, data, i) && next == i + s.length
    requires more == if s.Accept? then output + [s.scalar] else output
    ensures more + Decode(enc, data[next..]) == output + Decode(enc, data[i..])
  {
    assert data[i..][s.length..] == data[next..];
  }

  /** The branches of the UTF-8 loop, on the next four bytes. */
  method ReadUtf8(b0: int, b1: int, b2: int, b3: int) returns (accepted: bool, codePoint: int, length: nat)
    requires 0 <= b0
    ensures StepUtf8(b0, b1, b2, b3) == if accepted then Accept(codePoint, length) else Drop(length)
  {
    if b0 <= 0x7F {
      return true, b0, 1;
    }
    if 0xC2 <= b0 <= 0xDF {
      if Continuation(b1) {
        return true, Two(b0, b1), 2;
      }
      return false, 0, 1;
    }
    if 0xE0 <= b0 <= 0xEF {
      if SecondOfThree(b0, b1) && Continuation(b2) {
        return true, Three(b0, b1, b2), 3;
      }
      return false, 0, 1;
    }
    if 0xF0 <= b0 <= 0xF4 {
      if SecondOfFour(b0, b1) && Continuation(b2) && Continuation(b3) {
        return true, Four(b0, b1, b2, b3), 4;
      }
      return false, 0, 1;
    }
    return false, 0, 1;
  }

  /** The branches of the UTF-16LE loop, on the next two code units. */
  method ReadUtf16Le(codeUnit: int, low: int) returns (accepted: bool, codePoint: int, length: nat)
    ensures StepUtf16Le(codeUnit, low) == if accepted then Accept(codePoint, length) else Drop(length)
  {
    if 0xD800 <= codeUnit <= 0xDBFF {
      if 0xDC00 <= low <= 0xDFFF {
        return true, FromPair(codeUnit, low), 4;
      }
      return false, 0, 2;
    }
    if 0xDC00 <= codeUnit <= 0xDFFF {
      return false, 0, 2;
    }
    return true, codeUnit, 2;
  }

  /** `decodeUtf8Ignore` */
  method DecodeUtf8Ignore(data: seq<Byte>) returns (output: seq<int>)
    ensures output == Decode(Utf8, data)
  {
    output := [];
    var i := 0;
    assert data[0..] == data;
    while i < |data|
      invariant 0 <= i <= |data|
      invariant output + Decode(Utf8, data[i..]) == Decode(Utf8, data)
    {
      StepAtBytes(Utf8, data, i);
      var accepted, codePoint, length := ReadUtf8(data[i], At(data, i + 1), At(data, i + 2), At(data, i + 3));
      ghost var before, from := output, i;
      if accepted {
        output := output + [codePoint];
      }
      i := i + length;
      DecodeRound(Utf8, data, from, before, StepAt(Utf8, data, from), i, output);
    }
    assert Decode(Utf8, data[i..]) == [];
  }

  /** `decodeUtf16LeIgnore` */
  method DecodeUtf16LeIgnore(data: seq<Byte>) returns (output: seq<int>)
    ensures output == Decode(Utf16Le, data)
  {
    output := [];
    var i := 0;
    assert data[0..] == data;
    while i + 1 < |data|
      invariant 0 <= i <= |data|
      invariant output + Decode(Utf16Le, data[i..]) == Decode(Utf16Le, data)
    {
      StepAtBytes(Utf16Le, data, i);
      var accepted, codePoint, length := ReadUtf16Le(UnitAt(data, i), UnitAt(data, i + 2));
      ghost var before, from := output, i;
      if accepted {
        output := output + [codePoint];
      }
      i := i + length;
      DecodeRound(Utf16Le, data, from, before, StepAt(Utf16Le, data, from), i, output);
    }
    assert Decode(Utf16Le, data[i..]) == [];
  }

  // ---------------------------------------------------------------- what one step accepts

  /** Section 4 of RFC 3629: the productions UTF8-1 to UTF8-4. */
  predicate Utf8Char(s: seq<Byte>) {
    || (|s| == 1 && s[0] <= 0x7F)
    || (|s| == 2 && 0xC2 <= s[0] <= 0xDF && Tail(s[1]))
    || (|s| == 3 && s[0] == 0xE0 && 0xA0 <= s[1] <= 0xBF && Tail(s[2]))
    || (|s| == 3 && 0xE1 <= s[0] <= 0xEC && Tail(s[1]) && Tail(s[2]))
    || (|s| == 3 && s[0] == 0xED && 0x80 <= s[1] <= 0x9F && Tail(s[2]))
    || (|s| == 3 && 0xEE <= s[0] <= 0xEF && Tail(s[1]) && Tail(s[2]))
    || (|s| == 4 && s[0] == 0xF0 && 0x90 <= s[1] <= 0xBF && Tail(s[2]) && Tail(s[3]))
    || (|s| == 4 && 0xF1 <= s[0] <= 0xF3 && Tail(s[1]) && Tail(s[2]) && Tail(s[3]))
    || (|s| == 4 && s[0] == 0xF4 && 0x80 <= s[1] <= 0x8F && Tail(s[2]) && Tail(s[3]))
  }

  predicate Tail(b: Byte) {
    0x80 <= b <= 0xBF
  }

  /** An accepted step reads exactly the encoding of the scalar value it puts out. */
  lemma AcceptedIsEncoded(enc: Encoding, d: seq<Byte>)
    requires |d| >= Unit(enc) && StepOf(enc, d).Accept?
    ensures var s := StepOf(enc, d); IsScalar(s.scalar) && Encode(enc, s.scalar) == d[..s.length]
  {
    if enc.Utf8? {
      AcceptedUtf8(d);
    } else {
      AcceptedUtf16Le(d);
    }
  }

  lemma AcceptedUtf8(d: seq<Byte>)
    requires d != [] && StepOf(Utf8, d).Accept?
    ensures var s := StepOf(Utf8, d); IsScalar(s.scalar) && Encode(Utf8, s.scalar) == d[..s.length]
  {
    var n := StepOf(Utf8, d).length;
    if n == 1 {
      assert d[..1] == [d[0]];
    } else if n == 2 {
      assert StepOf(Utf8, d).scalar == Two(d[0], d[1]);
      TwoInverse(d[0], d[1]);
      assert d[..2] == [d[0], d[1]];
    } else if n == 3 {
      assert StepOf(Utf8, d).scalar == Three(d[0], d[1], d[2]);
      ThreeInverse(d[0], d[1], d[2]);
      assert d[..3] == [d[0], d[1], d[2]];
    } else {
      assert StepOf(Utf8, d).scalar == Four(d[0], d[1], d[2], d[3]);
      FourInverse(d[0], d[1], d[2], d[3]);
      assert d[..4] == [d[0], d[1], d[2], d[3]];
    }
  }

  lemma AcceptedUtf16Le(d: seq<Byte>)
    requires |d| >= 2 && StepOf(Utf16Le, d).Accept?
    ensures var s := StepOf(Utf16Le, d); IsScalar(s.scalar) && Encode(Utf16Le, s.scalar) == d[..s.length]
  {
    UnitInverse(d[0], d[1]);
    if StepOf(Utf16Le, d).length == 2 {
      assert d[..2] == [d[0], d[1]];
    } else {
      UnitInverse(d[2], d[3]);
      PairInverse(UnitAt(d, 0), UnitAt(d, 2));
      assert d[..4] == [d[0], d[1], d[2], d[3]];
    }
  }

  lemma UnitInverse(first: Byte, second: Byte)
    ensures CodeUnit(second * 0x100 + first as int) == [first, second]
  {}

  lemma PairInverse(unit: int, low: int)
    requires 0xD800 <= unit <= 0xDBFF && 0xDC00 <= low <= 0xDFFF
    ensures var v := FromPair(unit, low);
      0x1_0000 <= v && IsScalar(v) && Encode(Utf16Le, v) == CodeUnit(unit) + CodeUnit(low)
  {
    var v := FromPair(unit, low);
    assert (v - 0x1_0000) / 0x400 == unit - 0xD800 && (v - 0x1_0000) % 0x400 == low - 0xDC00;
  }

  lemma Split64(high: int, low: int)
    requires 0 <= low < 0x40
    ensures (high * 0x40 + low) / 0x40 == high && (high * 0x40 + low) % 0x40 == low
  {}

  lemma TwoInverse(b0: Byte, b1: Byte)
    requires 0xC2 <= b0 <= 0xDF && Continuation(b1)
    ensures IsScalar(Two(b0, b1)) && Encode(Utf8, Two(b0, b1)) == [b0, b1]
  {
    Split64(b0 - 0xC0, b1 - 0x80);
  }

  lemma ThreeInverse(b0: Byte, b1: Byte, b2: Byte)
    requires SecondOfThree(b0, b1) && Continuation(b2)
    ensures IsScalar(Three(b0, b1, b2)) && Encode(Utf8, Three(b0, b1, b2)) == [b0, b1, b2]
  {
    Split64(b0 - 0xE0, b1 - 0x80);
    Split64((b0 - 0xE0) * 0x40 + (b1 - 0x80), b2 - 0x80);
  }

  lemma FourInverse(b0: Byte, b1: Byte, b2: Byte, b3: Byte)
    requires SecondOfFour(b0, b1) && Continuation(b2) && Continuation(b3)
    ensures IsScalar(Four(b0, b1, b2, b3)) && Encode(Utf8, Four(b0, b1, b2, b3)) == [b0, b1, b2, b3]
  {
    var v1: int := b0 - 0xF0;
    var v2: int := v1 * 0x40 + (b1 - 0x80);
    var v3: int := v2 * 0x40 + (b2 - 0x80);
    var v: int := v3 * 0x40 + (b3 - 0x80);
    assert v == Four(b0, b1, b2, b3);
    Split64(v1, b1 - 0x80);
    Split64(v2, b2 - 0x80);
    Split64(v3, b3 - 0x80);
    assert 0x1_0000 <= v < 0x11_0000;
  }

  /** The decoder's masks take off the marker bits of bytes in the ranges where it uses them. */
  lemma MasksAreMarkers(b0: bv32, b1: bv32, b2: bv32, b3: bv32)
    requires 0x80 <= b1 <= 0xBF && 0x80 <= b2 <= 0xBF && 0x80 <= b3 <= 0xBF
    ensures 0xC0 <= b0 <= 0xDF ==> ((b0 & 0x1F) << 6) | (b1 & 0x3F) == (b0 - 0xC0) * 0x40 + (b1 - 0x80)
    ensures 0xE0 <= b0 <= 0xEF ==>
      ((b0 & 0x0F) << 12) | ((b1 & 0x3F) << 6) | (b2 & 0x3F)
        == (b0 - 0xE0) * 0x1000 + (b1 - 0x80) * 0x40 + (b2 - 0x80)
    ensures 0xF0 <= b0 <= 0xF7 ==>
      ((b0 & 0x07) << 18) | ((b1 & 0x3F) << 12) | ((b2 & 0x3F) << 6) | (b3 & 0x3F)
        == (b0 - 0xF0) * 0x4_0000 + (b1 - 0x80) * 0x1000 + (b2 - 0x80) * 0x40 + (b3 - 0x80)
  {}

  lemma PairMasksAreMarkers(first: bv32, second: bv32, unit: bv32, low: bv32)
    requires first <= 0xFF && second <= 0xFF
    ensures first | (second << 8) == first + second * 0x100
    ensures (unit - 0xD800) << 10 == (unit - 0xD800) * 0x400
  {}

  /** A scalar value's encoding is accepted wherever it stands, and gives that value back. */
  lemma EncodedIsAccepted(enc: Encoding, v: int, rest: seq<Byte>)
    requires IsScalar(v)
    ensures StepOf(enc, Encode(enc, v) + rest) == Accept(v, |Encode(enc, v)|)
  {
    var e := Encode(enc, v);
    var d := e + rest;
    assert forall i: nat | i < |e| :: At(d, i) == e[i];
    if enc.Utf8? {
      EncodedBytes(v, At(d, 1), At(d, 2), At(d, 3));
    } else {
      assert forall i: nat | i + 1 < |e| :: UnitAt(d, i) == 0x100 * (e[i + 1] as int) + e[i];
    }
  }

  /** The four cases of the UTF-8 encoder, with anything at all behind the encoding. */
  lemma EncodedBytes(v: int, b1: int, b2: int, b3: int)
    requires IsScalar(v)
    requires var e := Encode(Utf8, v);
      (|e| > 1 ==> b1 == e[1]) && (|e| > 2 ==> b2 == e[2]) && (|e| > 3 ==> b3 == e[3])
    ensures StepUtf8(Encode(Utf8, v)[0], b1, b2, b3) == Accept(v, |Encode(Utf8, v)|)
  {
    var v1, v2 := v / 0x40, v / 0x40 / 0x40;
    assert v == v1 * 0x40 + v % 0x40 && v1 == v2 * 0x40 + v1 % 0x40 && v2 == v2 / 0x40 * 0x40 + v2 % 0x40;
  }

  /** The accepted sequences are exactly the encodings of scalar values. */
  lemma AcceptsExactlyTheEncodings(enc: Encoding, d: seq<Byte>)
    requires |d| >= Unit(enc)
    ensures StepOf(enc, d).Accept? <==> exists v: int :: IsScalar(v) && Encode(enc, v) <= d
  {
    if StepOf(enc, d).Accept? {
      AcceptedIsEncoded(enc, d);
      var v := StepOf(enc, d).scalar;
      assert IsScalar(v) && Encode(enc, v) <= d;
    }
    if v: int :| IsScalar(v) && Encode(enc, v) <= d {
      EncodedIsAccepted(enc, v, d[|Encode(enc, v)|..]);
      assert Encode(enc, v) + d[|Encode(enc, v)|..] == d;
    }
  }

  /** For UTF-8 they are exactly what the grammar of RFC 3629 derives. */
  lemma AcceptsExactlyTheGrammar(d: seq<Byte>)
    requires d != []
    ensures StepOf(Utf8, d).Accept? <==> exists n :: 1 <= n <= |d| && Utf8Char(d[..n])
    ensures StepOf(Utf8, d).Accept? ==> Utf8Char(d[..StepOf(Utf8, d).length])
  {
    if StepOf(Utf8, d).Accept? {
      assert Utf8Char(d[..StepOf(Utf8, d).length]);
    }
    if n :| 1 <= n <= |d| && Utf8Char(d[..n]) {
      GrammarIsAccepted(d, n);
    }
  }

  lemma GrammarIsAccepted(d: seq<Byte>, n: nat)
    requires 1 <= n <= |d| && Utf8Char(d[..n])
    ensures StepOf(Utf8, d).Accept? && StepOf(Utf8, d).length == n
  {
    var s := d[..n];
    assert forall i: nat | i < n :: At(d, i) == s[i];
  }

  // ---------------------------------------------------------------- whole byte strings

  lemma {:induction false} DecodeInvertsEncode(enc: Encoding, vs: seq<int>)
    requires AllScalars(vs)
    ensures Decode(enc, EncodeAll(enc, vs)) == vs
  {
    if vs != [] {
      var first := Encode(enc, vs[0]);
      var rest := EncodeAll(enc, vs[1..]);
      EncodedIsAccepted(enc, vs[0], rest);
      assert (first + rest)[|first|..] == rest;
      DecodeInvertsEncode(enc, vs[1..]);
    }
  }

  lemma {:induction false} DecodesToScalars(enc: Encoding, d: seq<Byte>)
    ensures AllScalars(Decode(enc, d))
    decreases |d|
  {
    if |d| >= Unit(enc) {
      var s := StepOf(enc, d);
      if s.Accept? {
        AcceptedIsEncoded(enc, d);
      }
      DecodesToScalars(enc, d[s.length..]);
    }
  }

  /** `s` arises from `t` by leaving bytes out. */
  predicate Subsequence(s: seq<Byte>, t: seq<Byte>)
    decreases |t|
  {
    if s == [] then true
    else if t == [] then false
    else (s[0] == t[0] && Subsequence(s[1..], t[1..])) || Subsequence(s, t[1..])
  }

  lemma {:induction false} SubsequenceAfterCommon(front: seq<Byte>, s: seq<Byte>, t: seq<Byte>)
    requires Subsequence(s, t)
    ensures Subsequence(front + s, front + t)
  {
    if front == [] {
      assert front + s == s && front + t == t;
    } else {
      SubsequenceAfterCommon(front[1..], s, t);
      assert (front + s)[1..] == front[1..] + s && (front + t)[1..] == front[1..] + t;
    }
  }

  lemma {:induction false} SubsequenceAfterDropped(front: seq<Byte>, s: seq<Byte>, t: seq<Byte>)
    requires Subsequence(s, t)
    ensures Subsequence(s, front + t)
  {
    if front == [] {
      assert front + t == t;
    } else {
      SubsequenceAfterDropped(front[1..], s, t);
      assert (front + t)[1..] == front[1..] + t;
    }
  }

  /** Re-encoding what was decoded only leaves bytes out. */
  lemma {:induction false} ReencodingIsSubsequence(enc: Encoding, d: seq<Byte>)
    ensures AllScalars(Decode(enc, d)) && Subsequence(EncodeAll(enc, Decode(enc, d)), d)
    decreases |d|
  {
    DecodesToScalars(enc, d);
    if |d| >= Unit(enc) {
      var s := StepOf(enc, d);
      var front, rest := d[..s.length], d[s.length..];
      assert d == front + rest;
      ReencodingIsSubsequence(enc, rest);
      var encoded := EncodeAll(enc, Decode(enc, rest));
      if s.Accept? {
        AcceptedIsEncoded(enc, d);
        assert Decode(enc, d) == [s.scalar] + Decode(enc, rest) && Decode(enc, d)[1..] == Decode(enc, rest);
        SubsequenceAfterCommon(front, encoded, rest);
      } else {
        assert Decode(enc, d) == Decode(enc, rest);
        SubsequenceAfterDropped(front, encoded, rest);
      }
    }
  }
}
