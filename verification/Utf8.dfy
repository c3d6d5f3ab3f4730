// UTF-8 as section 3 of RFC 3629 defines it: encoding of scalar values, and the strict
// decoder that refuses overlong forms, surrogates and truncated sequences.
module Utf8 {
  import opened Wrappers

  type CodePoint = i: int | 0 <= i < 0x11_0000
  type Byte = i: int | 0 <= i < 0x100

  predicate IsSurrogate(c: CodePoint) {
    0xD800 <= c <= 0xDFFF
  }

  predicate IsScalar(c: CodePoint) {
    !IsSurrogate(c)
  }

  predicate Scalars(text: seq<CodePoint>) {
    forall i | 0 <= i < |text| :: IsScalar(text[i])
  }

  function Width(c: CodePoint): (n: nat)
    ensures 1 <= n <= 4
  {
    if c < 0x80 then 1 else if c < 0x800 then 2 else if c < 0x1_0000 then 3 else 4
  }

  function EncodeOne(c: CodePoint): (b: seq<Byte>)
    ensures |b| == Width(c)
  {
    if c < 0x80 then [c]
    else if c < 0x800 then [0xC0 + c / 64, 0x80 + c % 64]
    else if c < 0x1_0000 then [0xE0 + c / 64 / 64, 0x80 + c / 64 % 64, 0x80 + c % 64]
    else [0xF0 + c / 64 / 64 / 64, 0x80 + c / 64 / 64 % 64, 0x80 + c / 64 % 64, 0x80 + c % 64]
  }

  function Encode(text: seq<CodePoint>): seq<Byte> {
    if text == [] then [] else EncodeOne(text[0]) + Encode(text[1..])
  }

  predicate IsContinuation(b: Byte) {
    0x80 <= b < 0xC0
  }

  // Six more payload bits.
  function Shift(c: int, b: int): int {
    c * 64 + (b - 0x80)
  }

  // The scalar value a byte string starts with, when its first bytes are well formed.
  function DecodeOne(b: seq<Byte>): Option<CodePoint> {
    if b == [] then None
    else if b[0] < 0x80 then Some(b[0])
    else if 0xC2 <= b[0] < 0xE0 then Decode2(b)
    else if 0xE0 <= b[0] < 0xF0 then Decode3(b)
    else if 0xF0 <= b[0] < 0xF5 then Decode4(b)
    else None
  }

  function Decode2(b: seq<Byte>): Option<CodePoint>
    requires |b| >= 1 && 0xC2 <= b[0] < 0xE0
  {
    if |b| < 2 || !IsContinuation(b[1]) then None
    else
      var lead: int := b[0];
      Some(Shift(lead - 0xC0, b[1]))
  }

  function Decode3(b: seq<Byte>): Option<CodePoint>
    requires |b| >= 1 && 0xE0 <= b[0] < 0xF0
  {
    if |b| < 3 || !IsContinuation(b[1]) || !IsContinuation(b[2]) then None
    else
      var lead: int := b[0];
      var c := Shift(Shift(lead - 0xE0, b[1]), b[2]);
      if c < 0x800 || IsSurrogate(c) then None else Some(c)
  }

  function Decode4(b: seq<Byte>): Option<CodePoint>
    requires |b| >= 1 && 0xF0 <= b[0] < 0xF5
  {
    if |b| < 4 || !IsContinuation(b[1]) || !IsContinuation(b[2]) || !IsContinuation(b[3]) then None
    else
      var lead: int := b[0];
      var c := Shift(Shift(Shift(lead - 0xF0, b[1]), b[2]), b[3]);
      if c < 0x1_0000 || c >= 0x11_0000 then None else Some(c)
  }

  // bytes.decode("utf-8"): None stands for UnicodeDecodeError.
  function Decode(b: seq<Byte>): Option<seq<CodePoint>>
    decreases |b|
  {
    if b == [] then Some([])
    else match DecodeOne(b)
      case None => None
      case Some(c) =>
        if Width(c) > |b| then None
        else match Decode(b[Width(c)..])
          case None => None
          case Some(text) => Some([c] + text)
  }

  lemma ShiftSplits(c: int, b: int)
    requires 0 <= c && 0x80 <= b < 0xC0
    ensures Shift(c, b) / 64 == c && Shift(c, b) % 64 == b - 0x80 && Shift(c, b) >= 0
  {
  }

  lemma ShiftJoins(c: nat)
    ensures Shift(c / 64, 0x80 + c % 64) == c
  {
  }

  // What is decoded is a scalar value, and its encoding is what was read.
  lemma {:induction false} DecodeOneSound(b: seq<Byte>)
    requires DecodeOne(b).Some?
    ensures var c := DecodeOne(b).value; IsScalar(c) && Width(c) <= |b| && b[..Width(c)] == EncodeOne(c)
  {
    var lead: int := b[0];
    if lead < 0x80 {
    } else if lead < 0xE0 {
      ShiftSplits(lead - 0xC0, b[1]);
      assert b[..2] == [b[0], b[1]];
    } else if lead < 0xF0 {
      var c1 := Shift(lead - 0xE0, b[1]);
      ShiftSplits(lead - 0xE0, b[1]);
      ShiftSplits(c1, b[2]);
      assert b[..3] == [b[0], b[1], b[2]];
    } else {
      var c1 := Shift(lead - 0xF0, b[1]);
      var c2 := Shift(c1, b[2]);
      ShiftSplits(lead - 0xF0, b[1]);
      ShiftSplits(c1, b[2]);
      ShiftSplits(c2, b[3]);
      assert b[..4] == [b[0], b[1], b[2], b[3]];
    }
  }

  lemma DecodeOneComplete(c: CodePoint, rest: seq<Byte>)
    requires IsScalar(c)
    ensures DecodeOne(EncodeOne(c) + rest) == Some(c)
  {
    ShiftJoins(c);
    ShiftJoins(c / 64);
    ShiftJoins(c / 64 / 64);
  }

  // Decoding inverts encoding on every text of scalar values ...
  lemma {:induction false} DecodeInvertsEncode(text: seq<CodePoint>)
    requires Scalars(text)
    ensures Decode(Encode(text)) == Some(text)
  {
    if text != [] {
      DecodeOneComplete(text[0], Encode(text[1..]));
      DecodeInvertsEncode(text[1..]);
      var b := Encode(text);
      assert DecodeOne(b) == Some(text[0]);
      assert b[Width(text[0])..] == Encode(text[1..]);
      assert [text[0]] + text[1..] == text;
    }
  }

  lemma DecodeStep(b: seq<Byte>) returns (c: CodePoint, rest: seq<Byte>)
    requires b != [] && Decode(b).Some?
    ensures IsScalar(c) && b == EncodeOne(c) + rest
    ensures Decode(rest).Some? && Decode(b).value == [c] + Decode(rest).value
  {
    DecodeOneSound(b);
    c := DecodeOne(b).value;
    rest := b[Width(c)..];
    assert b == b[..Width(c)] + rest;
  }

  // ... and encoding inverts decoding on every byte string the decoder accepts.
  lemma {:induction false} EncodeInvertsDecode(b: seq<Byte>)
    requires Decode(b).Some?
    ensures Scalars(Decode(b).value) && Encode(Decode(b).value) == b
    decreases |b|
  {
    if b != [] {
      var c, rest := DecodeStep(b);
      EncodeInvertsDecode(rest);
      var text := Decode(b).value;
      assert text[0] == c && text[1..] == Decode(rest).value;
    }
  }

  lemma {:induction false} EncodeAppend(x: seq<CodePoint>, y: seq<CodePoint>)
    ensures Encode(x + y) == Encode(x) + Encode(y)
  {
    if x == [] {
      assert x + y == y;
    } else {
      assert (x + y)[1..] == x[1..] + y;
      EncodeAppend(x[1..], y);
    }
  }

  // The first bytes decide the first code point.
  lemma SameHead(c: CodePoint, x: seq<Byte>, d: CodePoint, y: seq<Byte>)
    requires IsScalar(c) && IsScalar(d) && EncodeOne(c) + x <= EncodeOne(d) + y
    ensures c == d && x <= y
  {
    var b, one := EncodeOne(d) + y, EncodeOne(c) + x;
    var more := b[|one|..];
    assert b == one + more == EncodeOne(c) + (x + more);
    DecodeOneComplete(c, x + more);
    DecodeOneComplete(d, y);
    assert c == d;
    assert b[Width(c)..] == y && b[Width(c)..] == x + more;
  }

  // No other text's encoding is a prefix of this one's: a byte prefix that is itself an
  // encoding is the encoding of a prefix of the text.
  lemma {:induction false} EncodingPrefix(x: seq<CodePoint>, text: seq<CodePoint>)
    requires Scalars(x) && Scalars(text) && Encode(x) <= Encode(text)
    ensures x <= text
  {
    if x != [] {
      assert text != [];
      SameHead(x[0], Encode(x[1..]), text[0], Encode(text[1..]));
      EncodingPrefix(x[1..], text[1..]);
    }
  }
}
