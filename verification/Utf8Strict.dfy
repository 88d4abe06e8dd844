/** The decoder is strict: it accepts the encodings of texts and nothing else. */
module Utf8Strict {
  import opened Wrappers
  import opened Utf8

  lemma Digits64(x: nat, y: nat)
    requires y < 64
    ensures (x * 64 + y) / 64 == x && (x * 64 + y) % 64 == y
  {
  }

  lemma TwoBytes(b: seq<Byte>)
    requires |b| >= 2 && 0xC2 <= b[0] < 0xE0 && DecodeFront(b).Some?
    ensures b[..2] == EncodeChar(DecodeFront(b).value.0) && DecodeFront(b).value.1 == 2
  {
    Digits64(b[0] - 0xC0, b[1] - 0x80);
  }

  lemma ThreeBytes(b: seq<Byte>)
    requires |b| >= 3 && 0xE0 <= b[0] < 0xF0 && DecodeFront(b).Some?
    ensures b[..3] == EncodeChar(DecodeFront(b).value.0) && DecodeFront(b).value.1 == 3
  {
    var high, middle, low: nat := b[0] - 0xE0, b[1] - 0x80, b[2] - 0x80;
    var n := DecodeFront(b).value.0 as int;
    assert n == (high * 64 + middle) * 64 + low;
    Digits64(high * 64 + middle, low);
    Digits64(high, middle);
    assert n / 4096 == n / 64 / 64;
  }

  lemma FourBytes(b: seq<Byte>)
    requires |b| >= 4 && 0xF0 <= b[0] < 0xF5 && DecodeFront(b).Some?
    ensures b[..4] == EncodeChar(DecodeFront(b).value.0) && DecodeFront(b).value.1 == 4
  {
    var top, high, middle, low: nat := b[0] - 0xF0, b[1] - 0x80, b[2] - 0x80, b[3] - 0x80;
    var n := DecodeFront(b).value.0 as int;
    assert n == ((top * 64 + high) * 64 + middle) * 64 + low;
    Digits64((top * 64 + high) * 64 + middle, low);
    Digits64(top * 64 + high, middle);
    Digits64(top, high);
    assert n / 4096 == n / 64 / 64 && n / 262144 == n / 64 / 64 / 64;
  }

  /** The bytes that are read as a character are its encoding. */
  lemma FrontIsEncoded(b: seq<Byte>)
    requires DecodeFront(b).Some?
    ensures b[..DecodeFront(b).value.1] == EncodeChar(DecodeFront(b).value.0)
  {
    if b[0] >= 0xF0 {
      FourBytes(b);
    } else if b[0] >= 0xE0 {
      ThreeBytes(b);
    } else if b[0] >= 0x80 {
      TwoBytes(b);
    }
  }

  lemma EncodeNext(c: char, rest: string)
    ensures Encode([c] + rest) == EncodeChar(c) + Encode(rest)
  {
    assert ([c] + rest)[1..] == rest;
  }

  lemma DecodeStep(b: seq<Byte>) returns (k: nat, rest: string)
    requires b != [] && Decode(b).Some?
    ensures 1 <= k <= |b| && Decode(b[k..]) == Some(rest)
    ensures Encode(rest) == b[k..] ==> Encode(Decode(b).value) == b
  {
    k := DecodeFront(b).value.1;
    rest := Decode(b[k..]).value;
    FrontIsEncoded(b);
    EncodeNext(DecodeFront(b).value.0, rest);
    assert b[..k] + b[k..] == b;
  }

  lemma {:induction false} DecodedIsEncoded(b: seq<Byte>)
    requires Decode(b).Some?
    ensures Encode(Decode(b).value) == b
    decreases |b|
  {
    if b != [] {
      var k, rest := DecodeStep(b);
      DecodedIsEncoded(b[k..]);
    }
  }

  /** Bytes are decoded to a text exactly when they are its encoding: overlong forms, surrogates and stray bytes are refused. */
  lemma DecodeExactly(b: seq<Byte>, s: string)
    ensures Decode(b) == Some(s) <==> b == Encode(s)
  {
    DecodeEncode(s);
    if Decode(b).Some? {
      DecodedIsEncoded(b);
    }
  }
}
