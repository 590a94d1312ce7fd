/**
 UTF-8 as section 3 of RFC 3629 defines it: the encoder a `TextEncoder` runs and the decoder a fatal
 `TextDecoder` runs. The decoder rejects overlong forms, surrogates, values above U+10FFFF and
 sequences that are cut short.
 */
module Utf8 {
  import opened Common

  type byte = x: int | 0 <= x < 256

  /** A Unicode scalar value: every code point except the surrogates. */
  type Scalar = x: int | 0 <= x < 0xD800 || 0xE000 <= x < 0x11_0000

  function EncodeScalar(c: Scalar): (bs: seq<byte>)
    ensures 1 <= |bs| <= 4
  {
    if c < 0x80 then
      [c]
    else if c < 0x800 then
      [0xC0 + c / 64, 0x80 + c % 64]
    else if c < 0x1_0000 then
      [0xE0 + c / 4096, 0x80 + c / 64 % 64, 0x80 + c % 64]
    else
      [0xF0 + c / 262144, 0x80 + c / 4096 % 64, 0x80 + c / 64 % 64, 0x80 + c % 64]
  }

  function Encode(cs: seq<Scalar>): (bs: seq<byte>)
  {
    if cs == [] then [] else EncodeScalar(cs[0]) + Encode(cs[1..])
  }

  predicate IsScalar(c: int) {
    0 <= c < 0xD800 || 0xE000 <= c < 0x11_0000
  }

  /** The number a lead payload and up to three six-bit continuation payloads spell. */
  function Spell(lead: int, b1: int, b2: int, b3: int): int {
    ((lead * 64 + b1) * 64 + b2) * 64 + b3
  }

  function DecodeTwo(b0: int, b1: int): (r: Option<(Scalar, nat)>)
    ensures r.Some? ==> r.value.1 == 2
  {
    var c := Spell(0, 0, b0 - 0xC0, b1 - 0x80);
    if 0x80 <= b1 < 0xC0 && 0x80 <= c && IsScalar(c) then Some((c, 2)) else None
  }

  function DecodeThree(b0: int, b1: int, b2: int): (r: Option<(Scalar, nat)>)
    ensures r.Some? ==> r.value.1 == 3
  {
    var c := Spell(0, b0 - 0xE0, b1 - 0x80, b2 - 0x80);
    if 0x80 <= b1 < 0xC0 && 0x80 <= b2 < 0xC0 && 0x800 <= c && IsScalar(c) then Some((c, 3)) else None
  }

  function DecodeFour(b0: int, b1: int, b2: int, b3: int): (r: Option<(Scalar, nat)>)
    ensures r.Some? ==> r.value.1 == 4
  {
    var c := Spell(b0 - 0xF0, b1 - 0x80, b2 - 0x80, b3 - 0x80);
    if 0x80 <= b1 < 0xC0 && 0x80 <= b2 < 0xC0 && 0x80 <= b3 < 0xC0 && 0x1_0000 <= c && IsScalar(c)
    then Some((c, 4)) else None
  }

  /** The first scalar of `bs` and the number of bytes it takes, or None where no scalar starts. */
  function DecodeFirst(bs: seq<byte>): (r: Option<(Scalar, nat)>)
    ensures r.Some? ==> 1 <= r.value.1 <= |bs|
  {
    if bs == [] || 0x80 <= bs[0] < 0xC0 || 0xF8 <= bs[0] then
      None
    else if bs[0] < 0x80 then
      Some((bs[0], 1))
    else if bs[0] < 0xE0 then
      if |bs| < 2 then None else DecodeTwo(bs[0], bs[1])
    else if bs[0] < 0xF0 then
      if |bs| < 3 then None else DecodeThree(bs[0], bs[1], bs[2])
    else
      if |bs| < 4 then None else DecodeFour(bs[0], bs[1], bs[2], bs[3])
  }

  /** The whole byte string decoded, or None if any part of it is not UTF-8. */
  function Decode(bs: seq<byte>): (r: Option<seq<Scalar>>)
  {
    if bs == [] then
      Some([])
    else
      match DecodeFirst(bs)
      case None => None
      case Some((c, n)) =>
        match Decode(bs[n..])
        case None => None
        case Some(cs) => Some([c] + cs)
  }

  // ----- One scalar

  lemma Digits(c: int)
    requires 0 <= c
    ensures c == Spell(c / 262144, c / 4096 % 64, c / 64 % 64, c % 64)
    ensures c / 262144 == c / 4096 / 64 && c / 4096 == c / 64 / 64
  {
    var q := c / 64;
    assert c == q * 64 + c % 64;
    var r := q / 64;
    assert q == r * 64 + q % 64 && c / 4096 == r;
    assert r == r / 64 * 64 + r % 64 && c / 262144 == r / 64;
  }

  lemma SpellDigits(lead: int, b1: int, b2: int, b3: int)
    requires 0 <= lead && 0 <= b1 < 64 && 0 <= b2 < 64 && 0 <= b3 < 64
    ensures var c := Spell(lead, b1, b2, b3);
            c / 262144 == lead && c / 4096 % 64 == b1 && c / 64 % 64 == b2 && c % 64 == b3
  {
    var c := Spell(lead, b1, b2, b3);
    assert c / 64 == (lead * 64 + b1) * 64 + b2;
    assert c / 4096 == lead * 64 + b1;
  }

  lemma TwoOfEncoded(c: int)
    requires 0x80 <= c < 0x800
    ensures DecodeTwo(0xC0 + c / 64, 0x80 + c % 64) == Some((c, 2))
  {
    Digits(c);
  }

  lemma ThreeOfEncoded(c: int)
    requires 0x800 <= c < 0x1_0000 && IsScalar(c)
    ensures DecodeThree(0xE0 + c / 4096, 0x80 + c / 64 % 64, 0x80 + c % 64) == Some((c, 3))
  {
    Digits(c);
  }

  lemma FourOfEncoded(c: int)
    requires 0x1_0000 <= c < 0x11_0000
    ensures DecodeFour(0xF0 + c / 262144, 0x80 + c / 4096 % 64, 0x80 + c / 64 % 64, 0x80 + c % 64) == Some((c, 4))
  {
    Digits(c);
  }

  lemma DecodeFirstOfEncoded(c: Scalar, rest: seq<byte>)
    ensures DecodeFirst(EncodeScalar(c) + rest) == Some((c, |EncodeScalar(c)|))
  {
    var code := EncodeScalar(c);
    var bs := code + rest;
    assert forall i :: 0 <= i < |code| ==> bs[i] == code[i];
    if 0x80 <= c < 0x800 {
      TwoOfEncoded(c);
    } else if 0x800 <= c < 0x1_0000 {
      ThreeOfEncoded(c);
    } else if 0x1_0000 <= c {
      FourOfEncoded(c);
    }
  }

  lemma EncodedOfDecodeFirst(bs: seq<byte>)
    requires DecodeFirst(bs).Some?
    ensures var r := DecodeFirst(bs).value; EncodeScalar(r.0) == bs[..r.1]
  {
    if bs[0] < 0x80 {
    } else if bs[0] < 0xE0 {
      SpellDigits(0, 0, bs[0] - 0xC0, bs[1] - 0x80);
    } else if bs[0] < 0xF0 {
      SpellDigits(0, bs[0] - 0xE0, bs[1] - 0x80, bs[2] - 0x80);
    } else {
      SpellDigits(bs[0] - 0xF0, bs[1] - 0x80, bs[2] - 0x80, bs[3] - 0x80);
    }
  }

  // ----- Whole texts

  /** Encoding then decoding gives the text back. */
  lemma {:induction false} DecodeEncode(cs: seq<Scalar>)
    ensures Decode(Encode(cs)) == Some(cs)
  {
    if cs != [] {
      DecodeFirstOfEncoded(cs[0], Encode(cs[1..]));
      DecodeEncode(cs[1..]);
      assert Encode(cs)[|EncodeScalar(cs[0])|..] == Encode(cs[1..]);
      assert [cs[0]] + cs[1..] == cs;
    }
  }

  lemma {:induction false} EncodeFirst(c: Scalar, cs: seq<Scalar>)
    ensures Encode([c] + cs) == EncodeScalar(c) + Encode(cs)
  {
    assert ([c] + cs)[1..] == cs;
  }

  lemma {:induction false} DecodeRest(bs: seq<byte>)
    requires bs != [] && Decode(bs).Some?
    ensures DecodeFirst(bs).Some? && Decode(bs[DecodeFirst(bs).value.1..]).Some?
    ensures Decode(bs).value == [DecodeFirst(bs).value.0] + Decode(bs[DecodeFirst(bs).value.1..]).value
  {
  }

  /** Whatever decodes is exactly the encoding of what it decodes to. */
  lemma {:induction false} EncodeDecode(bs: seq<byte>)
    requires Decode(bs).Some?
    ensures Encode(Decode(bs).value) == bs
    decreases |bs|
  {
    if bs != [] {
      DecodeRest(bs);
      EncodedOfDecodeFirst(bs);
      var (c, n) := DecodeFirst(bs).value;
      EncodeFirst(c, Decode(bs[n..]).value);
      EncodeDecode(bs[n..]);
      SplitAt(bs, n);
    }
  }

  lemma {:induction false} EncodeAppend(cs: seq<Scalar>, ds: seq<Scalar>)
    ensures Encode(cs + ds) == Encode(cs) + Encode(ds)
  {
    if cs == [] {
      assert cs + ds == ds;
    } else {
      assert (cs + ds)[1..] == cs[1..] + ds;
      EncodeAppend(cs[1..], ds);
    }
  }

  /** UTF-8 is prefix free: a text whose encoding starts another's encoding starts that other text. */
  lemma {:induction false} EncodedPrefix(ts: seq<Scalar>, cs: seq<Scalar>)
    requires Encode(ts) <= Encode(cs)
    ensures ts <= cs
  {
    if ts != [] {
      assert cs != [];
      var t, rest := EncodeScalar(ts[0]), Encode(cs)[|Encode(ts)|..];
      assert Encode(cs) == t + (Encode(ts[1..]) + rest);
      DecodeFirstOfEncoded(ts[0], Encode(ts[1..]) + rest);
      DecodeFirstOfEncoded(cs[0], Encode(cs[1..]));
      assert ts[0] == cs[0];
      assert Encode(ts[1..]) == Encode(ts)[|t|..];
      assert Encode(cs[1..]) == Encode(cs)[|t|..];
      EncodedPrefix(ts[1..], cs[1..]);
    }
  }
}
