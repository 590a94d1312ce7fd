/** Unpadded base64url, section 5 of RFC 4648: three bytes as four letters, a remainder as two or three. */
module Base64Url {
  import opened Common
  import opened Utf8
  import opened JsText

  /** `A-Z`, `a-z`, `0-9`, `-`, `_`. */
  function Letter(d: int): Unit
    requires 0 <= d < 64
  {
    if d < 26 then 65 + d
    else if d < 52 then 71 + d
    else if d < 62 then d - 4
    else if d == 62 then 45
    else 95
  }

  function LetterValue(u: int): Option<int> {
    if 65 <= u < 91 then Some(u - 65)
    else if 97 <= u < 123 then Some(u - 71)
    else if 48 <= u < 58 then Some(u + 4)
    else if u == 45 then Some(62)
    else if u == 95 then Some(63)
    else None
  }

  // The four six-bit values of a group of three bytes.

  function Sextet1(a: int): (d: int)
    requires 0 <= a < 256
    ensures 0 <= d < 64
  {
    a / 4
  }

  function Sextet2(a: int, b: int): (d: int)
    requires 0 <= a < 256 && 0 <= b < 256
    ensures 0 <= d < 64
  {
    a % 4 * 16 + b / 16
  }

  function Sextet3(b: int, c: int): (d: int)
    requires 0 <= b < 256 && 0 <= c < 256
    ensures 0 <= d < 64
  {
    b % 16 * 4 + c / 64
  }

  function Sextet4(c: int): (d: int)
    requires 0 <= c < 256
    ensures 0 <= d < 64
  {
    c % 64
  }

  function Letters1(a: int): JsString
    requires 0 <= a < 256
  {
    [Letter(Sextet1(a)), Letter(Sextet2(a, 0))]
  }

  function Letters2(a: int, b: int): JsString
    requires 0 <= a < 256 && 0 <= b < 256
  {
    [Letter(Sextet1(a)), Letter(Sextet2(a, b)), Letter(Sextet3(b, 0))]
  }

  function Letters3(a: int, b: int, c: int): JsString
    requires 0 <= a < 256 && 0 <= b < 256 && 0 <= c < 256
  {
    [Letter(Sextet1(a)), Letter(Sextet2(a, b)), Letter(Sextet3(b, c)), Letter(Sextet4(c))]
  }

  function EncodeBase64Url(bs: seq<byte>): JsString {
    if |bs| == 0 then []
    else if |bs| == 1 then Letters1(bs[0])
    else if |bs| == 2 then Letters2(bs[0], bs[1])
    else Letters3(bs[0], bs[1], bs[2]) + EncodeBase64Url(bs[3..])
  }

  function FirstByte(p: int, q: int): (b: int)
    requires 0 <= p < 64 && 0 <= q < 64
    ensures 0 <= b < 256
  {
    p * 4 + q / 16
  }

  function SecondByte(q: int, r: int): (b: int)
    requires 0 <= q < 64 && 0 <= r < 64
    ensures 0 <= b < 256
  {
    q % 16 * 16 + r / 4
  }

  function ThirdByte(r: int, s: int): (b: int)
    requires 0 <= r < 64 && 0 <= s < 64
    ensures 0 <= b < 256
  {
    r % 4 * 64 + s
  }

  /** The bytes a group of four six-bit values holds. */
  function Bytes(p: int, q: int, r: int, s: int): (bs: seq<byte>)
    requires 0 <= p < 64 && 0 <= q < 64 && 0 <= r < 64 && 0 <= s < 64
  {
    [FirstByte(p, q), SecondByte(q, r), ThirdByte(r, s)]
  }

  /** The six-bit value of a letter, zero for anything else. */
  function Bits(u: int): (d: int)
    ensures 0 <= d < 64
  {
    if LetterValue(u).Some? then LetterValue(u).value else 0
  }

  function DecodeBase64Url(t: JsString): seq<byte> {
    if |t| < 2 then []
    else if |t| == 2 then [FirstByte(Bits(t[0]), Bits(t[1]))]
    else if |t| == 3 then [FirstByte(Bits(t[0]), Bits(t[1])), SecondByte(Bits(t[1]), Bits(t[2]))]
    else Bytes(Bits(t[0]), Bits(t[1]), Bits(t[2]), Bits(t[3])) + DecodeBase64Url(t[4..])
  }

  lemma BitsLetter(d: int)
    requires 0 <= d < 64
    ensures Bits(Letter(d)) == d
  {
  }

  lemma FirstByteBack(a: int, b: int)
    requires 0 <= a < 256 && 0 <= b < 256
    ensures FirstByte(Sextet1(a), Sextet2(a, b)) == a
  {
    var high := b / 16;
    assert (a % 4 * 16 + high) / 16 == a % 4;
  }

  lemma SecondByteBack(a: int, b: int, c: int)
    requires 0 <= a < 256 && 0 <= b < 256 && 0 <= c < 256
    ensures SecondByte(Sextet2(a, b), Sextet3(b, c)) == b
  {
    SecondByteOf(a % 4, b, c / 64);
  }

  lemma SecondByteOf(low: int, b: int, high: int)
    requires 0 <= low < 4 && 0 <= b < 256 && 0 <= high < 4
    ensures SecondByte(low * 16 + b / 16, b % 16 * 4 + high) == b
  {
    assert (low * 16 + b / 16) % 16 == b / 16;
    assert (b % 16 * 4 + high) / 4 == b % 16;
  }

  lemma ThirdByteBack(b: int, c: int)
    requires 0 <= b < 256 && 0 <= c < 256
    ensures ThirdByte(Sextet3(b, c), Sextet4(c)) == c
  {
    var low := b % 16;
    assert (low * 4 + c / 64) % 4 == c / 64;
  }

  lemma {:induction false} DecodePair(p: int, q: int)
    requires 0 <= p < 64 && 0 <= q < 64
    ensures DecodeBase64Url([Letter(p), Letter(q)]) == [FirstByte(p, q)]
  {
    BitsLetter(p);
    BitsLetter(q);
  }

  lemma {:induction false} DecodeTriple(p: int, q: int, r: int)
    requires 0 <= p < 64 && 0 <= q < 64 && 0 <= r < 64
    ensures DecodeBase64Url([Letter(p), Letter(q), Letter(r)]) == [FirstByte(p, q), SecondByte(q, r)]
  {
    BitsLetter(p);
    BitsLetter(q);
    BitsLetter(r);
  }

  lemma {:induction false} DecodeGroup(p: int, q: int, r: int, s: int, rest: JsString)
    requires 0 <= p < 64 && 0 <= q < 64 && 0 <= r < 64 && 0 <= s < 64
    ensures DecodeBase64Url([Letter(p), Letter(q), Letter(r), Letter(s)] + rest) ==
            Bytes(p, q, r, s) + DecodeBase64Url(rest)
  {
    BitsLetter(p);
    BitsLetter(q);
    BitsLetter(r);
    BitsLetter(s);
    assert ([Letter(p), Letter(q), Letter(r), Letter(s)] + rest)[4..] == rest;
  }

  lemma {:induction false} DecodeOne(a: byte)
    ensures DecodeBase64Url(Letters1(a)) == [a]
  {
    DecodePair(Sextet1(a), Sextet2(a, 0));
    FirstByteBack(a, 0);
  }

  lemma {:induction false} DecodeTwo(a: byte, b: byte)
    ensures DecodeBase64Url(Letters2(a, b)) == [a, b]
  {
    DecodeTriple(Sextet1(a), Sextet2(a, b), Sextet3(b, 0));
    FirstByteBack(a, b);
    SecondByteBack(a, b, 0);
  }

  lemma {:induction false} DecodeThree(a: byte, b: byte, c: byte, rest: JsString)
    ensures DecodeBase64Url(Letters3(a, b, c) + rest) == [a, b, c] + DecodeBase64Url(rest)
  {
    DecodeGroup(Sextet1(a), Sextet2(a, b), Sextet3(b, c), Sextet4(c), rest);
    FirstByteBack(a, b);
    SecondByteBack(a, b, c);
    ThirdByteBack(b, c);
  }

  /** Decoding an encoded byte string gives it back, whatever its length. */
  lemma {:induction false} DecodeEncodeBase64Url(bs: seq<byte>)
    ensures DecodeBase64Url(EncodeBase64Url(bs)) == bs
  {
    if |bs| == 0 {
    } else if |bs| == 1 {
      DecodeOne(bs[0]);
      assert bs == [bs[0]];
    } else if |bs| == 2 {
      DecodeTwo(bs[0], bs[1]);
      assert bs == [bs[0], bs[1]];
    } else {
      DecodeThree(bs[0], bs[1], bs[2], EncodeBase64Url(bs[3..]));
      DecodeEncodeBase64Url(bs[3..]);
      assert bs == [bs[0], bs[1], bs[2]] + bs[3..];
    }
  }
}
