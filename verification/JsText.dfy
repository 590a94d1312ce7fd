/**
 JavaScript strings: sequences of 16-bit code units in which a surrogate may stand alone, and the
 conversion to scalar values that a `TextEncoder` performs before it emits UTF-8.
 */
module JsText {
  import opened Common
  import opened Utf8

  type Unit = x: int | 0 <= x < 0x1_0000
  type JsString = seq<Unit>

  const REPLACEMENT: Scalar := 0xFFFD

  predicate IsHigh(u: Unit) {
    0xD800 <= u < 0xDC00
  }

  predicate IsLow(u: Unit) {
    0xDC00 <= u < 0xE000
  }

  predicate StartsWithPair(s: JsString) {
    |s| >= 2 && IsHigh(s[0]) && IsLow(s[1])
  }

  function PairValue(high: int, low: int): int {
    0x1_0000 + (high - 0xD800) * 0x400 + (low - 0xDC00)
  }

  /** Every surrogate of a well-formed string belongs to a pair. */
  predicate WellFormed(s: JsString) {
    if s == [] then true
    else if StartsWithPair(s) then WellFormed(s[2..])
    else !IsHigh(s[0]) && !IsLow(s[0]) && WellFormed(s[1..])
  }

  /** Pairs become one scalar; a lone surrogate becomes U+FFFD. */
  function ToScalars(s: JsString): seq<Scalar> {
    if s == [] then []
    else if StartsWithPair(s) then [PairValue(s[0], s[1])] + ToScalars(s[2..])
    else [if IsHigh(s[0]) || IsLow(s[0]) then REPLACEMENT else s[0]] + ToScalars(s[1..])
  }

  function FromScalar(c: Scalar): JsString {
    if c < 0x1_0000 then [c] else [0xD800 + (c - 0x1_0000) / 0x400, 0xDC00 + (c - 0x1_0000) % 0x400]
  }

  function FromScalars(cs: seq<Scalar>): JsString {
    if cs == [] then [] else FromScalar(cs[0]) + FromScalars(cs[1..])
  }

  /** No information is lost where no surrogate stands alone. */
  lemma {:induction false} FromToScalars(s: JsString)
    requires WellFormed(s)
    ensures FromScalars(ToScalars(s)) == s
    decreases |s|
  {
    if s == [] {
    } else if StartsWithPair(s) {
      FromToScalars(s[2..]);
      assert FromScalar(PairValue(s[0], s[1])) == s[..2];
      assert s == s[..2] + s[2..];
    } else {
      FromToScalars(s[1..]);
      assert s == [s[0]] + s[1..];
    }
  }

  lemma {:induction false} WellFormedAppend(s: JsString, t: JsString)
    requires WellFormed(s) && WellFormed(t)
    ensures WellFormed(s + t)
    decreases |s|
  {
    if s == [] {
      assert s + t == t;
    } else if StartsWithPair(s) {
      assert (s + t)[2..] == s[2..] + t;
      WellFormedAppend(s[2..], t);
    } else {
      assert (s + t)[1..] == s[1..] + t;
      WellFormedAppend(s[1..], t);
    }
  }

  predicate IsAscii(s: string) {
    forall i :: 0 <= i < |s| ==> s[i] < '\U{80}'
  }

  /** The code units of an ASCII literal. */
  function Ascii(s: string): (units: JsString)
    requires IsAscii(s)
    ensures |units| == |s| && forall i :: 0 <= i < |s| ==> units[i] == s[i] as int < 0x80
  {
    seq(|s|, i requires 0 <= i < |s| => s[i] as int)
  }

  lemma {:induction false} PlainIsWellFormed(s: JsString)
    requires forall i :: 0 <= i < |s| ==> s[i] < 0xD800
    ensures WellFormed(s)
  {
    if s != [] {
      PlainIsWellFormed(s[1..]);
    }
  }

  /** `TextEncoder.encode`. */
  function EncodeText(s: JsString): seq<byte> {
    Encode(ToScalars(s))
  }

  /** The one well-formed string, if any, that encodes to `bs`. */
  function DecodeText(bs: seq<byte>): Option<JsString> {
    match Decode(bs)
    case None => None
    case Some(cs) => Some(FromScalars(cs))
  }

  lemma {:induction false} DecodeEncodeText(s: JsString)
    requires WellFormed(s)
    ensures DecodeText(EncodeText(s)) == Some(s)
  {
    DecodeEncode(ToScalars(s));
    FromToScalars(s);
  }
}
