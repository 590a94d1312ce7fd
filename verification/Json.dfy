/**
 `JSON.stringify` on objects whose two members are strings (section 7 of RFC 8259): control characters,
 quotes, backslashes and lone surrogates are escaped, everything else stands for itself.
 */
module Json {
  import opened Common
  import opened JsText

  const QUOTE: Unit := 34
  const BACKSLASH: Unit := 92

  function HexDigit(d: int): Unit
    requires 0 <= d < 16
  {
    if d < 10 then 48 + d else 87 + d
  }

  function HexValue(u: int): Option<int> {
    if 48 <= u < 58 then Some(u - 48) else if 97 <= u < 103 then Some(u - 87) else None
  }

  function UnicodeEscape(u: Unit): JsString {
    [BACKSLASH, 117, HexDigit(u / 4096), HexDigit(u / 256 % 16), HexDigit(u / 16 % 16), HexDigit(u % 16)]
  }

  /** The letter after the backslash of a two-character escape. */
  function ShortEscape(u: int): Option<Unit> {
    if u == 8 then Some(98)
    else if u == 9 then Some(116)
    else if u == 10 then Some(110)
    else if u == 12 then Some(102)
    else if u == 13 then Some(114)
    else if u == 34 then Some(34)
    else if u == 92 then Some(92)
    else None
  }

  function ShortUnescape(u: int): Option<Unit> {
    if u == 98 then Some(8)
    else if u == 116 then Some(9)
    else if u == 110 then Some(10)
    else if u == 102 then Some(12)
    else if u == 114 then Some(13)
    else if u == 34 then Some(34)
    else if u == 92 then Some(92)
    else None
  }

  /** How one code unit that is not part of a pair is written. */
  function EscapeUnit(u: Unit): JsString {
    if ShortEscape(u).Some? then [BACKSLASH, ShortEscape(u).value]
    else if u < 32 || IsHigh(u) || IsLow(u) then UnicodeEscape(u)
    else [u]
  }

  function Escape(s: JsString): JsString {
    if s == [] then []
    else if StartsWithPair(s) then s[..2] + Escape(s[2..])
    else EscapeUnit(s[0]) + Escape(s[1..])
  }

  function Quote(s: JsString): JsString {
    [QUOTE] + Escape(s) + [QUOTE]
  }

  /** The text around the two member values: `{"first":`, `,"second":` and `}`. */
  datatype Frame = Frame(opening: JsString, separator: JsString, closing: JsString)

  function FrameFor(first: string, second: string): Frame
    requires IsAscii(first) && IsAscii(second)
  {
    Frame(Ascii("{\"" + first + "\":"), Ascii(",\"" + second + "\":"), Ascii("}"))
  }

  /** The object's text, the two members in the order given. */
  function Stringify(frame: Frame, first: JsString, second: JsString): JsString {
    frame.opening + (Quote(first) + (frame.separator + (Quote(second) + frame.closing)))
  }

  // ----- Reading back

  function ReadUnicode(s: JsString): (r: Option<Unit>)
    requires |s| >= 4
  {
    var a, b, c, d := HexValue(s[0]), HexValue(s[1]), HexValue(s[2]), HexValue(s[3]);
    if a.Some? && b.Some? && c.Some? && d.Some? then
      Some(((a.value * 16 + b.value) * 16 + c.value) * 16 + d.value)
    else None
  }

  function Prepend(u: Unit, r: Option<(JsString, JsString)>): Option<(JsString, JsString)> {
    if r.Some? then Some(([u] + r.value.0, r.value.1)) else None
  }

  /** The text up to the closing quote, unescaped, and what follows that quote. */
  function Unescape(s: JsString): Option<(JsString, JsString)>
    decreases |s|
  {
    if s == [] then None
    else if s[0] == QUOTE then Some(([], s[1..]))
    else if s[0] != BACKSLASH then Prepend(s[0], Unescape(s[1..]))
    else if |s| < 2 then None
    else if ShortUnescape(s[1]).Some? then Prepend(ShortUnescape(s[1]).value, Unescape(s[2..]))
    else if s[1] == 117 && |s| >= 6 && ReadUnicode(s[2..6]).Some? then
      Prepend(ReadUnicode(s[2..6]).value, Unescape(s[6..]))
    else None
  }

  function Unquote(s: JsString): Option<(JsString, JsString)> {
    if s == [] || s[0] != QUOTE then None else Unescape(s[1..])
  }

  function StripPrefix(prefix: JsString, s: JsString): Option<JsString> {
    if prefix <= s then Some(s[|prefix|..]) else None
  }

  /** What `Unquote` reads after `prefix`. */
  function ReadMember(prefix: JsString, s: JsString): Option<(JsString, JsString)> {
    match StripPrefix(prefix, s)
    case None => None
    case Some(rest) => Unquote(rest)
  }

  /** The two member values of a text `Stringify` can produce within this frame. */
  function Parse(frame: Frame, s: JsString): Option<(JsString, JsString)> {
    match ReadMember(frame.opening, s)
    case None => None
    case Some((first, rest)) =>
      match ReadMember(frame.separator, rest)
      case None => None
      case Some((second, end)) => if end == frame.closing then Some((first, second)) else None
  }

  // ----- Nothing is lost

  lemma HexReads(d: int)
    requires 0 <= d < 16
    ensures HexValue(HexDigit(d)) == Some(d)
  {
  }

  lemma FourDigits(u: int)
    requires 0 <= u < 0x1_0000
    ensures ((u / 4096 * 16 + u / 256 % 16) * 16 + u / 16 % 16) * 16 + u % 16 == u
  {
  }

  lemma ReadUnicodeEscape(u: Unit)
    ensures ReadUnicode(UnicodeEscape(u)[2..6]) == Some(u)
  {
    var digits := UnicodeEscape(u)[2..6];
    assert digits == [HexDigit(u / 4096), HexDigit(u / 256 % 16), HexDigit(u / 16 % 16), HexDigit(u % 16)];
    HexReads(u / 4096);
    HexReads(u / 256 % 16);
    HexReads(u / 16 % 16);
    HexReads(u % 16);
    FourDigits(u);
  }

  lemma {:induction false} UnescapeShort(u: Unit, rest: JsString)
    requires ShortEscape(u).Some?
    ensures Unescape([BACKSLASH, ShortEscape(u).value] + rest) == Prepend(u, Unescape(rest))
  {
    var s := [BACKSLASH, ShortEscape(u).value] + rest;
    assert s[0] == BACKSLASH && s[1] == ShortEscape(u).value && s[2..] == rest;
  }

  lemma SixAndRest<T>(code: seq<T>, rest: seq<T>)
    requires |code| == 6
    ensures (code + rest)[0] == code[0] && (code + rest)[1] == code[1]
    ensures (code + rest)[2..6] == code[2..6] && (code + rest)[6..] == rest
  {
  }

  lemma {:induction false} UnescapeCode(code: JsString, u: Unit, rest: JsString)
    requires |code| == 6 && code[0] == BACKSLASH && code[1] == 117 && ReadUnicode(code[2..6]) == Some(u)
    ensures Unescape(code + rest) == Prepend(u, Unescape(rest))
  {
    SixAndRest(code, rest);
  }

  lemma {:induction false} UnescapeUnicode(u: Unit, rest: JsString)
    ensures Unescape(UnicodeEscape(u) + rest) == Prepend(u, Unescape(rest))
  {
    ReadUnicodeEscape(u);
    UnescapeCode(UnicodeEscape(u), u, rest);
  }

  lemma {:induction false} UnescapeUnit(u: Unit, rest: JsString)
    ensures Unescape(EscapeUnit(u) + rest) == Prepend(u, Unescape(rest))
  {
    if ShortEscape(u).Some? {
      UnescapeShort(u, rest);
    } else if u < 32 || IsHigh(u) || IsLow(u) {
      UnescapeUnicode(u, rest);
    } else {
      assert ([u] + rest)[1..] == rest;
    }
  }

  lemma {:induction false} UnescapePair(high: Unit, low: Unit, rest: JsString)
    requires IsHigh(high) && IsLow(low)
    ensures Unescape([high, low] + rest) == Prepend(high, Prepend(low, Unescape(rest)))
  {
    var s := [high, low] + rest;
    assert s[1..] == [low] + rest;
    assert s[1..][1..] == rest;
  }

  lemma Regroup<T>(a: seq<T>, b: seq<T>, c: seq<T>, d: seq<T>)
    ensures (a + b) + c + d == a + (b + c + d)
  {
  }

  lemma {:induction false} UnescapePairFirst(s: JsString, rest: JsString)
    requires StartsWithPair(s) && Unescape(Escape(s[2..]) + [QUOTE] + rest) == Some((s[2..], rest))
    ensures Unescape(Escape(s) + [QUOTE] + rest) == Some((s, rest))
  {
    assert s[..2] == [s[0], s[1]];
    Regroup([s[0], s[1]], Escape(s[2..]), [QUOTE], rest);
    UnescapePair(s[0], s[1], Escape(s[2..]) + [QUOTE] + rest);
    assert s == [s[0]] + ([s[1]] + s[2..]);
  }

  lemma {:induction false} UnescapeUnitFirst(s: JsString, rest: JsString)
    requires s != [] && !StartsWithPair(s) && Unescape(Escape(s[1..]) + [QUOTE] + rest) == Some((s[1..], rest))
    ensures Unescape(Escape(s) + [QUOTE] + rest) == Some((s, rest))
  {
    Regroup(EscapeUnit(s[0]), Escape(s[1..]), [QUOTE], rest);
    UnescapeUnit(s[0], Escape(s[1..]) + [QUOTE] + rest);
    HeadTail(s);
  }

  lemma {:induction false} UnescapeEscape(s: JsString, rest: JsString)
    ensures Unescape(Escape(s) + [QUOTE] + rest) == Some((s, rest))
    decreases |s|
  {
    if s == [] {
      assert Escape(s) + [QUOTE] + rest == [QUOTE] + rest;
    } else if StartsWithPair(s) {
      UnescapeEscape(s[2..], rest);
      UnescapePairFirst(s, rest);
    } else {
      UnescapeEscape(s[1..], rest);
      UnescapeUnitFirst(s, rest);
    }
  }

  lemma UnquoteQuote(s: JsString, rest: JsString)
    ensures Unquote(Quote(s) + rest) == Some((s, rest))
  {
    assert (Quote(s) + rest)[1..] == Escape(s) + [QUOTE] + rest;
    UnescapeEscape(s, rest);
  }

  lemma ReadQuoted(prefix: JsString, value: JsString, rest: JsString)
    ensures ReadMember(prefix, prefix + (Quote(value) + rest)) == Some((value, rest))
  {
    var s := prefix + (Quote(value) + rest);
    assert s[|prefix|..] == Quote(value) + rest;
    UnquoteQuote(value, rest);
  }

  /** Parsing a stringified object gives both member values back, lone surrogates included. */
  lemma ParseStringify(frame: Frame, first: JsString, second: JsString)
    ensures Parse(frame, Stringify(frame, first, second)) == Some((first, second))
  {
    ReadQuoted(frame.opening, first, frame.separator + (Quote(second) + frame.closing));
    ReadQuoted(frame.separator, second, frame.closing);
  }

  // ----- The text is well formed, so encoding it as UTF-8 loses nothing either

  lemma {:induction false} EscapeIsWellFormed(s: JsString)
    ensures WellFormed(Escape(s))
    decreases |s|
  {
    if s == [] {
    } else if StartsWithPair(s) {
      EscapeIsWellFormed(s[2..]);
      assert Escape(s)[2..] == Escape(s[2..]);
    } else {
      EscapeIsWellFormed(s[1..]);
      EscapedUnitIsWellFormed(s[0]);
      WellFormedAppend(EscapeUnit(s[0]), Escape(s[1..]));
    }
  }

  lemma EscapedUnitIsWellFormed(u: Unit)
    ensures WellFormed(EscapeUnit(u))
  {
    if ShortEscape(u).Some? || u < 32 || IsHigh(u) || IsLow(u) {
      PlainIsWellFormed(EscapeUnit(u));
    }
  }

  lemma QuoteIsWellFormed(s: JsString)
    ensures WellFormed(Quote(s))
  {
    EscapeIsWellFormed(s);
    PlainIsWellFormed([QUOTE]);
    WellFormedAppend([QUOTE], Escape(s));
    WellFormedAppend([QUOTE] + Escape(s), [QUOTE]);
  }

  ghost predicate PlainFrame(frame: Frame) {
    WellFormed(frame.opening) && WellFormed(frame.separator) && WellFormed(frame.closing)
  }

  lemma FramesArePlain(first: string, second: string)
    requires IsAscii(first) && IsAscii(second)
    ensures PlainFrame(FrameFor(first, second))
  {
    var frame := FrameFor(first, second);
    PlainIsWellFormed(frame.opening);
    PlainIsWellFormed(frame.separator);
    PlainIsWellFormed(frame.closing);
  }

  lemma StringifyIsWellFormed(frame: Frame, first: JsString, second: JsString)
    requires PlainFrame(frame)
    ensures WellFormed(Stringify(frame, first, second))
  {
    QuoteIsWellFormed(first);
    QuoteIsWellFormed(second);
    WellFormedAppend(Quote(second), frame.closing);
    WellFormedAppend(frame.separator, Quote(second) + frame.closing);
    WellFormedAppend(Quote(first), frame.separator + (Quote(second) + frame.closing));
    WellFormedAppend(frame.opening, Quote(first) + (frame.separator + (Quote(second) + frame.closing)));
  }
}
