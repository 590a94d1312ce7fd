/** The wire form of kernel watch events: a 16-byte little-endian header, then a name padded with zero bytes. */
module InotifyCodec {
  import opened Common
  import opened Utf8

  /** A path or file name in the file system's own encoding. */
  type Name = seq<byte>

  datatype WatchEvent = WatchEvent(wd: int, mask: nat, cookie: nat, name: Name)

  /** The events of one read, and whether the data ended with a whole event. */
  datatype Parsed = Parsed(events: seq<WatchEvent>, whole: bool)

  const HEADER_SIZE: nat := 16

  function ReadU32(b0: int, b1: int, b2: int, b3: int): int {
    b0 + 256 * (b1 + 256 * (b2 + 256 * b3))
  }

  function Signed(v: int): int {
    if v < 0x8000_0000 then v else v - 0x1_0000_0000
  }

  function U32At(data: seq<byte>, offset: nat): (v: nat)
    requires offset + 4 <= |data|
    ensures v < 0x1_0000_0000
  {
    ReadU32(data[offset], data[offset + 1], data[offset + 2], data[offset + 3])
  }

  /** The bytes before the first zero. */
  function UpToZero(bs: seq<byte>): Name {
    if bs == [] || bs[0] == 0 then [] else [bs[0]] + UpToZero(bs[1..])
  }

  function NameLength(data: seq<byte>): nat
    requires |data| >= HEADER_SIZE
  {
    U32At(data, 12)
  }

  function EventOf(data: seq<byte>): WatchEvent
    requires |data| >= HEADER_SIZE && HEADER_SIZE + NameLength(data) <= |data|
  {
    WatchEvent(Signed(U32At(data, 0)), U32At(data, 4), U32At(data, 8),
               UpToZero(data[HEADER_SIZE..HEADER_SIZE + NameLength(data)]))
  }

  /** The offset loop of one read. It stops at the first event whose header or name is cut short. */
  function Parse(data: seq<byte>): Parsed
    decreases |data|
  {
    if data == [] then Parsed([], true)
    else if |data| < HEADER_SIZE then Parsed([], false)
    else if HEADER_SIZE + NameLength(data) > |data| then Parsed([], false)
    else
      var rest := Parse(data[HEADER_SIZE + NameLength(data)..]);
      Parsed([EventOf(data)] + rest.events, rest.whole)
  }

  // ----- Encoding

  function WriteU32(v: nat): seq<byte>
    requires v < 0x1_0000_0000
  {
    [v % 256, v / 256 % 256, v / 65536 % 256, v / 16777216]
  }

  function Unsigned(wd: int): (v: nat)
    requires -0x8000_0000 <= wd < 0x8000_0000
    ensures v < 0x1_0000_0000 && Signed(v) == wd
  {
    if wd < 0 then wd + 0x1_0000_0000 else wd
  }

  function Zeros(n: nat): (bs: seq<byte>)
    ensures |bs| == n && forall i :: 0 <= i < n ==> bs[i] == 0
  {
    seq(n, _ => 0)
  }

  /** An event the kernel can send, with the number of zero bytes that pad its name. */
  ghost predicate Encodable(e: WatchEvent, padding: nat) {
    && -0x8000_0000 <= e.wd < 0x8000_0000 && e.mask < 0x1_0000_0000 && e.cookie < 0x1_0000_0000
    && |e.name| + padding < 0x1_0000_0000
    && forall i :: 0 <= i < |e.name| ==> e.name[i] != 0
  }

  function Header(e: WatchEvent, length: nat): (h: seq<byte>)
    requires -0x8000_0000 <= e.wd < 0x8000_0000 && e.mask < 0x1_0000_0000 && e.cookie < 0x1_0000_0000
    requires length < 0x1_0000_0000
    ensures |h| == HEADER_SIZE
  {
    WriteU32(Unsigned(e.wd)) + WriteU32(e.mask) + WriteU32(e.cookie) + WriteU32(length)
  }

  function EncodeEvent(e: WatchEvent, padding: nat): (bs: seq<byte>)
    requires Encodable(e, padding)
    ensures |bs| == HEADER_SIZE + |e.name| + padding
  {
    Header(e, |e.name| + padding) + (e.name + Zeros(padding))
  }

  ghost predicate AllEncodable(events: seq<WatchEvent>, paddings: seq<nat>) {
    |events| == |paddings| && forall i :: 0 <= i < |events| ==> Encodable(events[i], paddings[i])
  }

  ghost function EncodeEvents(events: seq<WatchEvent>, paddings: seq<nat>): seq<byte>
    requires AllEncodable(events, paddings)
  {
    if events == [] then [] else EncodeEvent(events[0], paddings[0]) + EncodeEvents(events[1..], paddings[1..])
  }

  // ----- Round trip

  lemma ReadWritten(v: nat, data: seq<byte>, offset: nat)
    requires v < 0x1_0000_0000 && offset + 4 <= |data|
    requires data[offset..offset + 4] == WriteU32(v)
    ensures U32At(data, offset) == v
  {
    var bs := data[offset..offset + 4];
    assert bs[0] == data[offset] && bs[1] == data[offset + 1] && bs[2] == data[offset + 2] && bs[3] == data[offset + 3];
    assert data[offset] == v % 256 && data[offset + 1] == v / 256 % 256;
    assert data[offset + 2] == v / 65536 % 256 && data[offset + 3] == v / 16777216;
    assert v / 65536 == v / 256 / 256 && v / 16777216 == v / 65536 / 256;
  }

  lemma HeaderFields(e: WatchEvent, length: nat, rest: seq<byte>)
    requires -0x8000_0000 <= e.wd < 0x8000_0000 && e.mask < 0x1_0000_0000 && e.cookie < 0x1_0000_0000
    requires length < 0x1_0000_0000
    ensures var data := Header(e, length) + rest;
            && U32At(data, 0) == Unsigned(e.wd) && U32At(data, 4) == e.mask && U32At(data, 8) == e.cookie
            && U32At(data, 12) == length
  {
    var data := Header(e, length) + rest;
    assert data[0..4] == WriteU32(Unsigned(e.wd)) && data[4..8] == WriteU32(e.mask);
    assert data[8..12] == WriteU32(e.cookie) && data[12..16] == WriteU32(length);
    ReadWritten(Unsigned(e.wd), data, 0);
    ReadWritten(e.mask, data, 4);
    ReadWritten(e.cookie, data, 8);
    ReadWritten(length, data, 12);
  }

  lemma {:induction false} UpToPadding(name: Name, padding: nat)
    requires forall i :: 0 <= i < |name| ==> name[i] != 0
    ensures UpToZero(name + Zeros(padding)) == name
  {
    var bs := name + Zeros(padding);
    if name == [] {
      assert padding > 0 ==> bs[0] == 0;
    } else {
      assert bs[1..] == name[1..] + Zeros(padding);
      UpToPadding(name[1..], padding);
      assert name == [name[0]] + name[1..];
    }
  }

  lemma {:induction false} ParseFirst(e: WatchEvent, padding: nat, rest: seq<byte>)
    requires Encodable(e, padding)
    ensures Parse(EncodeEvent(e, padding) + rest) == Parsed([e] + Parse(rest).events, Parse(rest).whole)
  {
    var length, field := |e.name| + padding, e.name + Zeros(padding);
    var data := EncodeEvent(e, padding) + rest;
    assert data == Header(e, length) + (field + rest);
    HeaderFields(e, length, field + rest);
    assert data[HEADER_SIZE..HEADER_SIZE + length] == field;
    assert data[HEADER_SIZE + length..] == rest;
    UpToPadding(e.name, padding);
  }

  /** Parsing inverts encoding, for any events and any padding. */
  lemma {:induction false} ParseEncoded(events: seq<WatchEvent>, paddings: seq<nat>, rest: seq<byte>)
    requires AllEncodable(events, paddings)
    ensures Parse(EncodeEvents(events, paddings) + rest) == Parsed(events + Parse(rest).events, Parse(rest).whole)
  {
    if events == [] {
      AppendEmpty(rest);
      AppendEmpty(Parse(rest).events);
    } else {
      var first, later := EncodeEvent(events[0], paddings[0]), EncodeEvents(events[1..], paddings[1..]);
      AppendAssociative(first, later, rest);
      ParseFirst(events[0], paddings[0], later + rest);
      ParseEncoded(events[1..], paddings[1..], rest);
      AppendAssociative([events[0]], events[1..], Parse(rest).events);
      HeadTail(events);
    }
  }

  lemma CutEvent(e: WatchEvent, padding: nat, n: nat)
    requires Encodable(e, padding) && 0 < n < |EncodeEvent(e, padding)|
    ensures Parse(EncodeEvent(e, padding)[..n]) == Parsed([], false)
  {
    var bs, length := EncodeEvent(e, padding), |e.name| + padding;
    var cut := bs[..n];
    if n >= HEADER_SIZE {
      HeaderFields(e, length, (e.name + Zeros(padding))[..n - HEADER_SIZE]);
      assert cut == Header(e, length) + (e.name + Zeros(padding))[..n - HEADER_SIZE];
    }
  }

  /** A read that ends inside an event gives the events before it and is rejected there. */
  lemma {:induction false} CutReadIsRejected(events: seq<WatchEvent>, paddings: seq<nat>, e: WatchEvent, padding: nat,
                                             n: nat)
    requires AllEncodable(events, paddings) && Encodable(e, padding) && 0 < n < |EncodeEvent(e, padding)|
    ensures Parse(EncodeEvents(events, paddings) + EncodeEvent(e, padding)[..n]) == Parsed(events, false)
  {
    CutEvent(e, padding, n);
    ParseEncoded(events, paddings, EncodeEvent(e, padding)[..n]);
    AppendEmpty(events);
  }

  /** A read of whole events is accepted as exactly those events. */
  lemma {:induction false} WholeReadIsAccepted(events: seq<WatchEvent>, paddings: seq<nat>)
    requires AllEncodable(events, paddings)
    ensures Parse(EncodeEvents(events, paddings)) == Parsed(events, true)
  {
    ParseEncoded(events, paddings, []);
    AppendEmpty(EncodeEvents(events, paddings));
    AppendEmpty(events);
  }
}
