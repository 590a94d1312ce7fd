/**
 The reader of one child's stdout: newline-delimited records cut out of a byte stream that arrives in
 chunks, each admitted only if re-encoding the decoded record gives the frame's own bytes.
 */
module ChildOutput {
  import opened Common
  import opened Utf8

  const LINE_FEED: byte := 10
  const NEWLINE_NOT_FOUND := -1

  /** The record schema: a partial decoder from text and the encoder whose output is canonical. */
  datatype Codec<!R> = Codec(decode: seq<Scalar> -> Option<R>, encode: R -> seq<Scalar>)

  datatype Failure = NotCanonical | PublicationFailed | UnterminatedFrame

  datatype Outcome = Succeeded | Failed(failure: Failure)

  /** A reading either stopped at a frame, or consumed whole frames and holds an unfinished one. */
  datatype Progress<R> =
    | Stopped(published: seq<R>, failure: Failure)
    | Reading(published: seq<R>, pending: seq<byte>)

  function IndexFrom(bs: seq<byte>, start: nat): (k: int)
    requires start <= |bs|
    ensures k == NEWLINE_NOT_FOUND || start <= k < |bs|
    ensures k == NEWLINE_NOT_FOUND ==> forall i :: start <= i < |bs| ==> bs[i] != LINE_FEED
    ensures k != NEWLINE_NOT_FOUND ==> bs[k] == LINE_FEED && forall i :: start <= i < k ==> bs[i] != LINE_FEED
    decreases |bs| - start
  {
    if start == |bs| then NEWLINE_NOT_FOUND
    else if bs[start] == LINE_FEED then start
    else IndexFrom(bs, start + 1)
  }

  /** The record of one frame: valid UTF-8, decodable, and canonical. */
  function DecodeFrame<R>(codec: Codec<R>, frame: seq<byte>): Option<R> {
    match Decode(frame)
    case None => None
    case Some(text) =>
      match codec.decode(text)
      case None => None
      case Some(record) => if text == codec.encode(record) then Some(record) else None
  }

  function Canonical<R>(codec: Codec<R>, record: R): seq<byte> {
    Encode(codec.encode(record))
  }

  /**
   Takes one complete frame in. `accepts(earlier, record)` says whether publishing a record succeeds
   after those published earlier.
   */
  function Admit<R>(codec: Codec<R>, accepts: (seq<R>, R) -> bool, published: seq<R>, frame: seq<byte>): Progress<R> {
    match DecodeFrame(codec, frame)
    case None => Stopped(published, NotCanonical)
    case Some(record) =>
      if accepts(published, record) then Reading(published + [record], []) else Stopped(published, PublicationFailed)
  }

  // ----- What reading a whole stream means

  /** Frames are taken off the front of the stream one at a time. */
  function ReadFrames<R>(codec: Codec<R>, accepts: (seq<R>, R) -> bool, published: seq<R>,
                         stream: seq<byte>): Progress<R>
    decreases |stream|
  {
    var newline := IndexFrom(stream, 0);
    if newline == NEWLINE_NOT_FOUND then
      Reading(published, stream)
    else
      var admitted := Admit(codec, accepts, published, stream[..newline]);
      if admitted.Stopped? then admitted
      else ReadFrames(codec, accepts, admitted.published, stream[newline + 1..])
  }

  /** What the end of the stream makes of it. */
  function AtEnd<R>(progress: Progress<R>, controllerKilled: bool): Outcome {
    match progress
    case Stopped(_, failure) => Failed(failure)
    case Reading(_, pending) => if pending != [] && !controllerKilled then Failed(UnterminatedFrame) else Succeeded
  }

  /** The stream that carries exactly these records. */
  function Frames<R>(codec: Codec<R>, records: seq<R>): seq<byte> {
    if records == [] then [] else Canonical(codec, records[0]) + [LINE_FEED] + Frames(codec, records[1..])
  }

  // ----- Reading in pieces

  function Resume<R>(codec: Codec<R>, accepts: (seq<R>, R) -> bool, progress: Progress<R>,
                     more: seq<byte>): Progress<R> {
    match progress
    case Stopped(_, _) => progress
    case Reading(published, pending) => ReadFrames(codec, accepts, published, pending + more)
  }

  lemma {:induction false} IndexOfPrefix(stream: seq<byte>, more: seq<byte>)
    ensures IndexFrom(stream, 0) != NEWLINE_NOT_FOUND ==> IndexFrom(stream + more, 0) == IndexFrom(stream, 0)
  {
    var k := IndexFrom(stream, 0);
    if k != NEWLINE_NOT_FOUND {
      var whole := stream + more;
      assert whole[k] == LINE_FEED;
      assert forall i :: 0 <= i < k ==> whole[i] == stream[i];
    }
  }

  /** Stopping part way and carrying on is the same as never stopping. */
  lemma {:induction false} ResumeIsConcatenation<R>(
      codec: Codec<R>, accepts: (seq<R>, R) -> bool, published: seq<R>, stream: seq<byte>, more: seq<byte>)
    ensures Resume(codec, accepts, ReadFrames(codec, accepts, published, stream), more)
         == ReadFrames(codec, accepts, published, stream + more)
    decreases |stream|
  {
    var k := IndexFrom(stream, 0);
    if k != NEWLINE_NOT_FOUND {
      IndexOfPrefix(stream, more);
      assert (stream + more)[..k] == stream[..k];
      assert (stream + more)[k + 1..] == stream[k + 1..] + more;
      var admitted := Admit(codec, accepts, published, stream[..k]);
      if admitted.Reading? {
        ResumeIsConcatenation(codec, accepts, admitted.published, stream[k + 1..], more);
      }
    }
  }

  // ----- The reader itself

  /** Writes a part after the first `offset` bytes. */
  method SetPart(original: array<byte>, part: seq<byte>, offset: nat)
    requires offset + |part| <= original.Length
    modifies original
    ensures original[..offset + |part|] == old(original[..offset]) + part
  {
    forall i | 0 <= i < |part| {
      original[offset + i] := part[i];
    }
    assert original[..offset] == old(original[..offset]);
    assert original[offset..offset + |part|] == part;
    assert original[..offset + |part|] == original[..offset] + original[offset..offset + |part|];
  }

  lemma PartsFit(parts: seq<seq<byte>>, n: nat)
    requires n < |parts|
    ensures Flatten(parts[..n + 1]) == Flatten(parts[..n]) + parts[n]
    ensures |Flatten(parts[..n + 1])| <= |Flatten(parts)|
  {
    TakeSnoc(parts, n);
    FlattenSnoc(parts[..n], parts[n]);
    SplitAt(parts, n + 1);
    FlattenAppend(parts[..n + 1], parts[n + 1..]);
  }

  method Assemble(parts: seq<seq<byte>>, size: nat) returns (original: array<byte>)
    requires size == |Flatten(parts)|
    ensures fresh(original) && original[..] == Flatten(parts)
  {
    original := new byte[size];
    var offset := 0;
    for n := 0 to |parts|
      invariant offset == |Flatten(parts[..n])| <= size
      invariant original[..offset] == Flatten(parts[..n])
    {
      PartsFit(parts, n);
      SetPart(original, parts[n], offset);
      offset := offset + |parts[n]|;
    }
    assert parts[..|parts|] == parts;
    assert original[..] == original[..offset];
  }

  /** One frame has been completed; its record is the next published unless something refuses it. */
  lemma {:induction false} FrameCompleted<R>(
      codec: Codec<R>, accepts: (seq<R>, R) -> bool, published: seq<R>, frame: seq<byte>, rest: seq<byte>)
    requires LINE_FEED !in frame
    ensures var admitted := Admit(codec, accepts, published, frame);
            ReadFrames(codec, accepts, published, frame + [LINE_FEED] + rest) ==
            if admitted.Stopped? then admitted else ReadFrames(codec, accepts, admitted.published, rest)
  {
    var stream := frame + [LINE_FEED] + rest;
    assert stream[|frame|] == LINE_FEED;
    assert forall i :: 0 <= i < |frame| ==> stream[i] == frame[i] && frame[i] in frame;
    assert IndexFrom(stream, 0) == |frame|;
    assert stream[..|frame|] == frame;
    assert stream[|frame| + 1..] == rest;
  }

  /** Where the frame in progress ends when the chunk's next line feed is at `newline`. */
  lemma {:induction false} CutAtLineFeed(held: seq<byte>, chunk: seq<byte>, start: nat, newline: nat)
    requires LINE_FEED !in held
    requires start <= newline < |chunk| && newline == IndexFrom(chunk, start)
    ensures LINE_FEED !in held + chunk[start..newline]
    ensures held + chunk[start..] == (held + chunk[start..newline]) + [LINE_FEED] + chunk[newline + 1..]
  {
    assert chunk[start..] == chunk[start..newline] + [chunk[newline]] + chunk[newline + 1..];
  }

  lemma {:induction false} NoFrameLeft<R>(
      codec: Codec<R>, accepts: (seq<R>, R) -> bool, published: seq<R>, stream: seq<byte>)
    requires LINE_FEED !in stream
    ensures ReadFrames(codec, accepts, published, stream) == Reading(published, stream)
  {
    assert forall i :: 0 <= i < |stream| ==> stream[i] in stream;
  }

  /** The parts of a frame in progress, with their size. */
  ghost predicate Held(pending: seq<seq<byte>>, size: nat) {
    size == |Flatten(pending)| && LINE_FEED !in Flatten(pending)
  }

  /** What reading a stream gives after the records published so far. */
  type Reader<!R> = (seq<R>, seq<byte>) -> Progress<R>

  function Continue<R>(read: Reader<R>, admitted: Progress<R>, rest: seq<byte>): Progress<R> {
    if admitted.Stopped? then admitted else read(admitted.published, rest)
  }

  /** A reader takes frames off the front and leaves what has no line feed. */
  ghost predicate TakesFrames<R(!new)>(codec: Codec<R>, accepts: (seq<R>, R) -> bool, read: Reader<R>) {
    && (forall published, frame, rest :: LINE_FEED !in frame ==>
          read(published, frame + [LINE_FEED] + rest) == Continue(read, Admit(codec, accepts, published, frame), rest))
    && (forall published, stream :: LINE_FEED !in stream ==> read(published, stream) == Reading(published, stream))
  }

  function FramesReader<R>(codec: Codec<R>, accepts: (seq<R>, R) -> bool): Reader<R> {
    (published: seq<R>, stream: seq<byte>) => ReadFrames(codec, accepts, published, stream)
  }

  lemma ReadFramesTakesFrames<R(!new)>(codec: Codec<R>, accepts: (seq<R>, R) -> bool)
    ensures TakesFrames(codec, accepts, FramesReader(codec, accepts))
  {
    var read := FramesReader(codec, accepts);
    forall published, frame, rest | LINE_FEED !in frame
      ensures read(published, frame + [LINE_FEED] + rest) ==
              Continue(read, Admit(codec, accepts, published, frame), rest)
    {
      FrameCompleted(codec, accepts, published, frame, rest);
    }
    forall published, stream | LINE_FEED !in stream ensures read(published, stream) == Reading(published, stream) {
      NoFrameLeft(codec, accepts, published, stream);
    }
  }

  /** The pending parts and the rest of the chunk. */
  ghost function Unread(pending: seq<seq<byte>>, chunk: seq<byte>, start: nat): seq<byte>
    requires start <= |chunk|
  {
    Flatten(pending) + chunk[start..]
  }

  /** Assembles the pending parts and the chunk up to its next line feed into one frame and admits it. */
  method CompleteFrame<R(!new)>(codec: Codec<R>, accepts: (seq<R>, R) -> bool, ghost read: Reader<R>,
                                pendingIn: seq<seq<byte>>, pendingSizeIn: nat, published: seq<R>,
                                chunk: seq<byte>, start: nat, newline: nat) returns (admitted: Progress<R>)
    requires TakesFrames(codec, accepts, read) && Held(pendingIn, pendingSizeIn)
    requires start <= newline < |chunk| && newline == IndexFrom(chunk, start)
    ensures admitted == Admit(codec, accepts, published, Flatten(pendingIn) + chunk[start..newline])
    ensures read(published, Unread(pendingIn, chunk, start)) ==
            if admitted.Stopped? then admitted else read(admitted.published, Unread([], chunk, newline + 1))
  {
    var part := chunk[start..newline];
    FlattenSnoc(pendingIn, part);
    var buffer := Assemble(pendingIn + [part], pendingSizeIn + |part|);
    var original := buffer[..];
    CutAtLineFeed(Flatten(pendingIn), chunk, start, newline);
    admitted := Admit(codec, accepts, published, original);
    AppendEmpty(chunk[newline + 1..]);
  }

  /** What follows the last line feed joins the pending parts. */
  method KeepRemainder<R(!new)>(codec: Codec<R>, accepts: (seq<R>, R) -> bool, ghost read: Reader<R>,
                                ghost published: seq<R>, pendingIn: seq<seq<byte>>, sizeIn: nat,
                                chunk: seq<byte>, start: nat) returns (pending: seq<seq<byte>>, size: nat)
    requires TakesFrames(codec, accepts, read) && Held(pendingIn, sizeIn)
    requires start <= |chunk| && IndexFrom(chunk, start) == NEWLINE_NOT_FOUND
    ensures Held(pending, size)
    ensures read(published, Unread(pendingIn, chunk, start)) == Reading(published, Flatten(pending))
  {
    var remaining := chunk[start..];
    assert LINE_FEED !in Flatten(pendingIn) + remaining;
    FlattenSnoc(pendingIn, remaining);
    AppendEmpty(Flatten(pendingIn));
    pending := if |remaining| > 0 then pendingIn + [remaining] else pendingIn;
    size := sizeIn + |remaining|;
  }

  /**
   The chunk loop. Whole frames inside the chunk are published as they complete; what follows the last
   line feed joins the pending parts. `whole` is what all of it yields.
   */
  method ReadLines<R(!new)>(codec: Codec<R>, accepts: (seq<R>, R) -> bool,
                            ghost read: Reader<R>, ghost whole: Progress<R>,
                            pendingIn: seq<seq<byte>>, pendingSizeIn: nat, publishedIn: seq<R>, chunk: seq<byte>)
    returns (pending: seq<seq<byte>>, pendingSize: nat, published: seq<R>, failure: Option<Failure>)
    requires TakesFrames(codec, accepts, read) && Held(pendingIn, pendingSizeIn)
    requires whole == read(publishedIn, Unread(pendingIn, chunk, 0))
    ensures failure.None? ==> Held(pending, pendingSize) && whole == Reading(published, Flatten(pending))
    ensures failure.Some? ==> whole == Stopped(published, failure.value)
  {
    pending, pendingSize, published, failure := pendingIn, pendingSizeIn, publishedIn, None;
    var start := 0;
    var newline := IndexFrom(chunk, 0);
    while newline != NEWLINE_NOT_FOUND
      invariant 0 <= start <= |chunk| && newline == IndexFrom(chunk, start) && Held(pending, pendingSize)
      invariant whole == read(published, Unread(pending, chunk, start))
      decreases |chunk| - start
    {
      var admitted := CompleteFrame(codec, accepts, read, pending, pendingSize, published, chunk, start, newline);
      pending, pendingSize, published := [], 0, admitted.published;
      if admitted.Stopped? {
        failure := Some(admitted.failure);
        return;
      }
      start := newline + 1;
      newline := IndexFrom(chunk, start);
    }
    pending, pendingSize := KeepRemainder(codec, accepts, read, published, pending, pendingSize, chunk, start);
  }

  /** One chunk: exactly the frames of the pending bytes followed by the chunk. */
  method ReadChunk<R(!new)>(codec: Codec<R>, accepts: (seq<R>, R) -> bool,
                            pendingIn: seq<seq<byte>>, pendingSizeIn: nat, publishedIn: seq<R>, chunk: seq<byte>)
    returns (pending: seq<seq<byte>>, pendingSize: nat, published: seq<R>, failure: Option<Failure>)
    requires Held(pendingIn, pendingSizeIn)
    ensures failure.None? ==>
              && Held(pending, pendingSize)
              && ReadFrames(codec, accepts, publishedIn, Flatten(pendingIn) + chunk) ==
                 Reading(published, Flatten(pending))
    ensures failure.Some? ==>
              ReadFrames(codec, accepts, publishedIn, Flatten(pendingIn) + chunk) == Stopped(published, failure.value)
  {
    ReadFramesTakesFrames(codec, accepts);
    ghost var read := FramesReader(codec, accepts);
    assert chunk[0..] == chunk;
    assert read(publishedIn, Unread(pendingIn, chunk, 0)) ==
           ReadFrames(codec, accepts, publishedIn, Flatten(pendingIn) + chunk);
    pending, pendingSize, published, failure :=
      ReadLines(codec, accepts, read, read(publishedIn, Unread(pendingIn, chunk, 0)), pendingIn, pendingSizeIn,
                publishedIn, chunk);
  }

  /** The exit of the child as its handle reports it. */
  datatype ChildExit =
    | Exited(code: int)
    | PlatformError(tag: string, moduleName: string, methodName: string, causeIsError: bool, message: string)

  predicate IsSigkill(exit: ChildExit) {
    && exit.PlatformError?
    && exit.tag == "Unknown"
    && exit.moduleName == "ChildProcess"
    && exit.methodName == "exitCode"
    && exit.causeIsError
    && exit.message == "Process interrupted due to receipt of signal: 'SIGKILL'"
  }

  class HermeticChildOutput<!R(!new)> {
    const codec: Codec<R>
    var killRequested: bool

    constructor (codec: Codec<R>)
      ensures this.codec == codec && !killRequested
    {
      this.codec := codec;
      killRequested := false;
    }

    method Kill()
      modifies this
      ensures killRequested
    {
      killRequested := true;
    }

    /** The outcome and the published records depend on the bytes alone, not on how they were chunked. */
    method Read(accepts: (seq<R>, R) -> bool, chunks: seq<seq<byte>>, exit: ChildExit)
      returns (published: seq<R>, outcome: Outcome)
      ensures var progress := ReadFrames(codec, accepts, [], Flatten(chunks));
              published == progress.published && outcome == AtEnd(progress, killRequested && IsSigkill(exit))
    {
      var pending: seq<seq<byte>>, pendingSize := [], 0;
      published := [];
      for n := 0 to |chunks|
        invariant Held(pending, pendingSize)
        invariant ReadFrames(codec, accepts, [], Flatten(chunks[..n])) == Reading(published, Flatten(pending))
      {
        assert chunks[..n + 1] == chunks[..n] + [chunks[n]];
        FlattenSnoc(chunks[..n], chunks[n]);
        ResumeIsConcatenation(codec, accepts, [], Flatten(chunks[..n]), chunks[n]);
        var failure;
        pending, pendingSize, published, failure := ReadChunk(codec, accepts, pending, pendingSize, published,
          chunks[n]);
        if failure.Some? {
          SplitAt(chunks, n + 1);
          FlattenAppend(chunks[..n + 1], chunks[n + 1..]);
          ResumeIsConcatenation(codec, accepts, [], Flatten(chunks[..n + 1]), Flatten(chunks[n + 1..]));
          outcome := Failed(failure.value);
          return;
        }
      }
      assert chunks[..|chunks|] == chunks;
      if pendingSize > 0 && !(killRequested && IsSigkill(exit)) {
        outcome := Failed(UnterminatedFrame);
      } else {
        outcome := Succeeded;
      }
    }
  }

  // ----- What a reading proves about the stream

  /** Every byte consumed was the canonical encoding of a published record or the line feed after it. */
  lemma {:induction false} ConsumedBytesAreCanonical<R>(
      codec: Codec<R>, accepts: (seq<R>, R) -> bool, published: seq<R>, stream: seq<byte>) returns (records: seq<R>)
    ensures var progress := ReadFrames(codec, accepts, published, stream);
            && progress.published == published + records
            && (progress.Reading? ==>
                  LINE_FEED !in progress.pending && stream == Frames(codec, records) + progress.pending)
            && (progress.Stopped? ==> Frames(codec, records) <= stream)
    decreases |stream|
  {
    var k := IndexFrom(stream, 0);
    records := [];
    if k == NEWLINE_NOT_FOUND {
      AppendEmpty(published);
      AppendEmpty(stream);
    } else {
      var frame, rest := stream[..k], stream[k + 1..];
      var admitted := Admit(codec, accepts, published, frame);
      if admitted.Stopped? {
        AppendEmpty(published);
      } else {
        EncodeDecode(frame);
        var record := admitted.published[|published|];
        var later := ConsumedBytesAreCanonical(codec, accepts, admitted.published, rest);
        records := [record] + later;
        AppendAssociative(published, [record], later);
        SplitAtLineFeed(stream, k);
        DropAppended([record], later);
        PrefixAfter(Canonical(codec, record) + [LINE_FEED], Frames(codec, later), rest);
      }
    }
  }

  lemma SplitAtLineFeed(stream: seq<byte>, k: nat)
    requires k < |stream| && stream[k] == LINE_FEED
    ensures stream == stream[..k] + [LINE_FEED] + stream[k + 1..]
  {
  }

  lemma PrefixAfter(front: seq<byte>, left: seq<byte>, right: seq<byte>)
    ensures left <= right ==> front + left <= front + right
    ensures forall tail: seq<byte> :: right == left + tail ==> front + right == front + left + tail
  {
    if left <= right {
      assert right == left + right[|left|..];
      assert front + right == (front + left) + right[|left|..];
    }
    forall tail: seq<byte> | right == left + tail
      ensures front + right == front + left + tail
    {
    }
  }

  /**
   A successful read without a controller kill means the stream is nothing but the canonical encodings
   of the published records, each followed by a line feed; a kill adds at most one unfinished frame.
   */
  lemma {:induction false} SuccessMeansCanonicalStream<R>(codec: Codec<R>, accepts: (seq<R>, R) -> bool,
      stream: seq<byte>, killed: bool)
    requires AtEnd(ReadFrames(codec, accepts, [], stream), killed) == Succeeded
    ensures var progress := ReadFrames(codec, accepts, [], stream);
            && progress.Reading?
            && stream == Frames(codec, progress.published) + progress.pending
            && LINE_FEED !in progress.pending
            && (!killed ==> stream == Frames(codec, progress.published))
  {
    var records := ConsumedBytesAreCanonical(codec, accepts, [], stream);
    assert [] + records == records;
  }

  /** A record survives its own encoding and fits on one line. */
  ghost predicate Transmissible<R>(codec: Codec<R>, record: R) {
    codec.decode(codec.encode(record)) == Some(record) && LINE_FEED !in Canonical(codec, record)
  }

  /** Conversely, the frames of any acceptable records are read back as exactly those records. */
  lemma {:induction false} CanonicalStreamSucceeds<R>(
      codec: Codec<R>, accepts: (seq<R>, R) -> bool, published: seq<R>, records: seq<R>)
    requires forall i :: 0 <= i < |records| ==> Transmissible(codec, records[i])
    requires forall i :: 0 <= i < |records| ==> accepts(published + records[..i], records[i])
    ensures ReadFrames(codec, accepts, published, Frames(codec, records)) == Reading(published + records, [])
    decreases |records|
  {
    if records == [] {
      AppendEmpty(published);
    } else {
      var first, rest := records[0], records[1..];
      assert Transmissible(codec, first);
      AppendEmpty(published);
      assert accepts(published + records[..0], first);
      AdmitCanonical(codec, accepts, published, first);
      FrameCompleted(codec, accepts, published, Canonical(codec, first), Frames(codec, rest));
      forall i | 0 <= i < |rest| ensures accepts((published + [first]) + rest[..i], rest[i]) {
        AppendAssociative(published, [first], rest[..i]);
        HeadTail(records[..i + 1]);
        assert records[..i + 1][1..] == rest[..i];
      }
      CanonicalStreamSucceeds(codec, accepts, published + [first], rest);
      AppendAssociative(published, [first], rest);
      HeadTail(records);
    }
  }

  lemma AdmitCanonical<R>(codec: Codec<R>, accepts: (seq<R>, R) -> bool, published: seq<R>, record: R)
    requires Transmissible(codec, record) && accepts(published, record)
    ensures Admit(codec, accepts, published, Canonical(codec, record)) == Reading(published + [record], [])
  {
    DecodeEncode(codec.encode(record));
  }
}
