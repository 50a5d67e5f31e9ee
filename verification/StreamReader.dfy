/**
  The pipe reader of unified_exec.rs: one loop drains stdout and stderr in turn, each through
  its own decoder, pushing every non-empty text to the session buffer and to the delta hook.
  What the operating system returns from each read is an arbitrary script.
 */
module StreamReader {
  import opened Basics
  import opened Utf8
  import opened ChunkDecoder
  import opened RollingBuffer

  /** A read of no bytes is end of file; a script that runs out reads end of file too. */
  datatype ReadResult = Data(bytes: Bytes) | Failed

  datatype Stream = Stdout | Stderr

  datatype Delta = Delta(stream: Stream, chunk: Bytes)

  predicate Ends(read: ReadResult) {
    read.Failed? || read.bytes == []
  }

  /** The chunks a stream yields before it closes. */
  function Received(script: seq<ReadResult>): seq<Bytes> {
    if script == [] || Ends(script[0]) then [] else [script[0].bytes] + Received(script[1..])
  }

  /** These are all the reads before the first that is empty or fails, each of them a chunk. */
  lemma {:induction false} ReceivedIs(script: seq<ReadResult>)
    ensures var n := |Received(script)|;
            && n <= |script|
            && (forall i :: 0 <= i < n ==> script[i] == Data(Received(script)[i]) && Received(script)[i] != [])
            && (n < |script| ==> script[n] == Failed || script[n] == Data([]))
  {
    if script != [] && !Ends(script[0]) {
      ReceivedIs(script[1..]);
    }
  }

  function Project(deltas: seq<Delta>, stream: Stream): seq<Bytes> {
    if deltas == [] then [] else
      var front := Project(deltas[..|deltas| - 1], stream);
      var last := deltas[|deltas| - 1];
      if last.stream == stream then front + [last.chunk] else front
  }

  function Texts(deltas: seq<Delta>): seq<Bytes> {
    seq(|deltas|, i requires 0 <= i < |deltas| => deltas[i].chunk)
  }

  function NonEmpty(text: Bytes): seq<Bytes> {
    if text == [] then [] else [text]
  }

  /** The texts a decoder emits while reading `chunks`: one for each call that yields any. */
  function CallTexts(chunks: seq<Bytes>): seq<Bytes> {
    if chunks == [] then [] else
      var front := chunks[..|chunks| - 1];
      CallTexts(front) + NonEmpty(Render(Feed(FeedAll(front).pending, chunks[|chunks| - 1]).segments))
  }

  /** All deltas of one stream, the flush at end of stream included. */
  function StreamTexts(chunks: seq<Bytes>): seq<Bytes> {
    CallTexts(chunks) + NonEmpty(Render(FinishSegments(FeedAll(chunks).pending)))
  }

  lemma DeltaSnoc(deltas: seq<Delta>, delta: Delta)
    ensures Texts(deltas + [delta]) == Texts(deltas) + [delta.chunk]
    ensures forall s :: Project(deltas + [delta], s)
                     == Project(deltas, s) + if delta.stream == s then [delta.chunk] else []
  {
  }

  lemma PushSnoc(data: Bytes, maxBytes: nat, texts: seq<Bytes>, text: Bytes)
    ensures PushAll(data, maxBytes, texts + [text]) == Pushed(PushAll(data, maxBytes, texts), maxBytes, text)
  {
  }

  lemma CallTextsSnoc(front: seq<Bytes>, last: Bytes)
    ensures CallTexts(front + [last])
         == CallTexts(front) + NonEmpty(Render(Feed(FeedAll(front).pending, last).segments))
  {
  }

  /** Emit one decoded text: nothing for an empty one, else a push and a delta. */
  method Emit(buffer: OutputBuffer, ghost initial: Bytes, stream: Stream, text: Bytes, deltas: seq<Delta>)
    returns (out: seq<Delta>)
    requires buffer.data == PushAll(initial, buffer.maxBytes, Texts(deltas))
    modifies buffer
    ensures buffer.data == PushAll(initial, buffer.maxBytes, Texts(out))
    ensures forall s :: Project(out, s) == Project(deltas, s) + if s == stream then NonEmpty(text) else []
  {
    if text == [] {
      return deltas;
    }
    buffer.Push(text);
    out := deltas + [Delta(stream, text)];
    DeltaSnoc(deltas, Delta(stream, text));
    PushSnoc(initial, buffer.maxBytes, Texts(deltas), text);
  }

  method PushChunk(decoder: Utf8ChunkDecoder, buffer: OutputBuffer, ghost initial: Bytes, stream: Stream,
                   bytes: Bytes, deltas: seq<Delta>, ghost seen: seq<Bytes>)
    returns (out: seq<Delta>)
    requires buffer.data == PushAll(initial, buffer.maxBytes, Texts(deltas))
    requires decoder.pending == FeedAll(seen).pending && Project(deltas, stream) == CallTexts(seen)
    modifies buffer, decoder
    ensures buffer.data == PushAll(initial, buffer.maxBytes, Texts(out))
    ensures decoder.pending == FeedAll(seen + [bytes]).pending
    ensures Project(out, stream) == CallTexts(seen + [bytes])
    ensures forall s :: s != stream ==> Project(out, s) == Project(deltas, s)
  {
    var chunk := decoder.Decode(bytes);
    FeedAllSnoc(seen, bytes);
    CallTextsSnoc(seen, bytes);
    out := Emit(buffer, initial, stream, chunk, deltas);
  }

  method FlushDecoder(decoder: Utf8ChunkDecoder, buffer: OutputBuffer, ghost initial: Bytes, stream: Stream,
                      deltas: seq<Delta>, ghost seen: seq<Bytes>)
    returns (out: seq<Delta>)
    requires buffer.data == PushAll(initial, buffer.maxBytes, Texts(deltas))
    requires decoder.pending == FeedAll(seen).pending && Project(deltas, stream) == CallTexts(seen)
    modifies buffer, decoder
    ensures buffer.data == PushAll(initial, buffer.maxBytes, Texts(out))
    ensures decoder.pending == []
    ensures Project(out, stream) == StreamTexts(seen)
    ensures forall s :: s != stream ==> Project(out, s) == Project(deltas, s)
  {
    var tail := decoder.Finish();
    out := Emit(buffer, initial, stream, tail, deltas);
  }

  /** How far one stream has come: `seen` was decoded, `rest` is still to be read. */
  ghost predicate StreamAt(script: seq<ReadResult>, seen: seq<Bytes>, rest: seq<ReadResult>, open: bool,
                           pending: Bytes, texts: seq<Bytes>)
  {
    && Received(script) == seen + (if open then Received(rest) else [])
    && pending == FeedAll(seen).pending
    && texts == CallTexts(seen)
  }

  /** One read of an open stream. */
  method ReadOnce(decoder: Utf8ChunkDecoder, buffer: OutputBuffer, ghost initial: Bytes, stream: Stream,
                  ghost script: seq<ReadResult>, ghost seen: seq<Bytes>, rest: seq<ReadResult>, deltas: seq<Delta>)
    returns (out: seq<Delta>, ghost seen': seq<Bytes>, rest': seq<ReadResult>, open: bool)
    requires buffer.data == PushAll(initial, buffer.maxBytes, Texts(deltas))
    requires StreamAt(script, seen, rest, true, decoder.pending, Project(deltas, stream))
    modifies buffer, decoder
    ensures buffer.data == PushAll(initial, buffer.maxBytes, Texts(out))
    ensures StreamAt(script, seen', rest', open, decoder.pending, Project(out, stream))
    ensures forall s :: s != stream ==> Project(out, s) == Project(deltas, s)
    ensures |rest'| + (if open then 1 else 0) <= |rest|
    ensures !open ==> rest' == []
  {
    if rest == [] || Ends(rest[0]) {
      return deltas, seen, [], false;
    }
    assert seen + Received(rest) == (seen + [rest[0].bytes]) + Received(rest[1..]);
    out := PushChunk(decoder, buffer, initial, stream, rest[0].bytes, deltas, seen);
    seen', rest', open := seen + [rest[0].bytes], rest[1..], true;
  }

  /** The read loop: stdout and stderr in turn until both are closed. */
  method DrainStreams(outDecoder: Utf8ChunkDecoder, errDecoder: Utf8ChunkDecoder, buffer: OutputBuffer,
                      outScript: seq<ReadResult>, errScript: seq<ReadResult>)
    returns (deltas: seq<Delta>, ghost outSeen: seq<Bytes>, ghost errSeen: seq<Bytes>)
    requires outDecoder != errDecoder
    requires StreamAt(outScript, [], outScript, true, outDecoder.pending, Project([], Stdout))
    requires StreamAt(errScript, [], errScript, true, errDecoder.pending, Project([], Stderr))
    requires buffer.data == PushAll(buffer.data, buffer.maxBytes, Texts([]))
    modifies buffer, outDecoder, errDecoder
    ensures buffer.data == PushAll(old(buffer.data), buffer.maxBytes, Texts(deltas))
    ensures StreamAt(outScript, outSeen, [], false, outDecoder.pending, Project(deltas, Stdout))
    ensures StreamAt(errScript, errSeen, [], false, errDecoder.pending, Project(deltas, Stderr))
  {
    ghost var initial := buffer.data;
    var outRest, errRest, outOpen, errOpen := outScript, errScript, true, true;
    outSeen, errSeen, deltas := [], [], [];
    while outOpen || errOpen
      invariant buffer.data == PushAll(initial, buffer.maxBytes, Texts(deltas))
      invariant StreamAt(outScript, outSeen, outRest, outOpen, outDecoder.pending, Project(deltas, Stdout))
      invariant StreamAt(errScript, errSeen, errRest, errOpen, errDecoder.pending, Project(deltas, Stderr))
      invariant (!outOpen ==> outRest == []) && (!errOpen ==> errRest == [])
      decreases |outRest| + |errRest| + (if outOpen then 1 else 0) + (if errOpen then 1 else 0)
    {
      if outOpen {
        deltas, outSeen, outRest, outOpen :=
          ReadOnce(outDecoder, buffer, initial, Stdout, outScript, outSeen, outRest, deltas);
      }
      if errOpen {
        deltas, errSeen, errRest, errOpen :=
          ReadOnce(errDecoder, buffer, initial, Stderr, errScript, errSeen, errRest, deltas);
      }
    }
  }

  /**
    The whole reader. Each stream's deltas are those of its own decoder on its own chunks,
    whatever the other stream does, and the buffer received exactly the deltas, in order.
   */
  method ReadStreams(outScript: seq<ReadResult>, errScript: seq<ReadResult>, buffer: OutputBuffer)
    returns (deltas: seq<Delta>)
    modifies buffer
    ensures Project(deltas, Stdout) == StreamTexts(Received(outScript))
    ensures Project(deltas, Stderr) == StreamTexts(Received(errScript))
    ensures buffer.data == PushAll(old(buffer.data), buffer.maxBytes, Texts(deltas))
  {
    var outDecoder := new Utf8ChunkDecoder();
    var errDecoder := new Utf8ChunkDecoder();
    ghost var initial := buffer.data;
    ghost var outSeen, errSeen;
    deltas, outSeen, errSeen := DrainStreams(outDecoder, errDecoder, buffer, outScript, errScript);
    assert outSeen == Received(outScript) && errSeen == Received(errScript);
    deltas := FlushDecoder(outDecoder, buffer, initial, Stdout, deltas, outSeen);
    deltas := FlushDecoder(errDecoder, buffer, initial, Stderr, deltas, errSeen);
  }

  // --------------------------------------------------------- what a host sees

  /** The deltas of a stream concatenate to the decoder's whole output on that stream. */
  lemma {:induction false} CallTextsConcatenate(chunks: seq<Bytes>)
    ensures Flatten(CallTexts(chunks)) == Render(FeedAll(chunks).segments)
  {
    if chunks != [] {
      var front, last := chunks[..|chunks| - 1], chunks[|chunks| - 1];
      var step := Feed(FeedAll(front).pending, last);
      assert chunks == front + [last];
      CallTextsConcatenate(front);
      CallTextsSnoc(front, last);
      FeedAllSnoc(front, last);
      FlattenAppend(CallTexts(front), NonEmpty(Render(step.segments)));
      FlattenNonEmpty(Render(step.segments));
      RenderAppend(FeedAll(front).segments, step.segments);
    }
  }

  lemma FlattenNonEmpty(text: Bytes)
    ensures Flatten(NonEmpty(text)) == text
  {
  }

  lemma StreamTextsConcatenate(chunks: seq<Bytes>)
    ensures Flatten(StreamTexts(chunks)) == Streamed(chunks)
  {
    var finish := FinishSegments(FeedAll(chunks).pending);
    CallTextsConcatenate(chunks);
    FlattenAppend(CallTexts(chunks), NonEmpty(Render(finish)));
    FlattenNonEmpty(Render(finish));
    RenderAppend(FeedAll(chunks).segments, finish);
  }

  /** A stream whose own bytes are well-formed is delivered byte for byte. */
  lemma WellFormedStreamIsDelivered(script: seq<ReadResult>)
    requires Valid(Flatten(Received(script)))
    ensures Flatten(StreamTexts(Received(script))) == Flatten(Received(script))
  {
    StreamTextsConcatenate(Received(script));
    ChunkIndependence(Received(script));
  }

  /**
    Every sequence of deltas is an order-preserving merge of its two projections: each delta
    belongs to exactly one stream, and dropping the last one drops the last of that stream.
   */
  ghost predicate Merge(all: seq<Bytes>, a: seq<Bytes>, b: seq<Bytes>) {
    if all == [] then a == [] && b == [] else
      var front, last := all[..|all| - 1], all[|all| - 1];
      || (a != [] && a[|a| - 1] == last && Merge(front, a[..|a| - 1], b))
      || (b != [] && b[|b| - 1] == last && Merge(front, a, b[..|b| - 1]))
  }

  lemma {:induction false} DeltasAreMerge(deltas: seq<Delta>)
    ensures Merge(Texts(deltas), Project(deltas, Stdout), Project(deltas, Stderr))
  {
    if deltas != [] {
      var front, last := deltas[..|deltas| - 1], deltas[|deltas| - 1];
      DeltasAreMerge(front);
      assert Texts(deltas)[..|deltas| - 1] == Texts(front);
      var a, b := Project(deltas, Stdout), Project(deltas, Stderr);
      if last.stream == Stdout {
        assert a[..|a| - 1] == Project(front, Stdout);
      } else {
        assert b[..|b| - 1] == Project(front, Stderr);
      }
    }
  }

  /**
    A session read to the end, both streams well-formed, in a buffer that started empty:
    the host got both streams byte for byte, and the buffer shows the merged text, whole
    or as one marker and a suffix.
   */
  method ReadSession(outScript: seq<ReadResult>, errScript: seq<ReadResult>, maxBytes: nat)
    returns (deltas: seq<Delta>, snapshot: Bytes)
    requires Valid(Flatten(Received(outScript))) && Valid(Flatten(Received(errScript)))
    ensures Flatten(Project(deltas, Stdout)) == Flatten(Received(outScript))
    ensures Flatten(Project(deltas, Stderr)) == Flatten(Received(errScript))
    ensures Merge(Texts(deltas), Project(deltas, Stdout), Project(deltas, Stderr))
    ensures Refines(snapshot, Flatten(Texts(deltas)), maxBytes)
    ensures maxBytes >= 55 ==> |snapshot| <= maxBytes
  {
    var buffer := new OutputBuffer(maxBytes);
    deltas := ReadStreams(outScript, errScript, buffer);
    snapshot := buffer.Snapshot();
    WellFormedStreamIsDelivered(outScript);
    WellFormedStreamIsDelivered(errScript);
    DeltasAreMerge(deltas);
    TextsAreWellFormed(deltas, Received(outScript), Received(errScript));
    SnapshotRefinesHistory(maxBytes, Texts(deltas));
    CapacityHoldsIff(maxBytes);
  }

  lemma {:induction false} RenderIsValid(segments: seq<Bytes>)
    ensures Valid(Render(segments))
  {
    if segments != [] {
      RenderIsValid(segments[1..]);
      LossyIsValid(segments[0]);
      ValidAppend(Lossy(segments[0]), Render(segments[1..]));
    }
  }

  lemma {:induction false} CallTextsAreValid(chunks: seq<Bytes>)
    ensures forall t :: t in StreamTexts(chunks) ==> Valid(t)
    ensures forall t :: t in CallTexts(chunks) ==> Valid(t)
  {
    RenderIsValid(FinishSegments(FeedAll(chunks).pending));
    if chunks != [] {
      var front := chunks[..|chunks| - 1];
      CallTextsAreValid(front);
      RenderIsValid(Feed(FeedAll(front).pending, chunks[|chunks| - 1]).segments);
    }
  }

  lemma {:induction false} ProjectionsCover(deltas: seq<Delta>)
    ensures forall t :: t in Texts(deltas) ==> t in Project(deltas, Stdout) || t in Project(deltas, Stderr)
  {
    if deltas != [] {
      var front, last := deltas[..|deltas| - 1], deltas[|deltas| - 1];
      ProjectionsCover(front);
      assert deltas == front + [last];
      DeltaSnoc(front, last);
    }
  }

  lemma TextsAreWellFormed(deltas: seq<Delta>, outChunks: seq<Bytes>, errChunks: seq<Bytes>)
    requires Project(deltas, Stdout) == StreamTexts(outChunks)
    requires Project(deltas, Stderr) == StreamTexts(errChunks)
    ensures forall t :: t in Texts(deltas) ==> Valid(t)
  {
    ProjectionsCover(deltas);
    CallTextsAreValid(outChunks);
    CallTextsAreValid(errChunks);
  }
}
