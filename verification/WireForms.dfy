/**
  The two wire forms of a zerocopy descriptor (actor.rs): one framed message, or a header frame
  followed by data chunks. The header codec (bincode) is an arbitrary pair of inverse functions.
 */
module WireForms {
  import opened Basics
  import opened Words
  import opened Zerocopy

  datatype Meta = Meta(
    version: nat,
    dtype: Option<string>,
    shape: Option<seq<nat>>,
    strides: Option<seq<int>>,
    transport: Option<string>,
    checksum: Option<string>
  )

  datatype Descriptor = Descriptor(meta: Meta, buffers: seq<Bytes>)

  datatype Header = Header(meta: Meta, bufferCount: nat, bufferLengths: seq<nat>)

  datatype Codec = Codec(encode: Header -> Bytes, decode: Bytes -> Option<Header>) {
    ghost predicate Inverse() {
      forall h :: decode(encode(h)) == Some(h)
    }
  }

  datatype Message = Whole(msgType: MsgType, data: Bytes) | Stream(msgType: MsgType, frames: seq<Frame>)

  /** How decoding can end. `Panicked` is an out-of-range slice. */
  datatype Decoded =
    | Decoded(descriptor: Descriptor)
    | TooShort | Truncated | BadHeader | Panicked
    | EmptyStream | FirstNotDescriptor | NotReassembled(why: Outcome)
    | NotZerocopy

  function ToHeader(d: Descriptor): Header {
    Header(d.meta, |d.buffers|, Lengths(d.buffers))
  }

  function FromWire(h: Header, buffers: seq<Bytes>): Descriptor {
    Descriptor(h.meta, buffers)
  }

  // -------------------------------------------------------------- single form

  function SingleForm(codec: Codec, d: Descriptor): Bytes {
    var header := codec.encode(ToHeader(d));
    Le32(|header|) + header + Flatten(d.buffers)
  }

  /** `serialize_single`. */
  method SerializeSingle(codec: Codec, d: Descriptor) returns (out: Bytes)
    ensures out == SingleForm(codec, d)
  {
    var header := codec.encode(ToHeader(d));
    out := Le32(|header|) + header;
    ghost var prefix := out;
    for i := 0 to |d.buffers|
      invariant out == prefix + Flatten(d.buffers[..i])
    {
      out := out + d.buffers[i];
      assert d.buffers[..i + 1] == d.buffers[..i] + [d.buffers[i]];
      FlattenSnoc(d.buffers[..i], d.buffers[i]);
    }
    assert d.buffers[..|d.buffers|] == d.buffers;
  }

  /** The outcome of parsing a single-form payload; bytes after the last buffer are ignored. */
  function ParsedSingle(codec: Codec, data: Bytes): Decoded {
    if |data| < 4 then TooShort else
      var headerLen := FromLe32(data[..4]);
      if |data| < 4 + headerLen then Truncated else
        var header := codec.decode(data[4..4 + headerLen]);
        if header.None? then BadHeader
        else if |data[4 + headerLen..]| < Sum(header.value.bufferLengths) then Panicked
        else Decoded.Decoded(FromWire(header.value, Split(header.value.bufferLengths, data[4 + headerLen..])))
  }

  /** What is left to cut after `i` buffers, from `offset` on. */
  ghost predicate CutSoFar(lengths: seq<nat>, data: Bytes, i: nat, offset: nat, buffers: seq<Bytes>)
    requires i <= |lengths| && offset <= |data|
  {
    && |data| - Sum(lengths) == |data| - offset - Sum(lengths[i..])
    && (Sum(lengths) <= |data| ==>
          Split(lengths, data) == buffers + Split(lengths[i..], data[offset..]))
  }

  lemma CutFurther(lengths: seq<nat>, data: Bytes, i: nat, offset: nat, buffers: seq<Bytes>)
    requires i < |lengths| && offset + lengths[i] <= |data| && CutSoFar(lengths, data, i, offset, buffers)
    ensures CutSoFar(lengths, data, i + 1, offset + lengths[i], buffers + [data[offset..offset + lengths[i]]])
  {
    var n := lengths[i];
    assert lengths[i..][1..] == lengths[i + 1..] && lengths[i..][0] == n;
    assert data[offset..][..n] == data[offset..offset + n];
    assert data[offset..][n..] == data[offset + n..];
  }

  lemma CutTooFar(lengths: seq<nat>, data: Bytes, i: nat, offset: nat, buffers: seq<Bytes>)
    requires i < |lengths| && offset <= |data| < offset + lengths[i] && CutSoFar(lengths, data, i, offset, buffers)
    ensures |data| < Sum(lengths)
  {
  }

  /** The walk of the offset over the raw data; None stands for the out-of-range slice. */
  method CutBuffers(lengths: seq<nat>, data: Bytes) returns (buffers: Option<seq<Bytes>>)
    ensures buffers == if Sum(lengths) <= |data| then Some(Split(lengths, data)) else None
  {
    var offset: nat := 0;
    var out: seq<Bytes> := [];
    assert lengths[0..] == lengths && data[0..] == data;
    for i := 0 to |lengths|
      invariant offset <= |data| && CutSoFar(lengths, data, i, offset, out)
    {
      if offset + lengths[i] > |data| {
        CutTooFar(lengths, data, i, offset, out);
        return None;
      }
      CutFurther(lengths, data, i, offset, out);
      out := out + [data[offset..offset + lengths[i]]];
      offset := offset + lengths[i];
    }
    assert lengths[|lengths|..] == [] && out + [] == out;
    buffers := Some(out);
  }

  /** `parse_zerocopy_single`. */
  method ParseSingle(codec: Codec, data: Bytes) returns (outcome: Decoded)
    ensures outcome == ParsedSingle(codec, data)
  {
    if |data| < 4 {
      return TooShort;
    }
    var headerLen := FromLe32(data[..4]);
    if |data| < 4 + headerLen {
      return Truncated;
    }
    var decoded := codec.decode(data[4..4 + headerLen]);
    if decoded.None? {
      return BadHeader;
    }
    var buffers := CutBuffers(decoded.value.bufferLengths, data[4 + headerLen..]);
    outcome := if buffers.None? then Panicked else Decoded.Decoded(FromWire(decoded.value, buffers.value));
  }

  // -------------------------------------------------------------- stream form

  function Chunks(buffer: Bytes, chunkLen: nat): seq<Frame>
    requires chunkLen >= 1
  {
    if buffer == [] then [] else
      var n := Min(chunkLen, |buffer|);
      [Single(ZcChunk, buffer[..n])] + Chunks(buffer[n..], chunkLen)
  }

  function AllChunksOf(buffers: seq<Bytes>, chunkLen: nat): seq<Frame>
    requires chunkLen >= 1
  {
    if buffers == [] then [] else Chunks(buffers[0], chunkLen) + AllChunksOf(buffers[1..], chunkLen)
  }

  function StreamForm(codec: Codec, d: Descriptor, chunkLen: nat): seq<Frame>
    requires chunkLen >= 1
  {
    [Single(ZcDescriptor, codec.encode(ToHeader(d)))] + AllChunksOf(d.buffers, chunkLen)
  }

  method SendChunks(frames: seq<Frame>, buf: Bytes, chunkLen: nat) returns (out: seq<Frame>)
    requires chunkLen >= 1
    ensures out == frames + Chunks(buf, chunkLen)
  {
    out := frames;
    var offset := 0;
    assert buf[0..] == buf;
    while offset < |buf|
      invariant offset <= |buf|
      invariant frames + Chunks(buf, chunkLen) == out + Chunks(buf[offset..], chunkLen)
    {
      var end := Min(offset + chunkLen, |buf|);
      assert buf[offset..][..end - offset] == buf[offset..end];
      assert buf[offset..][end - offset..] == buf[end..];
      out := out + [Single(ZcChunk, buf[offset..end])];
      offset := end;
    }
    assert buf[offset..] == [];
  }

  /** The sender thread of `encode_zerocopy_stream`, its receiver staying connected. */
  method EncodeStream(codec: Codec, d: Descriptor, chunkLen: nat) returns (frames: seq<Frame>)
    requires chunkLen >= 1
    ensures frames == StreamForm(codec, d, chunkLen)
  {
    frames := [Single(ZcDescriptor, codec.encode(ToHeader(d)))];
    ghost var first := frames;
    assert d.buffers[0..] == d.buffers;
    for i := 0 to |d.buffers|
      invariant first + AllChunksOf(d.buffers, chunkLen) == frames + AllChunksOf(d.buffers[i..], chunkLen)
    {
      assert d.buffers[i..][1..] == d.buffers[i + 1..];
      frames := SendChunks(frames, d.buffers[i], chunkLen);
    }
  }

  /** The stream arm of `decode_message_to_pyobject`. */
  function DecodedStream(codec: Codec, frames: seq<Frame>): Decoded {
    if frames == [] then EmptyStream
    else if frames[0].Broken? then NotReassembled(StreamError)
    else if !frames[0].Single? || frames[0].msgType != ZcDescriptor then FirstNotDescriptor
    else
      var header := codec.decode(frames[0].data);
      if header.None? then BadHeader else
        var out := Reassembled(header.value.bufferLengths, frames[1..]);
        if out.Filled? then Decoded.Decoded(FromWire(header.value, out.buffers)) else NotReassembled(out)
  }

  // ------------------------------------------------------- choosing and decoding

  function Encoded(codec: Codec, d: Descriptor, threshold: nat, chunkLen: nat): Message
    requires chunkLen >= 1
  {
    if Sum(Lengths(d.buffers)) >= threshold then Stream(ZcDescriptor, StreamForm(codec, d, chunkLen))
    else Whole(SealedZerocopy, SingleForm(codec, d))
  }

  function DecodedMessage(codec: Codec, m: Message): Decoded {
    if m.Whole? && m.msgType == SealedZerocopy then ParsedSingle(codec, m.data)
    else if m.Stream? && m.msgType == ZcDescriptor then DecodedStream(codec, m.frames)
    else NotZerocopy
  }

  lemma SingleFormParts(codec: Codec, d: Descriptor)
    ensures var header := codec.encode(ToHeader(d));
            var data := SingleForm(codec, d);
            && |data| >= 4 + |header|
            && data[..4] == Le32(|header|) && data[4..4 + |header|] == header
            && data[4 + |header|..] == Flatten(d.buffers)
  {
  }

  lemma SingleRoundTrip(codec: Codec, d: Descriptor)
    requires codec.Inverse() && |codec.encode(ToHeader(d))| < U32
    ensures ParsedSingle(codec, SingleForm(codec, d)) == Decoded.Decoded(d)
  {
    hide Split, Sum;
    SingleFormParts(codec, d);
    Le32RoundTrip(|codec.encode(ToHeader(d))|);
    SplitOfFlatten(d.buffers);
  }

  lemma SingleFormIsLong(codec: Codec, d: Descriptor)
    ensures |SingleForm(codec, d)| == 4 + |codec.encode(ToHeader(d))| + Sum(Lengths(d.buffers))
  {
    SplitOfFlatten(d.buffers);
  }

  /** Bytes behind the last buffer are ignored. */
  lemma SurplusIsIgnored(codec: Codec, d: Descriptor, surplus: Bytes)
    requires codec.Inverse() && |codec.encode(ToHeader(d))| < U32
    ensures ParsedSingle(codec, SingleForm(codec, d) + surplus) == Decoded.Decoded(d)
  {
    hide SingleForm, Le32, FromLe32, Lengths;
    var header, data := codec.encode(ToHeader(d)), SingleForm(codec, d);
    SingleFormParts(codec, d);
    SingleFormIsLong(codec, d);
    Le32RoundTrip(|header|);
    var whole := data + surplus;
    assert whole[..4] == data[..4] && whole[4..4 + |header|] == header;
    assert whole[4 + |header|..] == Flatten(d.buffers) + surplus;
    SplitOfFlatten(d.buffers);
    SplitOfPrefix(Lengths(d.buffers), Flatten(d.buffers), Flatten(d.buffers) + surplus);
  }

  /** What a cut single form parses as: each error in its range, the descriptor at the full length alone. */
  function ParsedPrefix(codec: Codec, d: Descriptor, k: nat): Decoded {
    if k < 4 then TooShort
    else if k < 4 + |codec.encode(ToHeader(d))| then Truncated
    else if k < |SingleForm(codec, d)| then Panicked
    else Decoded.Decoded(d)
  }

  /**
    Any prefix of a single form is refused, never read as another descriptor: with an error before
    the end of the header, and by an out-of-range slice from there to the last byte.
   */
  lemma PrefixIsRefused(codec: Codec, d: Descriptor, k: nat)
    requires codec.Inverse() && |codec.encode(ToHeader(d))| < U32 && k <= |SingleForm(codec, d)|
    ensures ParsedSingle(codec, SingleForm(codec, d)[..k]) == ParsedPrefix(codec, d, k)
  {
    hide Split, Sum, SingleForm, Le32, FromLe32, Lengths;
    var header, data := codec.encode(ToHeader(d)), SingleForm(codec, d);
    SingleFormParts(codec, d);
    SingleFormIsLong(codec, d);
    Le32RoundTrip(|header|);
    if k == |data| {
      SingleRoundTrip(codec, d);
      assert data[..k] == data;
    } else if k >= 4 {
      assert data[..k][..4] == data[..4];
      if k >= 4 + |header| {
        assert data[..k][4..4 + |header|] == header;
      }
    }
  }

  lemma {:induction false} ChunksCarryBuffer(buffer: Bytes, chunkLen: nat)
    requires chunkLen >= 1
    ensures AllChunks(Chunks(buffer, chunkLen)) && Payloads(Chunks(buffer, chunkLen)) == buffer
    ensures forall f :: f in Chunks(buffer, chunkLen) ==> f.Single? && 1 <= |f.data| <= chunkLen
    decreases |buffer|
  {
    if buffer != [] {
      var n := Min(chunkLen, |buffer|);
      var rest := Chunks(buffer[n..], chunkLen);
      ChunksCarryBuffer(buffer[n..], chunkLen);
      ChunkInFront(buffer[..n], rest);
      assert buffer[..n] + buffer[n..] == buffer;
    }
  }

  /** All chunks of a buffer but the last are of the full chunk size. */
  lemma {:induction false} ChunksAreFull(buffer: Bytes, chunkLen: nat)
    requires chunkLen >= 1
    ensures forall i :: 0 <= i < |Chunks(buffer, chunkLen)| - 1 ==>
              Chunks(buffer, chunkLen)[i].Single? && |Chunks(buffer, chunkLen)[i].data| == chunkLen
    decreases |buffer|
  {
    if buffer != [] {
      var n := Min(chunkLen, |buffer|);
      ChunksAreFull(buffer[n..], chunkLen);
      var rest := Chunks(buffer[n..], chunkLen);
      assert n < chunkLen ==> buffer[n..] == [] && rest == [];
    }
  }

  lemma ChunkInFront(data: Bytes, rest: seq<Frame>)
    requires AllChunks(rest)
    ensures AllChunks([Single(ZcChunk, data)] + rest) && Payloads([Single(ZcChunk, data)] + rest) == data + Payloads(rest)
  {
    assert ([Single(ZcChunk, data)] + rest)[1..] == rest;
  }

  lemma {:induction false} PayloadsAppend(a: seq<Frame>, b: seq<Frame>)
    requires AllChunks(a) && AllChunks(b)
    ensures AllChunks(a + b) && Payloads(a + b) == Payloads(a) + Payloads(b)
  {
    if a == [] {
      assert a + b == b;
    } else {
      assert (a + b)[1..] == a[1..] + b;
      PayloadsAppend(a[1..], b);
    }
  }

  lemma {:induction false} StreamCarriesBuffers(buffers: seq<Bytes>, chunkLen: nat)
    requires chunkLen >= 1
    ensures AllChunks(AllChunksOf(buffers, chunkLen)) && Payloads(AllChunksOf(buffers, chunkLen)) == Flatten(buffers)
  {
    if buffers != [] {
      ChunksCarryBuffer(buffers[0], chunkLen);
      StreamCarriesBuffers(buffers[1..], chunkLen);
      PayloadsAppend(Chunks(buffers[0], chunkLen), AllChunksOf(buffers[1..], chunkLen));
    }
  }

  lemma StreamRoundTrip(codec: Codec, d: Descriptor, chunkLen: nat)
    requires codec.Inverse() && chunkLen >= 1
    ensures DecodedStream(codec, StreamForm(codec, d, chunkLen)) == Decoded.Decoded(d)
  {
    var frames := StreamForm(codec, d, chunkLen);
    assert frames[1..] == AllChunksOf(d.buffers, chunkLen);
    StreamCarriesBuffers(d.buffers, chunkLen);
    SplitOfFlatten(d.buffers);
    ReassemblyIgnoresChunking(Lengths(d.buffers), frames[1..]);
  }

  /**
    The two forms mean the same: whatever the threshold and the chunk size, decoding gives the
    descriptor back, buffers and metadata, so which form was chosen cannot be observed.
   */
  lemma EncodingIsNotObservable(codec: Codec, d: Descriptor, threshold: nat, chunkLen: nat)
    requires codec.Inverse() && chunkLen >= 1 && |codec.encode(ToHeader(d))| < U32
    ensures DecodedMessage(codec, Encoded(codec, d, threshold, chunkLen)) == Decoded.Decoded(d)
  {
    SingleRoundTrip(codec, d);
    StreamRoundTrip(codec, d, chunkLen);
  }

  /** Buffers of at least the threshold in all go as a stream, smaller ones as one message. */
  lemma EncodingChoice(codec: Codec, d: Descriptor, threshold: nat, chunkLen: nat)
    requires chunkLen >= 1
    ensures Encoded(codec, d, threshold, chunkLen).Stream? <==> |Flatten(d.buffers)| >= threshold
  {
    SplitOfFlatten(d.buffers);
  }

  /**
    A stream decodes to a descriptor exactly when it opens with a descriptor frame whose header
    decodes, followed by chunks, and nothing else before they carry all the bytes it announces.
   */
  lemma DecodedStreamIff(codec: Codec, frames: seq<Frame>)
    ensures DecodedStream(codec, frames).Decoded? <==>
              && frames != [] && frames[0].Single? && frames[0].msgType == ZcDescriptor
              && codec.decode(frames[0].data).Some?
              && (var lengths := codec.decode(frames[0].data).value.bufferLengths;
                  exists i :: 0 <= i < |frames| && Delivers(lengths, frames[1..], i))
  {
    if frames != [] && frames[0].Single? && codec.decode(frames[0].data).Some? {
      ReassembledIff(codec.decode(frames[0].data).value.bufferLengths, frames[1..]);
    }
  }
}
