/**
  Reassembly of a zerocopy stream (zerocopy.rs and the same loop in actor.rs): data chunks cut
  anywhere are poured into buffers of announced lengths.
 */
module Zerocopy {
  import opened Basics

  datatype MsgType = SealedPy | SealedZerocopy | ZcDescriptor | ZcChunk | Other

  /** An item of a message stream; `Broken` is a transport error. */
  datatype Frame = Single(msgType: MsgType, data: Bytes) | NotSingle | Broken

  datatype Outcome = Filled(buffers: seq<Bytes>) | Ended | Unexpected | StreamError

  predicate IsChunk(f: Frame) {
    f.Single? && f.msgType == ZcChunk
  }

  function Sum(lengths: seq<nat>): nat {
    if lengths == [] then 0 else lengths[0] + Sum(lengths[1..])
  }

  /** The first bytes of `data`, cut at the announced lengths. */
  function Split(lengths: seq<nat>, data: Bytes): seq<Bytes>
    requires Sum(lengths) <= |data|
  {
    if lengths == [] then [] else [data[..lengths[0]]] + Split(lengths[1..], data[lengths[0]..])
  }

  datatype Collected = Got(data: Bytes) | Failed(why: Outcome)

  function Prepend(data: Bytes, rest: Collected): Collected {
    if rest.Got? then Got(data + rest.data) else rest
  }

  /** Read chunks until at least `need` bytes came; the chunk that gets there is taken whole. */
  function Collect(frames: seq<Frame>, need: int): Collected {
    if need <= 0 then Got([])
    else if frames == [] then Failed(Ended)
    else if frames[0].Broken? then Failed(StreamError)
    else if !IsChunk(frames[0]) then Failed(Unexpected)
    else Prepend(frames[0].data, Collect(frames[1..], need - |frames[0].data|))
  }

  lemma {:induction false} CollectIsEnough(frames: seq<Frame>, need: int)
    ensures Collect(frames, need).Got? ==> |Collect(frames, need).data| >= need
    ensures Collect(frames, need).Failed? ==> !Collect(frames, need).why.Filled?
  {
    if need > 0 && frames != [] && IsChunk(frames[0]) {
      CollectIsEnough(frames[1..], need - |frames[0].data|);
    }
  }

  /** What reassembly yields. */
  function Reassembled(lengths: seq<nat>, frames: seq<Frame>): Outcome {
    var got := Collect(frames, Sum(lengths));
    CollectIsEnough(frames, Sum(lengths));
    match got
    case Got(data) => Filled(Split(lengths, data))
    case Failed(why) => why
  }

  // ------------------------------------------------------------------ filling

  /** Buffers before `at` are full, buffers after it are empty, none is over its length. */
  ghost predicate Filling(lengths: seq<nat>, buffers: seq<Bytes>, at: nat) {
    && |buffers| == |lengths| && at <= |lengths|
    && (forall j :: 0 <= j < at ==> |buffers[j]| == lengths[j])
    && (forall j :: at < j < |lengths| ==> buffers[j] == [])
    && (at < |lengths| ==> |buffers[at]| <= lengths[at])
  }

  /** Appending where only empty buffers follow appends to the whole. */
  lemma {:induction false} AppendFlattens(buffers: seq<Bytes>, at: nat, x: Bytes)
    requires at < |buffers| && forall j :: at < j < |buffers| ==> buffers[j] == []
    ensures Flatten(buffers[at := buffers[at] + x]) == Flatten(buffers) + x
  {
    var grown := buffers[at := buffers[at] + x];
    if at == 0 {
      assert grown[1..] == buffers[1..];
      EmptyFlatten(buffers[1..]);
    } else {
      assert grown[1..] == buffers[1..][at - 1 := buffers[1..][at - 1] + x];
      AppendFlattens(buffers[1..], at - 1, x);
    }
  }

  lemma {:induction false} EmptyFlatten(buffers: seq<Bytes>)
    requires forall j :: 0 <= j < |buffers| ==> buffers[j] == []
    ensures Flatten(buffers) == []
  {
    if buffers != [] {
      EmptyFlatten(buffers[1..]);
    }
  }

  /** What buffers hold never exceeds the announced total, and reaches it only when all are full. */
  lemma {:induction false} FlattenFits(lengths: seq<nat>, buffers: seq<Bytes>)
    requires |buffers| == |lengths| && forall j :: 0 <= j < |lengths| ==> |buffers[j]| <= lengths[j]
    ensures |Flatten(buffers)| <= Sum(lengths)
    ensures |Flatten(buffers)| == Sum(lengths) <==> forall j :: 0 <= j < |lengths| ==> |buffers[j]| == lengths[j]
  {
    if lengths != [] {
      FlattenFits(lengths[1..], buffers[1..]);
      assert (forall j :: 0 <= j < |lengths| ==> |buffers[j]| == lengths[j]) <==>
             |buffers[0]| == lengths[0] && forall j :: 0 <= j < |lengths| - 1 ==> |buffers[1..][j]| == lengths[1..][j] by {
        assert forall j :: 0 < j < |lengths| ==> buffers[j] == buffers[1..][j - 1] && lengths[j] == lengths[1..][j - 1];
      }
    }
  }

  lemma FillingFits(lengths: seq<nat>, buffers: seq<Bytes>, at: nat)
    requires Filling(lengths, buffers, at)
    ensures |Flatten(buffers)| <= Sum(lengths)
    ensures at == |lengths| ==> |Flatten(buffers)| == Sum(lengths)
    ensures |Flatten(buffers)| == Sum(lengths) ==> forall j :: 0 <= j < |lengths| ==> |buffers[j]| == lengths[j]
  {
    FlattenFits(lengths, buffers);
  }

  /** Buffers of the announced lengths holding the first bytes of `data` are the split of `data`. */
  lemma {:induction false} SplitIsUnique(lengths: seq<nat>, buffers: seq<Bytes>, data: Bytes)
    requires |buffers| == |lengths| && forall j :: 0 <= j < |lengths| ==> |buffers[j]| == lengths[j]
    requires Sum(lengths) <= |data| && Flatten(buffers) == data[..Sum(lengths)]
    ensures buffers == Split(lengths, data)
  {
    if lengths != [] {
      var n := lengths[0];
      assert buffers[0] == Flatten(buffers)[..n] == data[..n];
      assert Flatten(buffers[1..]) == Flatten(buffers)[n..] == data[n..][..Sum(lengths[1..])];
      SplitIsUnique(lengths[1..], buffers[1..], data[n..]);
      assert buffers == [buffers[0]] + buffers[1..];
    }
  }

  method AppendAt(lengths: seq<nat>, buffers: seq<Bytes>, at: nat, x: Bytes) returns (out: seq<Bytes>)
    requires Filling(lengths, buffers, at) && at < |lengths| && |buffers[at]| + |x| <= lengths[at]
    ensures Filling(lengths, out, at) && Flatten(out) == Flatten(buffers) + x
    ensures |out[at]| == |buffers[at]| + |x|
  {
    out := buffers[at := buffers[at] + x];
    AppendFlattens(buffers, at, x);
  }

  /** One chunk: top up the current buffer, then spill over as many further buffers as it spans. */
  method PlaceChunk(lengths: seq<nat>, buffers: seq<Bytes>, at: nat, data: Bytes)
    returns (out: seq<Bytes>, next: nat, ghost surplus: Bytes)
    requires Filling(lengths, buffers, at) && at < |lengths|
    ensures Filling(lengths, out, next)
    ensures Flatten(out) + surplus == Flatten(buffers) + data
    ensures surplus != [] ==> next == |lengths|
  {
    hide Flatten;
    out, next, surplus := buffers, at, [];
    var remaining := lengths[at] - |out[at]|;
    if |data| <= remaining {
      out := AppendAt(lengths, out, at, data);
    } else {
      out := AppendAt(lengths, out, at, data[..remaining]);
      var rest := data[remaining..];
      assert data[..remaining] + rest == data;
      next := at + 1;
      while rest != [] && next < |lengths|
        invariant Filling(lengths, out, next)
        invariant Flatten(out) + rest == Flatten(buffers) + data
        decreases |rest| + (|lengths| - next)
      {
        var canTake := Min(|rest|, lengths[next] - |out[next]|);
        assert rest == rest[..canTake] + rest[canTake..];
        out := AppendAt(lengths, out, next, rest[..canTake]);
        rest := rest[canTake..];
        if |out[next]| == lengths[next] {
          next := next + 1;
        }
      }
      surplus := rest;
    }
    if next < |lengths| && |out[next]| == lengths[next] {
      next := next + 1;
    }
  }

  // -------------------------------------------------------------- reassembly

  lemma CollectSnoc(frames: seq<Frame>, i: nat, done: Bytes, total: nat)
    requires i < |frames| && |done| < total && IsChunk(frames[i])
    ensures Prepend(done, Collect(frames[i..], total - |done|))
         == Prepend(done + frames[i].data, Collect(frames[i + 1..], total - |done + frames[i].data|))
  {
  }

  /** `done` has been poured in: all of it, or as much as fits. */
  ghost predicate Poured(lengths: seq<nat>, buffers: seq<Bytes>, done: Bytes) {
    Flatten(buffers) == done[..Min(|done|, Sum(lengths))]
  }

  lemma PouredFurther(lengths: seq<nat>, buffers: seq<Bytes>, done: Bytes, data: Bytes,
                      out: seq<Bytes>, next: nat, surplus: Bytes)
    requires Poured(lengths, buffers, done) && |done| < Sum(lengths)
    requires Filling(lengths, out, next) && (surplus != [] ==> next == |lengths|)
    requires Flatten(out) + surplus == Flatten(buffers) + data
    ensures Poured(lengths, out, done + data)
  {
    hide Flatten, Filling, Sum;
    FillingFits(lengths, out, next);
    assert Flatten(buffers) == done;
    assert Flatten(out) == (Flatten(out) + surplus)[..|Flatten(out)|];
  }

  /**
    The loop of `reassemble_zerocopy_stream`. The index stays within the buffers, and the
    result is the split of the first announced bytes, or the first thing that went wrong.
   */
  method Reassemble(lengths: seq<nat>, frames: seq<Frame>) returns (outcome: Outcome)
    ensures outcome == Reassembled(lengths, frames)
  {
    var total := Sum(lengths);
    var buffers := seq(|lengths|, _ => []);
    var at, received, i := 0, 0, 0;
    ghost var done: Bytes := [];
    EmptyFlatten(buffers);
    assert frames[0..] == frames;
    assert Collect(frames, total) == Prepend(done, Collect(frames[i..], total - |done|)) by {
      PrependNothing(Collect(frames, total));
    }
    while received < total
      invariant i <= |frames| && received == |done|
      invariant Collect(frames, total) == Prepend(done, Collect(frames[i..], total - |done|))
      invariant Filling(lengths, buffers, at) && Poured(lengths, buffers, done)
      decreases |frames| - i
    {
      if i == |frames| {
        return Ended;
      }
      if frames[i].Broken? {
        return StreamError;
      }
      if !IsChunk(frames[i]) {
        return Unexpected;
      }
      FillingFits(lengths, buffers, at);
      CollectSnoc(frames, i, done, total);
      var next;
      ghost var surplus;
      ghost var before := buffers;
      buffers, next, surplus := PlaceChunk(lengths, buffers, at, frames[i].data);
      PouredFurther(lengths, before, done, frames[i].data, buffers, next, surplus);
      at := next;
      received := received + |frames[i].data|;
      done := done + frames[i].data;
      i := i + 1;
    }
    FillingFits(lengths, buffers, at);
    assert Collect(frames, total) == Got(done + []);
    assert done + [] == done;
    SplitIsUnique(lengths, buffers, done);
    outcome := Filled(buffers);
  }

  lemma PrependNothing(c: Collected)
    ensures Prepend([], c) == c
  {
  }

  // --------------------------------------------------------- what it guarantees

  predicate AllChunks(frames: seq<Frame>) {
    forall i :: 0 <= i < |frames| ==> IsChunk(frames[i])
  }

  function Payloads(frames: seq<Frame>): Bytes
    requires AllChunks(frames)
  {
    if frames == [] then [] else frames[0].data + Payloads(frames[1..])
  }

  lemma {:induction false} CollectChunks(frames: seq<Frame>, need: int)
    requires AllChunks(frames)
    ensures |Payloads(frames)| < need ==> Collect(frames, need) == Failed(Ended)
    ensures |Payloads(frames)| >= need ==>
              Collect(frames, need).Got? && Collect(frames, need).data <= Payloads(frames)
  {
    if need > 0 && frames != [] {
      CollectChunks(frames[1..], need - |frames[0].data|);
    }
  }

  lemma {:induction false} SplitOfPrefix(lengths: seq<nat>, a: Bytes, b: Bytes)
    requires Sum(lengths) <= |a| && a <= b
    ensures Split(lengths, a) == Split(lengths, b)
  {
    if lengths != [] {
      assert a[..lengths[0]] == b[..lengths[0]];
      SplitOfPrefix(lengths[1..], a[lengths[0]..], b[lengths[0]..]);
    }
  }

  /**
    Chunking is not observable: chunks with enough bytes give the split of their concatenation,
    however cut, empty chunks, spanning chunks and surplus included; fewer bytes are an error.
   */
  lemma ReassemblyIgnoresChunking(lengths: seq<nat>, frames: seq<Frame>)
    requires AllChunks(frames)
    ensures Reassembled(lengths, frames) ==
            if |Payloads(frames)| >= Sum(lengths) then Filled(Split(lengths, Payloads(frames))) else Ended
  {
    CollectChunks(frames, Sum(lengths));
    CollectIsEnough(frames, Sum(lengths));
    if |Payloads(frames)| >= Sum(lengths) {
      SplitOfPrefix(lengths, Collect(frames, Sum(lengths)).data, Payloads(frames));
    }
  }

  // ------------------------------------------------------------ any frames at all

  /** The first `i` frames are chunks and carry all the bytes announced. */
  predicate Delivers(lengths: seq<nat>, frames: seq<Frame>, i: nat)
    requires i <= |frames|
  {
    AllChunks(frames[..i]) && |Payloads(frames[..i])| >= Sum(lengths)
  }

  /** Where the chunks end: the first frame that is none, or the end of the stream. */
  function ChunkCount(frames: seq<Frame>): (n: nat)
    ensures n <= |frames| && AllChunks(frames[..n])
    ensures n < |frames| ==> !IsChunk(frames[n])
  {
    if frames == [] || !IsChunk(frames[0]) then 0 else
      var n := 1 + ChunkCount(frames[1..]);
      assert forall j :: 0 < j < n ==> frames[j] == frames[1..][..n - 1][j - 1];
      n
  }

  /** What the first frame that is no chunk makes of the stream. */
  function StopsBy(frames: seq<Frame>): Outcome {
    var n := ChunkCount(frames);
    if n == |frames| then Ended else if frames[n].Broken? then StreamError else Unexpected
  }

  /** Reading goes by a delivering beginning alone. */
  lemma {:induction false} CollectDelivered(frames: seq<Frame>, need: int, i: nat)
    requires i <= |frames| && AllChunks(frames[..i]) && |Payloads(frames[..i])| >= need
    ensures Collect(frames, need).Got? && Collect(frames, need).data <= Payloads(frames[..i])
    decreases i
  {
    if need > 0 {
      PayloadsOfFirst(frames, i);
      CollectDelivered(frames[1..], need - |frames[0].data|, i - 1);
    }
  }

  lemma PayloadsOfFirst(frames: seq<Frame>, i: nat)
    requires i <= |frames| && AllChunks(frames[..i]) && |Payloads(frames[..i])| > 0
    ensures 0 < i && IsChunk(frames[0]) && AllChunks(frames[1..][..i - 1])
    ensures Payloads(frames[..i]) == frames[0].data + Payloads(frames[1..][..i - 1])
  {
    assert frames[..i][0] == frames[0];
    assert frames[..i][1..] == frames[1..][..i - 1];
  }

  lemma ChunksStep(frames: seq<Frame>)
    requires frames != [] && IsChunk(frames[0])
    ensures var n := ChunkCount(frames);
            && n == 1 + ChunkCount(frames[1..]) && StopsBy(frames) == StopsBy(frames[1..])
            && Payloads(frames[..n]) == frames[0].data + Payloads(frames[1..][..n - 1])
  {
    var n := ChunkCount(frames);
    assert frames[..n][0] == frames[0];
    assert frames[..n][1..] == frames[1..][..n - 1];
  }

  /** Chunks that do not suffice leave the decision to the frame behind them. */
  lemma {:induction false} CollectStopped(frames: seq<Frame>, need: int)
    requires |Payloads(frames[..ChunkCount(frames)])| < need
    ensures Collect(frames, need) == Failed(StopsBy(frames))
  {
    if frames != [] && IsChunk(frames[0]) {
      hide ChunkCount, StopsBy, Payloads;
      ChunksStep(frames);
      CollectStopped(frames[1..], need - |frames[0].data|);
    }
  }

  lemma {:induction false} PayloadsGrow(frames: seq<Frame>, i: nat, n: nat)
    requires i <= n <= |frames| && AllChunks(frames[..n])
    ensures AllChunks(frames[..i]) && |Payloads(frames[..i])| <= |Payloads(frames[..n])|
    decreases i
  {
    assert forall j :: 0 <= j < i ==> frames[..i][j] == frames[..n][j];
    if i > 0 {
      assert frames[..i][1..] == frames[1..][..i - 1] && frames[..n][1..] == frames[1..][..n - 1];
      RestIsChunks(frames[..n]);
      PayloadsGrow(frames[1..], i - 1, n - 1);
    }
  }

  lemma RestIsChunks(frames: seq<Frame>)
    requires AllChunks(frames) && frames != []
    ensures AllChunks(frames[1..])
  {
  }

  lemma ChunksEndAt(frames: seq<Frame>, i: nat)
    requires i <= |frames| && AllChunks(frames[..i])
    ensures i <= ChunkCount(frames)
  {
    var n := ChunkCount(frames);
    assert forall j :: 0 <= j < i ==> frames[..i][j] == frames[j];
  }

  /**
    For any frames at all: buffers come out exactly when a beginning of the stream is all chunks and
    carries the bytes announced, and then they are the split of that beginning. Otherwise the first
    frame that is no chunk decides, a broken one or a foreign one, or the end if there is none.
   */
  lemma ReassembledIff(lengths: seq<nat>, frames: seq<Frame>)
    ensures Reassembled(lengths, frames).Filled? <==> exists i :: 0 <= i <= |frames| && Delivers(lengths, frames, i)
    ensures forall i :: 0 <= i <= |frames| && Delivers(lengths, frames, i) ==>
              Reassembled(lengths, frames) == Filled(Split(lengths, Payloads(frames[..i])))
    ensures !Reassembled(lengths, frames).Filled? ==> Reassembled(lengths, frames) == StopsBy(frames)
  {
    forall i | 0 <= i <= |frames| && Delivers(lengths, frames, i)
      ensures Reassembled(lengths, frames) == Filled(Split(lengths, Payloads(frames[..i])))
    {
      CollectDelivered(frames, Sum(lengths), i);
      CollectIsEnough(frames, Sum(lengths));
      SplitOfPrefix(lengths, Collect(frames, Sum(lengths)).data, Payloads(frames[..i]));
    }
    var n := ChunkCount(frames);
    if |Payloads(frames[..n])| >= Sum(lengths) {
      assert Delivers(lengths, frames, n);
    } else {
      CollectStopped(frames, Sum(lengths));
      forall i | 0 <= i <= |frames|
        ensures !Delivers(lengths, frames, i)
      {
        if AllChunks(frames[..i]) {
          ChunksEndAt(frames, i);
          PayloadsGrow(frames, i, n);
        }
      }
    }
  }

  lemma {:induction false} SplitHasLengths(lengths: seq<nat>, data: Bytes)
    requires Sum(lengths) <= |data|
    ensures |Split(lengths, data)| == |lengths|
    ensures forall j :: 0 <= j < |lengths| ==> |Split(lengths, data)[j]| == lengths[j]
    ensures Flatten(Split(lengths, data)) == data[..Sum(lengths)]
  {
    if lengths != [] {
      SplitHasLengths(lengths[1..], data[lengths[0]..]);
      assert data[..lengths[0]] + data[lengths[0]..][..Sum(lengths[1..])] == data[..Sum(lengths)];
    }
  }

  /** Whatever the frames, a result never holds a short buffer. */
  lemma ReassemblyIsNeverShort(lengths: seq<nat>, frames: seq<Frame>)
    ensures var out := Reassembled(lengths, frames);
            out.Filled? ==> |out.buffers| == |lengths|
                            && forall j :: 0 <= j < |lengths| ==> |out.buffers[j]| == lengths[j]
  {
    CollectIsEnough(frames, Sum(lengths));
    var got := Collect(frames, Sum(lengths));
    if got.Got? {
      SplitHasLengths(lengths, got.data);
    }
  }

  /** Splitting a concatenation at its own lengths gives the parts back. */
  lemma {:induction false} SplitOfFlatten(buffers: seq<Bytes>)
    ensures Sum(Lengths(buffers)) == |Flatten(buffers)|
    ensures Split(Lengths(buffers), Flatten(buffers)) == buffers
  {
    if buffers != [] {
      SplitOfFlatten(buffers[1..]);
      assert Lengths(buffers)[1..] == Lengths(buffers[1..]);
      assert Flatten(buffers)[..|buffers[0]|] == buffers[0];
      assert Flatten(buffers)[|buffers[0]|..] == Flatten(buffers[1..]);
    }
  }

  function Lengths(buffers: seq<Bytes>): seq<nat> {
    seq(|buffers|, i requires 0 <= i < |buffers| => |buffers[i]|)
  }
}
