/**
  The incremental decoder of exec_output.rs. `Feed` is one call of `decode`: it names the
  byte segments handed to the text conversion and the bytes carried over to the next call.
 */
module ChunkDecoder {
  import opened Basics
  import opened Utf8

  /** A longer leftover than this cannot be the start of a character. */
  const MAX_CARRY := 4

  datatype Fed = Fed(segments: seq<Bytes>, pending: Bytes)

  function Feed(pending: Bytes, bytes: Bytes): Fed {
    var all := pending + bytes;
    var valid := ValidUpTo(all);
    if valid == |all| then Fed([all], [])
    else if |all| - valid > MAX_CARRY then Fed([all[..valid], all[valid..]], [])
    else Fed([all[..valid]], all[valid..])
  }

  /** Everything a fresh decoder has done after reading `chunks` one call at a time. */
  function FeedAll(chunks: seq<Bytes>): Fed {
    if chunks == [] then Fed([], []) else
      var before := FeedAll(chunks[..|chunks| - 1]);
      var last := Feed(before.pending, chunks[|chunks| - 1]);
      Fed(before.segments + last.segments, last.pending)
  }

  /** `finish` converts what is still carried. */
  function FinishSegments(pending: Bytes): seq<Bytes> {
    if pending == [] then [] else [pending]
  }

  function AllSegments(chunks: seq<Bytes>): seq<Bytes> {
    FeedAll(chunks).segments + FinishSegments(FeedAll(chunks).pending)
  }

  function Render(segments: seq<Bytes>): Bytes {
    if segments == [] then [] else Lossy(segments[0]) + Render(segments[1..])
  }

  /** The concatenated output of `decode` on each chunk, then `finish`. */
  function Streamed(chunks: seq<Bytes>): Bytes {
    Render(AllSegments(chunks))
  }

  class Utf8ChunkDecoder {
    var pending: Bytes

    constructor ()
      ensures pending == []
    {
      pending := [];
    }

    method Decode(bytes: Bytes) returns (out: Bytes)
      modifies this
      ensures out == Render(Feed(old(pending), bytes).segments)
      ensures pending == Feed(old(pending), bytes).pending
    {
      if bytes != [] {
        pending := pending + bytes;
      }
      assert pending == old(pending) + bytes;
      var validLen := ValidUpTo(pending);
      RenderOne(pending);
      RenderOne(pending[..validLen]);
      if validLen == |pending| {
        LossyOfValid(pending);
        out := pending;
        pending := [];
        return;
      }
      out := Lossy(pending[..validLen]);
      var leftover := |pending| - validLen;
      if leftover > MAX_CARRY {
        var rest := Lossy(pending[validLen..]);
        RenderTwo(pending[..validLen], pending[validLen..]);
        pending := [];
        return out + rest;
      }
      pending := pending[validLen..];
    }

    method Finish() returns (out: Bytes)
      modifies this
      ensures out == Render(FinishSegments(old(pending))) && pending == []
    {
      if pending == [] {
        return [];
      }
      RenderOne(pending);
      out := Lossy(pending);
      pending := [];
    }
  }

  lemma RenderOne(segment: Bytes)
    ensures Render([segment]) == Lossy(segment)
  {
  }

  lemma RenderTwo(a: Bytes, b: Bytes)
    ensures Render([a, b]) == Lossy(a) + Lossy(b)
  {
    assert [a, b][1..] == [b];
    RenderOne(b);
  }

  lemma {:induction false} RenderAppend(a: seq<Bytes>, b: seq<Bytes>)
    ensures Render(a + b) == Render(a) + Render(b)
  {
    if a == [] {
      assert a + b == b;
    } else {
      assert (a + b)[1..] == a[1..] + b;
      RenderAppend(a[1..], b);
    }
  }

  // ------------------------------------------------------------ any bytes

  lemma FeedPartitions(pending: Bytes, bytes: Bytes)
    ensures Flatten(Feed(pending, bytes).segments) + Feed(pending, bytes).pending == pending + bytes
    ensures |Feed(pending, bytes).pending| <= MAX_CARRY
  {
    var all := pending + bytes;
    var valid := ValidUpTo(all);
    assert all[..valid] + all[valid..] == all;
    FlattenSnoc([], all);
    FlattenSnoc([], all[..valid]);
    FlattenSnoc([all[..valid]], all[valid..]);
    assert [] + [all] == [all];
    assert [] + [all[..valid]] == [all[..valid]];
    assert [all[..valid]] + [all[valid..]] == [all[..valid], all[valid..]];
  }

  /**
    What a call carries over: everything behind the longest well-formed beginning, as long as that
    is at most four bytes; more is flushed at once.
   */
  lemma FeedCarries(pending: Bytes, bytes: Bytes)
    ensures var all := pending + bytes;
            var rest := all[ValidUpTo(all)..];
            Feed(pending, bytes).pending == if |rest| <= 4 then rest else []
  {
  }

  lemma FeedAllSnoc(front: seq<Bytes>, last: Bytes)
    ensures var before := FeedAll(front);
            var step := Feed(before.pending, last);
            FeedAll(front + [last]) == Fed(before.segments + step.segments, step.pending)
  {
  }

  lemma Regroup(a: Bytes, b: Bytes, c: Bytes, d: Bytes, e: Bytes)
    requires b + c == d + e
    ensures (a + b) + c == (a + d) + e
  {
    assert (a + b) + c == a + (b + c);
    assert (a + d) + e == a + (d + e);
  }

  /**
    Whatever the bytes and however they are cut: at most four are carried between calls,
    and the segments converted, followed by what is carried, are the input in order.
   */
  lemma {:induction false} CarryIsBounded(chunks: seq<Bytes>)
    ensures |FeedAll(chunks).pending| <= 4
    ensures Flatten(FeedAll(chunks).segments) + FeedAll(chunks).pending == Flatten(chunks)
  {
    if chunks != [] {
      var front, last := chunks[..|chunks| - 1], chunks[|chunks| - 1];
      assert chunks == front + [last];
      CarryIsBounded(front);
      CarryStep(front, last);
    }
  }

  lemma CarryStep(front: seq<Bytes>, last: Bytes)
    requires Flatten(FeedAll(front).segments) + FeedAll(front).pending == Flatten(front)
    ensures |FeedAll(front + [last]).pending| <= MAX_CARRY
    ensures Flatten(FeedAll(front + [last]).segments) + FeedAll(front + [last]).pending
         == Flatten(front + [last])
  {
    var before := FeedAll(front);
    var step := Feed(before.pending, last);
    FeedAllSnoc(front, last);
    FeedPartitions(before.pending, last);
    FlattenSnoc(front, last);
    FlattenAppend(before.segments, step.segments);
    Regroup(Flatten(before.segments), Flatten(step.segments), step.pending, before.pending, last);
  }

  /** After `finish`, the converted segments partition the input: nothing lost, repeated or kept. */
  lemma NoByteLostOrRepeated(chunks: seq<Bytes>)
    ensures Flatten(AllSegments(chunks)) == Flatten(chunks)
  {
    CarryIsBounded(chunks);
    var fed := FeedAll(chunks);
    FlattenAppend(fed.segments, FinishSegments(fed.pending));
    FlattenSnoc([], fed.pending);
    assert [] + [fed.pending] == [fed.pending];
  }

  // ------------------------------------------------------ chunk independence

  /** Bytes from the first malformed or unfinished character on. */
  function Remainder(w: Bytes): nat {
    |w| - ValidUpTo(w)
  }

  /** A prefix of a text with a short remainder has a short remainder. */
  lemma RemainderOfPrefix(w: Bytes, k: nat)
    requires k <= |w| && Remainder(w) <= MAX_CARRY
    ensures Remainder(w[..k]) <= MAX_CARRY
  {
    var v := ValidUpTo(w);
    ValidPrefixIsValid(w);
    if k <= v {
      CutOfValid(w[..v], k);
      assert w[..v][..k] == w[..k];
    } else {
      assert w[..k] == w[..v] + w[v..k];
      ValidUpToAppend(w[..v], w[v..k]);
    }
  }

  /** Along the way the carry is exactly the unfinished end of what was read, and nothing was flushed. */
  lemma {:induction false} CarryIsUnfinishedEnd(chunks: seq<Bytes>)
    requires Remainder(Flatten(chunks)) <= MAX_CARRY
    ensures FeedAll(chunks).pending == UnfinishedEnd(Flatten(chunks))
    ensures forall s :: s in FeedAll(chunks).segments ==> Valid(s)
  {
    if chunks != [] {
      var front, last := chunks[..|chunks| - 1], chunks[|chunks| - 1];
      var read := Flatten(front);
      assert chunks == front + [last];
      FlattenSnoc(front, last);
      assert (read + last)[..|read|] == read;
      RemainderOfPrefix(read + last, |read|);
      CarryIsUnfinishedEnd(front);
      FeedAllSnoc(front, last);
      FeedUnfinishedEnd(read, last);
    }
  }

  function UnfinishedEnd(read: Bytes): Bytes {
    read[ValidUpTo(read)..]
  }

  lemma FeedUnfinishedEnd(read: Bytes, last: Bytes)
    requires Remainder(read + last) <= MAX_CARRY
    ensures Feed(UnfinishedEnd(read), last).pending == UnfinishedEnd(read + last)
    ensures forall s :: s in Feed(UnfinishedEnd(read), last).segments ==> Valid(s)
  {
    hide ValidUpTo;
    var v := ValidUpTo(read);
    var all := UnfinishedEnd(read) + last;
    ValidPrefixIsValid(read);
    assert read + last == read[..v] + all;
    ValidUpToAppend(read[..v], all);
    ValidPrefixIsValid(all);
    assert all[..|all|] == all;
  }

  /** A call's segments and its carry, converted apart, are its input converted at once. */
  lemma FeedConverts(pending: Bytes, bytes: Bytes)
    ensures Render(Feed(pending, bytes).segments) + Lossy(Feed(pending, bytes).pending) == Lossy(pending + bytes)
  {
    hide ValidUpTo, Lossy, Render;
    var all := pending + bytes;
    var valid := ValidUpTo(all);
    ValidPrefixIsValid(all);
    RenderOne(all);
    RenderOne(all[..valid]);
    RenderTwo(all[..valid], all[valid..]);
    LossyOfNothing();
    LossyOfValid(all[..valid]);
    LossyAppend(all[..valid], all[valid..]);
    assert all[..valid] + all[valid..] == all;
  }

  /** No step of the conversion is taken apart by a flush: the earliest comes five bytes behind the last good text. */
  ghost predicate SafeToFlush(w: Bytes) {
    forall p :: ValidUpTo(w) + MAX_CARRY < p <= |w| ==> UnitBoundary(w, p)
  }

  /** A flush that starts from a boundary comes late. */
  lemma FlushIsLate(w: Bytes, c: nat, r: nat)
    requires c <= r <= |w| && UnitBoundary(w, c) && Remainder(w[c..r]) > MAX_CARRY
    ensures r > ValidUpTo(w) + MAX_CARRY
  {
    hide ValidUpTo, UnitBoundary;
    var v := ValidUpTo(w);
    if c <= v {
      var rest := w[c..];
      ValidFromBoundary(w, c);
      ValidPrefixIsValid(rest);
      if r <= v {
        assert rest[..v - c][..r - c] == w[c..r];
        CutOfValid(rest[..v - c], r - c);
      } else {
        ValidUpToAppend(rest[..v - c], w[v..r]);
        assert rest[..v - c] + w[v..r] == w[c..r];
      }
    }
  }

  /** One call from a boundary `c` on converts up to a boundary again. */
  lemma FeedStopsAtBoundary(w: Bytes, c: nat, r: nat, next: nat)
    requires c <= r <= next <= |w| && UnitBoundary(w, c) && SafeToFlush(w)
    ensures var fed := Feed(w[c..r], w[r..next]);
            |fed.pending| <= next - c && UnitBoundary(w, next - |fed.pending|) && fed.pending == w[next - |fed.pending|..next]
  {
    hide ValidUpTo, UnitBoundary;
    var all := w[c..next];
    assert w[c..r] + w[r..next] == all;
    var valid := ValidUpTo(all);
    ValidPrefixIsValid(all);
    assert w[c..c + valid] == all[..valid];
    BoundaryAfterValid(w, c, valid);
    if |all| - valid > MAX_CARRY {
      FlushIsLate(w, c, next);
    }
  }

  /** Of the first bytes of `w`, read as `chunks`, all but the carry is converted as in `w` alone. */
  ghost predicate InStep(w: Bytes, chunks: seq<Bytes>) {
    var read, pending := Flatten(chunks), FeedAll(chunks).pending;
    && read <= w && |pending| <= |read| && pending == w[|read| - |pending|..|read|]
    && UnitBoundary(w, |read| - |pending|)
    && Render(FeedAll(chunks).segments) + Lossy(pending) == Lossy(read)
  }

  lemma {:induction false} StaysInStep(w: Bytes, chunks: seq<Bytes>)
    requires SafeToFlush(w) && Flatten(chunks) <= w
    ensures InStep(w, chunks)
    decreases |chunks|
  {
    LossyOfNothing();
    if chunks != [] {
      var front, last := chunks[..|chunks| - 1], chunks[|chunks| - 1];
      assert chunks == front + [last];
      FlattenSnoc(front, last);
      StaysInStep(w, front);
      ReadStaysInStep(w, front, last);
    }
  }

  lemma ReadStaysInStep(w: Bytes, front: seq<Bytes>, last: Bytes)
    requires SafeToFlush(w) && InStep(w, front) && Flatten(front) + last <= w
    requires Flatten(front + [last]) == Flatten(front) + last
    ensures InStep(w, front + [last])
  {
    hide ValidUpTo, UnitBoundary, Lossy, Render, Feed, FeedAll, Flatten, SafeToFlush;
    var read, before := Flatten(front), FeedAll(front);
    var c, r, next := |read| - |before.pending|, |read|, |read + last|;
    var step := Feed(before.pending, last);
    FeedAllSnoc(front, last);
    assert last == w[r..next];
    FeedStopsAtBoundary(w, c, r, next);
    RenderAppend(before.segments, step.segments);
    FeedConverts(before.pending, last);
    ConvertFrom(w, c, next);
    ConvertFrom(w, c, r);
    assert before.pending + last == w[c..next] && read + last == w[..next] && read == w[..r];
    JoinConverted(Render(before.segments), Lossy(w[..c]), Lossy(before.pending),
                  Render(step.segments), Lossy(step.pending), Lossy(w[c..next]));
  }

  lemma ConvertFrom(w: Bytes, c: nat, n: nat)
    requires c <= n <= |w| && UnitBoundary(w, c)
    ensures Lossy(w[..n]) == Lossy(w[..c]) + Lossy(w[c..n])
  {
    UnitBoundaryOfPrefix(w, c, n);
    LossySplits(w[..n], c);
    assert w[..n][..c] == w[..c] && w[..n][c..] == w[c..n];
  }

  lemma JoinConverted(done: Bytes, front: Bytes, carry: Bytes, step: Bytes, pending: Bytes, all: Bytes)
    requires done + carry == front + carry && step + pending == all
    ensures (done + step) + pending == front + all
  {
    assert done == (done + carry)[..|done|] && front == (front + carry)[..|front|];
    Associate(done, step, pending);
  }

  lemma StreamedIsConverted(chunks: seq<Bytes>)
    ensures Streamed(chunks) == Render(FeedAll(chunks).segments) + Lossy(FeedAll(chunks).pending)
  {
    var fed := FeedAll(chunks);
    RenderAppend(fed.segments, FinishSegments(fed.pending));
    RenderOne(fed.pending);
    LossyOfNothing();
  }

  /** A flush at a place that is not between two steps puts out more than the whole converted at once. */
  lemma FlushInsideUnitShows(w: Bytes, p: nat)
    requires ValidUpTo(w) + MAX_CARRY < p <= |w| && !UnitBoundary(w, p)
    ensures |Streamed([w[..p], w[p..]])| > |Lossy(w)|
  {
    var head, tail := w[..p], w[p..];
    FlushedAtOnce(w, p);
    FeedAllSnoc([], head);
    FeedAllSnoc([head], tail);
    assert [] + [head] == [head] && [head] + [tail] == [head, tail];
    var first, second := Feed([], head), Feed([], tail);
    assert [] + first.segments == first.segments;
    assert [] + head == head && [] + tail == tail;
    FeedConverts([], head);
    FeedConverts([], tail);
    StreamedIsConverted([head, tail]);
    RenderAppend(first.segments, second.segments);
    LossyOfNothing();
    CutInsideUnitGrows(w, p);
  }

  lemma FlushedAtOnce(w: Bytes, p: nat)
    requires ValidUpTo(w) + MAX_CARRY < p <= |w|
    ensures Feed([], w[..p]).pending == []
  {
    assert [] + w[..p] == w[..p];
    ValidUpToOfPrefix(w, p);
  }

  /**
    Exactly when the cutting of an input into reads cannot be observed: every place from five
    bytes behind its well-formed front on lies between two steps of the lossy conversion.
   */
  lemma ChunkingNotObservableIff(w: Bytes)
    ensures (forall chunks: seq<Bytes> | Flatten(chunks) == w :: Streamed(chunks) == Lossy(w)) <==> SafeToFlush(w)
  {
    hide ValidUpTo, UnitBoundary, Lossy, Flatten, Streamed;
    if SafeToFlush(w) {
      forall chunks: seq<Bytes> | Flatten(chunks) == w
        ensures Streamed(chunks) == Lossy(w)
      {
        StaysInStep(w, chunks);
        StreamedIsConverted(chunks);
      }
    } else {
      var p :| ValidUpTo(w) + MAX_CARRY < p <= |w| && !UnitBoundary(w, p);
      var chunks := [w[..p], w[p..]];
      FlushInsideUnitShows(w, p);
      FlattenOfTwo(w[..p], w[p..]);
      assert Flatten(chunks) == w;
      assert Streamed(chunks) != Lossy(w);
    }
  }

  lemma FlattenOfTwo(a: Bytes, b: Bytes)
    ensures Flatten([a, b]) == a + b
  {
    FlattenSnoc([], a);
    FlattenSnoc([a], b);
    assert [] + [a] == [a] && [a] + [b] == [a, b] && [] + a == a;
  }

  /**
    In particular no cutting can be observed as long as at most four bytes follow the last whole
    character.
   */
  lemma {:induction false} ChunkingNotObservable(chunks: seq<Bytes>)
    requires Remainder(Flatten(chunks)) <= MAX_CARRY
    ensures Streamed(chunks) == Lossy(Flatten(chunks))
  {
    ChunkingNotObservableIff(Flatten(chunks));
  }

  /**
    For well-formed text, any cutting reproduces the text, nothing is carried at the end,
    and no malformed segment was ever converted (the flush of more than four bytes is not taken).
   */
  lemma ChunkIndependence(chunks: seq<Bytes>)
    requires Valid(Flatten(chunks))
    ensures Streamed(chunks) == Flatten(chunks)
    ensures FeedAll(chunks).pending == []
    ensures forall s :: s in AllSegments(chunks) ==> Valid(s)
  {
    ChunkingNotObservable(chunks);
    LossyOfValid(Flatten(chunks));
    CarryIsUnfinishedEnd(chunks);
  }

  /** For example, a flush can separate the two bytes of a real character. */
  lemma FlushCanSplitCharacter()
    ensures var head: Bytes := [0xFF, 0xFF, 0xFF, 0xFF, 0xC3];
            Streamed([head, [0xA9]]) != Streamed([head + [0xA9]])
  {
    var head: Bytes := [0xFF, 0xFF, 0xFF, 0xFF, 0xC3];
    var w := head + [0xA9];
    assert CharLen(w) == 0 && w[..5] == head && w[5..] == [0xA9];
    JunkThenCharacter(w);
    FlushInsideUnitShows(w, 5);
    StreamedWhole(w);
  }

  lemma JunkThenCharacter(w: Bytes)
    requires w == [0xFF, 0xFF, 0xFF, 0xFF, 0xC3, 0xA9]
    ensures !UnitBoundary(w, 5)
  {
    assert UnitLen(w) == 1 && UnitLen(w[1..]) == 1 && UnitLen(w[2..]) == 1 && UnitLen(w[3..]) == 1;
    assert w[1..][1..] == w[2..] && w[2..][1..] == w[3..] && w[3..][1..] == w[4..];
    assert CharLen(w[4..]) == 2;
    assert !UnitBoundary(w[4..], 1);
    assert !UnitBoundary(w[3..], 2);
    assert !UnitBoundary(w[2..], 3);
  }

  lemma StreamedWhole(chunk: Bytes)
    ensures Streamed([chunk]) == Lossy(chunk)
  {
    FeedAllSnoc([], chunk);
    assert [] + [chunk] == [chunk] && [] + chunk == chunk;
    FeedConverts([], chunk);
    StreamedIsConverted([chunk]);
    assert [] + Feed([], chunk).segments == Feed([], chunk).segments;
  }
}
