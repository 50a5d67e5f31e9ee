/**
  The worker's pipe framing (isolated_worker.py): a four-byte big-endian length, then the
  pickled body. Pickling is left abstract: payloads are bytes.
 */
module Framing {
  import opened Basics
  import opened Words

  /** Writing a frame fails (OverflowError) for a payload whose length does not fit. */
  function Framed(payload: Bytes): Option<Bytes> {
    if |payload| < U32 then Some(Be32(|payload|) + payload) else None
  }

  predicate Fits(payloads: seq<Bytes>) {
    forall i :: 0 <= i < |payloads| ==> |payloads[i]| < U32
  }

  /** Frames written back to back. */
  function Written(payloads: seq<Bytes>): Bytes
    requires Fits(payloads)
  {
    if payloads == [] then [] else Framed(payloads[0]).value + Written(payloads[1..])
  }

  /** One frame read off a stream that then ends; None is an IncompleteReadError. */
  function FrameOf(data: Bytes): Option<Bytes> {
    if |data| < 4 then None
    else if |data| < 4 + FromBe32(data[..4]) then None
    else Some(data[4..4 + FromBe32(data[..4])])
  }

  datatype Reading = Reading(payloads: seq<Bytes>, undelivered: Bytes)

  /** Reading frames until a read comes up short; a clean end leaves nothing undelivered. */
  function ReadAll(data: Bytes): Reading {
    var frame := FrameOf(data);
    if frame.None? then Reading([], data) else
      var rest := ReadAll(data[4 + |frame.value|..]);
      Reading([frame.value] + rest.payloads, rest.undelivered)
  }

  /** An asyncio reader over bytes that have arrived, followed by end of stream. */
  class StreamReader {
    var buffer: Bytes

    constructor (data: Bytes)
      ensures buffer == data
    {
      buffer := data;
    }

    /** `readexactly`: too few bytes is an error that consumes what there was. */
    method ReadExactly(n: nat) returns (out: Option<Bytes>)
      modifies this
      ensures out == if n <= |old(buffer)| then Some(old(buffer)[..n]) else None
      ensures buffer == if n <= |old(buffer)| then old(buffer)[n..] else []
    {
      if |buffer| < n {
        buffer := [];
        return None;
      }
      out := Some(buffer[..n]);
      buffer := buffer[n..];
    }

    method ReadFrame() returns (payload: Option<Bytes>)
      modifies this
      ensures payload == FrameOf(old(buffer))
      ensures payload.Some? ==> buffer == old(buffer)[4 + |payload.value|..]
      ensures payload.None? ==> buffer == []
    {
      ghost var all := buffer;
      var hdr := ReadExactly(4);
      if hdr.None? {
        return None;
      }
      var n := FromBe32(hdr.value);
      payload := ReadExactly(n);
      assert payload.Some? ==> all[4..][..n] == all[4..4 + n] && all[4..][n..] == all[4 + n..];
    }

    /** The read side of the service loop: frames until the stream gives out. */
    method Serve() returns (payloads: seq<Bytes>)
      modifies this
      ensures payloads == ReadAll(old(buffer)).payloads && buffer == []
    {
      payloads := [];
      while true
        invariant ReadAll(old(buffer)).payloads == payloads + ReadAll(buffer).payloads
        decreases |buffer|
      {
        var frame := ReadFrame();
        if frame.None? {
          return;
        }
        payloads := payloads + [frame.value];
      }
    }
  }

  class StreamWriter {
    var sent: Bytes

    constructor ()
      ensures sent == []
    {
      sent := [];
    }

    method WriteFrame(payload: Bytes) returns (ok: bool)
      modifies this
      ensures ok <==> |payload| < U32
      ensures sent == old(sent) + if ok then Framed(payload).value else []
    {
      ok := |payload| < U32;
      if ok {
        sent := sent + (Be32(|payload|) + payload);
      }
    }
  }

  lemma FrameThenRest(payload: Bytes, rest: Bytes)
    requires |payload| < U32
    ensures var data := Framed(payload).value + rest;
            FrameOf(data) == Some(payload) && data[4 + |payload|..] == rest
  {
  }

  /** A cut inside the first frame reads as no frame at all. */
  lemma CutFrame(payload: Bytes, rest: Bytes, k: nat)
    requires |payload| < U32 && k < 4 + |payload|
    ensures FrameOf((Framed(payload).value + rest)[..k]) == None
  {
  }

  lemma WrittenCons(first: Bytes, rest: seq<Bytes>)
    requires |first| < U32 && Fits(rest)
    ensures Fits([first] + rest) && Written([first] + rest) == Framed(first).value + Written(rest)
  {
  }

  /**
    The first `k` bytes written read as the first `j` payloads, and what is undelivered is the
    start of the next frame: empty exactly when the cut falls between frames.
   */
  ghost predicate ReadsAs(payloads: seq<Bytes>, k: nat, j: nat)
    requires Fits(payloads) && k <= |Written(payloads)| && j <= |payloads|
  {
    var reading := ReadAll(Written(payloads)[..k]);
    && reading.payloads == payloads[..j]
    && Written(payloads)[..k] == Written(payloads[..j]) + reading.undelivered
    && |reading.undelivered| < if j < |payloads| then 4 + |payloads[j]| else 1
  }

  lemma ReadsAsStep(first: Bytes, rest: seq<Bytes>, m: nat, i: nat)
    requires |first| < U32 && Fits(rest) && m <= |Written(rest)| && i <= |rest| && ReadsAs(rest, m, i)
    ensures Fits([first] + rest) && 4 + |first| + m <= |Written([first] + rest)|
    ensures ReadsAs([first] + rest, 4 + |first| + m, i + 1)
  {
    var read := Written(rest)[..m];
    WrittenCons(first, rest);
    WrittenCons(first, rest[..i]);
    assert ([first] + rest)[..i + 1] == [first] + rest[..i];
    assert (Framed(first).value + Written(rest))[..4 + |first| + m] == Framed(first).value + read;
    ReadAllOfFrame(first, read);
    Reassociate(Framed(first).value, Written(rest[..i]), ReadAll(read).undelivered, read);
  }

  lemma ReadAllOfFrame(first: Bytes, rest: Bytes)
    requires |first| < U32
    ensures ReadAll(Framed(first).value + rest) ==
            Reading([first] + ReadAll(rest).payloads, ReadAll(rest).undelivered)
  {
    FrameThenRest(first, rest);
  }

  lemma Reassociate(a: Bytes, b: Bytes, c: Bytes, both: Bytes)
    requires both == b + c
    ensures a + both == (a + b) + c
  {
  }

  lemma NoFrameYet(payloads: seq<Bytes>, k: nat)
    requires Fits(payloads) && payloads != [] && k < 4 + |payloads[0]| && k <= |Written(payloads)|
    ensures ReadsAs(payloads, k, 0)
  {
    CutFrame(payloads[0], Written(payloads[1..]), k);
    assert Written(payloads[..0]) == [];
  }

  /**
    Any prefix of what was written reads as a prefix of the payloads, in order, and then comes
    up short: never a wrong payload.
   */
  lemma {:induction false} PrefixReadsPrefix(payloads: seq<Bytes>, k: nat) returns (j: nat)
    requires Fits(payloads) && k <= |Written(payloads)|
    ensures j <= |payloads| && ReadsAs(payloads, k, j)
  {
    hide ReadAll, FrameOf;
    if payloads == [] {
      assert ReadsAs(payloads, k, 0) by { NothingWritten(); }
      return 0;
    }
    var first, rest := payloads[0], payloads[1..];
    if k < 4 + |first| {
      NoFrameYet(payloads, k);
      return 0;
    }
    hide ReadsAs;
    var i := PrefixReadsPrefix(rest, k - (4 + |first|));
    ReadsAsStep(first, rest, k - (4 + |first|), i);
    assert payloads == [first] + rest;
    j := i + 1;
  }

  lemma NothingWritten()
    ensures ReadAll([]) == Reading([], [])
  {
  }

  /** Frames written back to back are read back as the same sequence, with nothing left. */
  lemma {:induction false} FramesRoundTrip(payloads: seq<Bytes>)
    requires Fits(payloads)
    ensures ReadAll(Written(payloads)) == Reading(payloads, [])
  {
    if payloads != [] {
      FramesRoundTrip(payloads[1..]);
      FrameThenRest(payloads[0], Written(payloads[1..]));
    }
  }
}
