/**
  The rolling output buffer and the token limiter of exec_output.rs. Text is a `String`,
  modelled by its (well-formed) UTF-8 bytes.
 */
module RollingBuffer {
  import opened Basics
  import opened Utf8

  function Ascii(text: string): (b: Bytes)
    requires forall i :: 0 <= i < |text| ==> text[i] as int < 0x80
    ensures |b| == |text|
    ensures forall i :: 0 <= i < |b| ==> b[i] == text[i] as int < 0x80
  {
    seq(|text|, i requires 0 <= i < |text| => text[i] as int)
  }

  const OUTPUT_MARKER: Bytes := Ascii("...[output truncated]...\n")

  const TOKEN_MARKER: Bytes := Ascii("...[token limit]...\n")

  /** `estimate_tokens`, a function of the byte length alone. */
  function EstimateTokens(length: nat): nat {
    if length / 4 >= 1 then length / 4 else 1
  }

  /** The character boundary `tail_at` stops on: the last one not after `at`. */
  function TailStart(s: Bytes, at: nat): (start: nat)
    requires at <= |s|
    ensures start <= at && IsBoundary(s, start)
    ensures forall i :: start < i <= at ==> !IsBoundary(s, i)
  {
    if at == 0 || IsBoundary(s, at) then at else TailStart(s, at - 1)
  }

  /** The tail of `s` with at least `keep` bytes (all of it when shorter). */
  function Tail(s: Bytes, keep: nat): Bytes {
    s[TailStart(s, if keep <= |s| then |s| - keep else 0)..]
  }

  function Pushed(data: Bytes, maxBytes: nat, chunk: Bytes): Bytes {
    var all := data + chunk;
    if chunk != [] && |all| > maxBytes then OUTPUT_MARKER + Tail(all, maxBytes / 2) else all
  }

  /** Bytes kept by the token limiter, over exact rationals: floor of length * (max / estimate). */
  function TokenKeep(length: nat, maxTokens: nat): nat {
    length * maxTokens / EstimateTokens(length)
  }

  function Truncated(data: Bytes, maxTokens: nat): Bytes {
    if EstimateTokens(|data|) <= maxTokens then data
    else TOKEN_MARKER + Tail(data, TokenKeep(|data|, maxTokens))
  }

  class OutputBuffer {
    const maxBytes: nat
    var data: Bytes

    constructor (maxBytes: nat)
      ensures this.maxBytes == maxBytes && data == []
    {
      this.maxBytes := maxBytes;
      data := [];
    }

    method Push(chunk: Bytes)
      modifies this
      ensures data == Pushed(old(data), maxBytes, chunk)
    {
      if chunk == [] {
        assert data + chunk == data;
        return;
      }
      data := data + chunk;
      if |data| > maxBytes {
        var keep := maxBytes / 2;
        var tail := TailAt(data, keep);
        data := OUTPUT_MARKER + tail;
      }
    }

    method Snapshot() returns (text: Bytes)
      ensures text == data
    {
      text := data;
    }

    method TruncateToTokens(maxTokens: nat)
      modifies this
      ensures data == Truncated(old(data), maxTokens)
    {
      var est := EstimateTokens(|data|);
      if est <= maxTokens {
        return;
      }
      var keep := |data| * maxTokens / est;
      var tail := TailAt(data, keep);
      data := TOKEN_MARKER + tail;
    }
  }

  method TailAt(s: Bytes, keep: nat) returns (tail: Bytes)
    ensures tail == Tail(s, keep)
  {
    var start: nat := if keep <= |s| then |s| - keep else 0;
    ghost var at: nat := start;
    while start > 0 && !IsBoundary(s, start)
      invariant start <= at <= |s|
      invariant TailStart(s, at) == TailStart(s, start)
    {
      start := start - 1;
    }
    tail := s[start..];
  }

  // ------------------------------------------------------------------- tails

  lemma {:induction false} AsciiIsValid(b: Bytes)
    requires forall i :: 0 <= i < |b| ==> b[i] < 0x80
    ensures Valid(b)
  {
    if b != [] {
      assert CharLen(b) == 1;
      AsciiIsValid(b[1..]);
    }
  }

  lemma MarkersAreValid()
    ensures Valid(OUTPUT_MARKER) && |OUTPUT_MARKER| == 25
    ensures Valid(TOKEN_MARKER) && |TOKEN_MARKER| == 20
  {
    OutputMarkerIsAscii();
    TokenMarkerIsAscii();
    AsciiIsValid(OUTPUT_MARKER);
    AsciiIsValid(TOKEN_MARKER);
  }

  lemma OutputMarkerIsAscii()
    ensures |OUTPUT_MARKER| == 25 && forall i :: 0 <= i < 25 ==> OUTPUT_MARKER[i] < 0x80
  {
    assert |"...[output truncated]...\n"| == 25;
  }

  lemma TokenMarkerIsAscii()
    ensures |TOKEN_MARKER| == 20 && forall i :: 0 <= i < 20 ==> TOKEN_MARKER[i] < 0x80
  {
    assert |"...[token limit]...\n"| == 20;
  }

  /** Four adjacent positions of well-formed text contain a boundary. */
  lemma {:induction false} TailStartIsNear(s: Bytes, at: nat)
    requires Valid(s) && at <= |s|
    ensures at - TailStart(s, at) <= 3
    decreases |s|
  {
    hide Valid, CharLen;
    if at > 0 {
      var n := CharLen(s);
      ValidBegins(s);
      if at < n {
        assert at <= 3;
      } else {
        TailStartIsNear(s[n..], at - n);
        BoundaryInRest(s, n, at - n - TailStart(s[n..], at - n), at);
      }
    }
  }

  /** A boundary of the rest of a text, after its first character, is one of the text. */
  lemma BoundaryInRest(s: Bytes, n: nat, back: nat, at: nat)
    requires Valid(s) && n == CharLen(s) > 0 && n <= at - back <= at <= |s|
    requires IsBoundary(s[n..], at - back - n)
    ensures TailStart(s, at) >= at - back
  {
    var i := at - back;
    assert IsBoundary(s, i) by {
      if i == n < |s| {
        assert ValidUpTo(s) == n + ValidUpTo(s[n..]);
        FirstByteNotTail(s[n..]);
      }
    }
  }

  lemma TailOfValid(s: Bytes, keep: nat)
    requires Valid(s)
    ensures Valid(Tail(s, keep))
    ensures Min(keep, |s|) <= |Tail(s, keep)| <= keep + 3
  {
    var at := if keep <= |s| then |s| - keep else 0;
    BoundarySplits(s, TailStart(s, at));
    TailStartIsNear(s, at);
  }

  /** A tail no longer than the second of two texts never reaches back into the first. */
  lemma TailStaysInSecond(a: Bytes, b: Bytes, keep: nat)
    requires Valid(a) && Valid(b) && keep <= |b|
    ensures TailStart(a + b, |a + b| - keep) == |a| + TailStart(b, |b| - keep)
    ensures Tail(a + b, keep) == Tail(b, keep)
  {
    var at := |b| - keep;
    var start := TailStart(b, at);
    forall i | 0 <= i < |b|
      ensures IsBoundary(a + b, |a| + i) <==> IsBoundary(b, i)
    {
      BoundaryInSecond(a, b, i);
    }
    assert IsBoundary(a + b, |a| + start);
    forall i | |a| + start < i <= |a| + at
      ensures !IsBoundary(a + b, i)
    {
      assert !IsBoundary(b, i - |a|);
    }
    assert (a + b)[|a| + start..] == b[start..];
  }

  lemma BoundaryInSecond(a: Bytes, b: Bytes, i: nat)
    requires Valid(a) && Valid(b) && i < |b|
    ensures IsBoundary(a + b, |a| + i) <==> IsBoundary(b, i)
  {
    if i == 0 {
      ValidAppend(a, b);
      assert (a + b)[..|a|] == a;
      BoundarySplits(a + b, |a|);
    }
  }

  // ---------------------------------------------------- the buffer and its history

  /** The buffer after pushing `chunks` one by one onto `data`. */
  function PushAll(data: Bytes, maxBytes: nat, chunks: seq<Bytes>): Bytes {
    if chunks == [] then data
    else Pushed(PushAll(data, maxBytes, chunks[..|chunks| - 1]), maxBytes, chunks[|chunks| - 1])
  }

  /** What is left of a history once something was dropped: one marker, then a suffix. */
  ghost predicate MarkedSuffix(data: Bytes, history: Bytes, least: nat) {
    exists from: nat :: from <= |history| && IsBoundary(history, from) && |history| - from >= least
                        && data == OUTPUT_MARKER + history[from..]
  }

  /** The rolling buffer as a view of everything ever pushed. */
  ghost predicate Refines(data: Bytes, history: Bytes, maxBytes: nat) {
    if |history| <= maxBytes then data == history
    else MarkedSuffix(data, history, maxBytes / 2)
  }

  lemma TailIsSuffix(history: Bytes, from: nat, keep: nat)
    requires Valid(history) && from <= |history| && IsBoundary(history, from)
    requires keep <= |history| - from
    ensures MarkedSuffix(OUTPUT_MARKER + Tail(history[from..], keep), history, keep)
  {
    var rest := history[from..];
    BoundarySplits(history, from);
    var start := TailStart(rest, |rest| - keep);
    assert rest[start..] == history[from + start..];
    assert IsBoundary(history, from + start);
  }

  lemma PushKeepsRefinement(data: Bytes, history: Bytes, maxBytes: nat, chunk: Bytes)
    requires Valid(history) && Valid(chunk)
    requires Refines(data, history, maxBytes)
    ensures Refines(Pushed(data, maxBytes, chunk), history + chunk, maxBytes)
  {
    var keep := maxBytes / 2;
    ValidAppend(history, chunk);
    if chunk == [] {
      assert history + chunk == history && data + chunk == data;
    } else if |history| <= maxBytes {
      if |history + chunk| > maxBytes {
        TailIsSuffix(history + chunk, 0, keep);
        assert (history + chunk)[0..] == data + chunk;
      }
    } else {
      var from: nat :| from <= |history| && IsBoundary(history, from) && |history| - from >= keep
                       && data == OUTPUT_MARKER + history[from..];
      PushOnMarked(history, from, maxBytes, chunk);
    }
  }

  lemma PushOnMarked(history: Bytes, from: nat, maxBytes: nat, chunk: Bytes)
    requires Valid(history) && Valid(chunk) && chunk != [] && from <= |history| && IsBoundary(history, from)
    requires |history| - from >= maxBytes / 2
    ensures MarkedSuffix(Pushed(OUTPUT_MARKER + history[from..], maxBytes, chunk), history + chunk, maxBytes / 2)
  {
    hide Valid, Tail, IsBoundary;
    var both := history + chunk;
    ValidAppend(history, chunk);
    BoundaryStays(history, from, chunk);
    assert history[from..] + chunk == both[from..];
    assert (OUTPUT_MARKER + history[from..]) + chunk == OUTPUT_MARKER + both[from..];
    if |OUTPUT_MARKER + both[from..]| > maxBytes {
      CutAfterMarker(both, from, maxBytes / 2);
    } else {
      assert from <= |both| && |both| - from >= maxBytes / 2;
    }
  }

  lemma CutAfterMarker(history: Bytes, from: nat, keep: nat)
    requires Valid(history) && from <= |history| && IsBoundary(history, from) && |history| - from >= keep
    ensures MarkedSuffix(OUTPUT_MARKER + Tail(OUTPUT_MARKER + history[from..], keep), history, keep)
  {
    MarkersAreValid();
    BoundarySplits(history, from);
    TailStaysInSecond(OUTPUT_MARKER, history[from..], keep);
    TailIsSuffix(history, from, keep);
  }

  lemma BoundaryStays(history: Bytes, i: nat, chunk: Bytes)
    requires Valid(history) && Valid(chunk) && i <= |history| && IsBoundary(history, i)
    ensures IsBoundary(history + chunk, i)
  {
    BoundarySplits(history, i);
    ValidAppend(history, chunk);
    assert (history + chunk)[..i] == history[..i];
    BoundarySplits(history + chunk, i);
  }

  lemma {:induction false} FlattenIsValid(chunks: seq<Bytes>)
    requires forall c :: c in chunks ==> Valid(c)
    ensures Valid(Flatten(chunks))
  {
    if chunks != [] {
      FlattenIsValid(chunks[1..]);
      ValidAppend(chunks[0], Flatten(chunks[1..]));
    }
  }

  /**
    After any pushes the snapshot is the whole history while that fits, and afterwards one
    marker followed by a character-aligned suffix of the history of at least half the
    capacity: no earlier marker is ever left inside the kept text.
   */
  lemma {:induction false} SnapshotRefinesHistory(maxBytes: nat, chunks: seq<Bytes>)
    requires forall c :: c in chunks ==> Valid(c)
    ensures Refines(PushAll([], maxBytes, chunks), Flatten(chunks), maxBytes)
  {
    if chunks != [] {
      var front, last := chunks[..|chunks| - 1], chunks[|chunks| - 1];
      assert chunks == front + [last];
      SnapshotRefinesHistory(maxBytes, front);
      FlattenSnoc(front, last);
      FlattenIsValid(front);
      PushKeepsRefinement(PushAll([], maxBytes, front), Flatten(front), maxBytes, last);
    }
  }

  /** What one push leaves: everything while it fits, else one marker and a suffix of half the capacity, to within a character. */
  lemma PushKeepsHalf(data: Bytes, maxBytes: nat, chunk: Bytes)
    requires Valid(data + chunk) && chunk != []
    ensures var all := data + chunk;
            var after := Pushed(data, maxBytes, chunk);
            if |all| <= maxBytes then after == all
            else
              && |after| >= 25 && after[..25] == OUTPUT_MARKER && maxBytes / 2 <= |after[25..]| <= maxBytes / 2 + 3
              && |after[25..]| <= |all| && after[25..] == all[|all| - |after[25..]|..] && Valid(after[25..])
  {
    hide Valid, IsBoundary;
    MarkersAreValid();
    TailOfValid(data + chunk, maxBytes / 2);
  }

  // ----------------------------------------------------------- the length bound

  lemma {:induction false} PushAllIsValid(maxBytes: nat, chunks: seq<Bytes>)
    requires forall c :: c in chunks ==> Valid(c)
    ensures Valid(PushAll([], maxBytes, chunks))
    ensures |PushAll([], maxBytes, chunks)| <= maxBytes || |PushAll([], maxBytes, chunks)| <= maxBytes / 2 + 28
  {
    if chunks != [] {
      var front, last := chunks[..|chunks| - 1], chunks[|chunks| - 1];
      PushAllIsValid(maxBytes, front);
      var all := PushAll([], maxBytes, front) + last;
      ValidAppend(PushAll([], maxBytes, front), last);
      MarkersAreValid();
      TailOfValid(all, maxBytes / 2);
      ValidAppend(OUTPUT_MARKER, Tail(all, maxBytes / 2));
    }
  }

  /** Fifty-six bytes of four-byte characters (U+1F600), then `ascii` letters. */
  function Smileys(ascii: nat): Bytes {
    seq(56 + ascii, i requires 0 <= i < 56 + ascii =>
      if i >= 56 then 0x61 else if i % 4 == 0 then 0xF0
      else if i % 4 == 1 then 0x9F else if i % 4 == 2 then 0x98 else 0x80)
  }

  lemma {:induction false} SmileysAreValid(ascii: nat, at: nat)
    requires at % 4 == 0 && at <= 56
    ensures Valid(Smileys(ascii)[at..])
    decreases 56 - at
  {
    var s := Smileys(ascii);
    if at == 56 {
      AsciiIsValid(s[at..]);
    } else {
      SmileyAt(s[at..]);
      assert s[at..][4..] == s[at + 4..];
      SmileysAreValid(ascii, at + 4);
    }
  }

  lemma SmileyAt(s: Bytes)
    requires |s| >= 4 && s[0] == 0xF0 && s[1] == 0x9F && s[2] == 0x98 && s[3] == 0x80
    ensures CharLen(s) == 4
  {
  }

  /** Three bytes past a boundary the tail has to reach back to it. */
  lemma SmileyTail(ascii: nat, keep: nat)
    requires 0 < keep < 28 && ascii == (keep + 3) % 4
    ensures |Tail(Smileys(ascii), keep)| >= keep + 3
  {
    var s := Smileys(ascii);
    var at := |s| - keep;
    assert at % 4 == 3 && at < 56;
    assert IsTail(s[at]) && IsTail(s[at - 1]) && IsTail(s[at - 2]);
    assert !IsBoundary(s, at) && !IsBoundary(s, at - 1) && !IsBoundary(s, at - 2);
    assert TailStart(s, at) <= at - 3;
  }

  /** A buffer below the threshold overflows on one push. */
  lemma SmallBufferOverflows(maxBytes: nat) returns (chunk: Bytes)
    requires maxBytes < 55
    ensures Valid(chunk) && |PushAll([], maxBytes, [chunk])| > maxBytes
  {
    var keep := maxBytes / 2;
    var ascii := (keep + 3) % 4;
    chunk := Smileys(ascii);
    SmileysAreValid(ascii, 0);
    assert chunk[0..] == chunk;
    MarkersAreValid();
    PushOnce(maxBytes, chunk);
    if keep > 0 {
      SmileyTail(ascii, keep);
    }
  }

  lemma PushOnce(maxBytes: nat, chunk: Bytes)
    ensures PushAll([], maxBytes, [chunk]) == Pushed([], maxBytes, chunk)
    ensures |chunk| > maxBytes ==> Pushed([], maxBytes, chunk) == OUTPUT_MARKER + Tail(chunk, maxBytes / 2)
  {
    assert [chunk][..0] == [] && [] + chunk == chunk;
  }

  /** The buffer keeps within its capacity on every sequence of pushes exactly from 55 bytes on. */
  lemma CapacityHoldsIff(maxBytes: nat)
    ensures (forall chunks: seq<Bytes> | (forall c :: c in chunks ==> Valid(c)) ::
               |PushAll([], maxBytes, chunks)| <= maxBytes)
            <==> maxBytes >= 55
  {
    if maxBytes >= 55 {
      forall chunks: seq<Bytes> | forall c :: c in chunks ==> Valid(c)
        ensures |PushAll([], maxBytes, chunks)| <= maxBytes
      {
        PushAllIsValid(maxBytes, chunks);
      }
    } else {
      var chunk := SmallBufferOverflows(maxBytes);
      assert forall c :: c in [chunk] ==> Valid(c);
      assert |PushAll([], maxBytes, [chunk])| > maxBytes;
    }
  }

  // ------------------------------------------------------------- the token limit

  /** The exact number of bytes the ratio keeps: four a token, plus a share of the odd bytes. */
  lemma TokenKeepIs(length: nat, maxTokens: nat)
    requires EstimateTokens(length) > maxTokens
    ensures 4 * maxTokens <= TokenKeep(length, maxTokens) <= 4 * maxTokens + 2
    ensures TokenKeep(length, maxTokens) <= 4 * maxTokens + length % 4
    ensures TokenKeep(length, maxTokens) <= length
  {
    if length < 4 {
      assert maxTokens == 0;
    } else {
      var q, r, m := length / 4, length % 4, maxTokens;
      assert length == 4 * q + r;
      calc {
        length * m;
        (4 * q + r) * m;
        { Distribute(4 * q, r, m); }
        (4 * q) * m + r * m;
        { Shuffle(q, m); }
        (4 * m) * q + r * m;
      }
      ShareBelow(r, m, q);
      DivideSum(4 * m, q, r * m);
    }
  }

  lemma Distribute(a: nat, b: nat, c: nat)
    ensures (a + b) * c == a * c + b * c
  {
  }

  lemma Shuffle(q: nat, m: nat)
    ensures (4 * q) * m == (4 * m) * q
  {
  }

  /** A share of less than the whole of `r <= 3` odd bytes is at most two, and at most `r`. */
  lemma ShareBelow(r: nat, m: nat, q: nat)
    requires r <= 3 && m < q
    ensures 0 <= r * m / q <= 2 && r * m / q <= r
  {
    if r == 0 {
      DivUnique(0, q, 0, 0);
    } else {
      MulMono(r, m + 1, q);
      DivLess(r * m, q, r);
    }
  }

  lemma DivLess(x: nat, q: nat, k: nat)
    requires q > 0 && x < k * q
    ensures 0 <= x / q < k
  {
    var d := x / q;
    assert x == q * d + x % q;
    if d >= k {
      MulMono(q, k, d);
      assert false;
    }
  }

  lemma MulMono(q: nat, a: nat, b: nat)
    requires a <= b
    ensures q * a <= q * b
  {
  }

  lemma DivideSum(a: nat, q: nat, x: nat)
    requires q > 0
    ensures (a * q + x) / q == a + x / q
  {
    var d := (a * q + x) / q;
    assert x == q * (x / q) + x % q;
    assert a * q + x == q * (a + x / q) + x % q by { Distribute(a, x / q, q); }
    DivUnique(a * q + x, q, a + x / q, x % q);
  }

  lemma DivUnique(n: nat, q: nat, d: nat, r: nat)
    requires q > 0 && n == q * d + r && r < q
    ensures n / q == d
  {
    var e := n / q;
    assert n == q * e + n % q;
    if e < d {
      MulMono(q, e + 1, d);
    } else if e > d {
      MulMono(q, d + 1, e);
    }
  }

  /**
    Cutting to `maxTokens` keeps a well-formed suffix of 4m to 4m+5 bytes behind the marker.
    The result is therefore estimated at m+5 or m+6 tokens: whenever it cuts, the limiter
    ends above the limit it was asked for.
   */
  lemma TokenLimitArithmetic(data: Bytes, maxTokens: nat)
    requires Valid(data) && EstimateTokens(|data|) > maxTokens
    ensures var out := Truncated(data, maxTokens);
            && |TOKEN_MARKER| <= |out| && out[..|TOKEN_MARKER|] == TOKEN_MARKER
            && (var kept := out[|TOKEN_MARKER|..];
                && Valid(kept)
                && 4 * maxTokens <= |kept| <= 4 * maxTokens + 5
                && |kept| <= |data| && kept == data[|data| - |kept|..])
            && maxTokens + 5 <= EstimateTokens(|out|) <= maxTokens + 6
  {
    TokenKeepIs(|data|, maxTokens);
    TailOfValid(data, TokenKeep(|data|, maxTokens));
    MarkersAreValid();
    var out := Truncated(data, maxTokens);
    assert out[|TOKEN_MARKER|..] == Tail(data, TokenKeep(|data|, maxTokens));
  }

  /** The limiter ends within its limit exactly when it had nothing to cut. */
  lemma WithinLimitIff(data: Bytes, maxTokens: nat)
    requires Valid(data)
    ensures EstimateTokens(|Truncated(data, maxTokens)|) <= maxTokens <==> EstimateTokens(|data|) <= maxTokens
    ensures EstimateTokens(|data|) <= maxTokens ==> Truncated(data, maxTokens) == data
  {
    if EstimateTokens(|data|) > maxTokens {
      TokenLimitArithmetic(data, maxTokens);
    }
  }

  /** Text of the buffer that begins with a marker put there earlier. */
  predicate IsMarker(marker: Bytes) {
    marker == OUTPUT_MARKER || marker == TOKEN_MARKER
  }

  /** A cut left a piece of the old marker, as if it were output, in front of all that followed it. */
  ghost predicate KeepsOldMarker(marker: Bytes, kept: Bytes, maxTokens: nat) {
    exists i :: 0 <= i < |marker| && Truncated(marker + kept, maxTokens) == TOKEN_MARKER + (marker[i..] + kept)
  }

  /**
    A limit that cuts a buffer beginning with a marker keeps a piece of that marker exactly when it
    keeps more bytes than follow the marker; otherwise it cuts inside what follows.
   */
  lemma OldMarkerSurvivesIff(marker: Bytes, kept: Bytes, maxTokens: nat)
    requires IsMarker(marker) && Valid(kept) && EstimateTokens(|marker + kept|) > maxTokens
    ensures KeepsOldMarker(marker, kept, maxTokens) <==> TokenKeep(|marker + kept|, maxTokens) > |kept|
    ensures TokenKeep(|marker + kept|, maxTokens) <= |kept| ==>
              Truncated(marker + kept, maxTokens) == TOKEN_MARKER + Tail(kept, TokenKeep(|marker + kept|, maxTokens))
  {
    hide TokenKeep, EstimateTokens, Tail;
    if TokenKeep(|marker + kept|, maxTokens) <= |kept| {
      CutBehindMarker(marker, kept, maxTokens);
    } else {
      var i := CutInMarker(marker, kept, maxTokens);
    }
  }

  lemma MarkersAreAscii(marker: Bytes)
    requires IsMarker(marker)
    ensures Valid(marker) && forall i :: 0 <= i < |marker| ==> marker[i] < 0x80
  {
    MarkersAreValid();
    OutputMarkerIsAscii();
    TokenMarkerIsAscii();
  }

  lemma CutBehindMarker(marker: Bytes, kept: Bytes, maxTokens: nat)
    requires IsMarker(marker) && Valid(kept) && EstimateTokens(|marker + kept|) > maxTokens
    requires TokenKeep(|marker + kept|, maxTokens) <= |kept|
    ensures Truncated(marker + kept, maxTokens) == TOKEN_MARKER + Tail(kept, TokenKeep(|marker + kept|, maxTokens))
    ensures !KeepsOldMarker(marker, kept, maxTokens)
  {
    hide TokenKeep, EstimateTokens, IsMarker, Valid, TailStart;
    MarkersAreAscii(marker);
    TailStaysInSecond(marker, kept, TokenKeep(|marker + kept|, maxTokens));
    forall i | 0 <= i < |marker|
      ensures Truncated(marker + kept, maxTokens) != TOKEN_MARKER + (marker[i..] + kept)
    {
      assert |TOKEN_MARKER + (marker[i..] + kept)| > |TOKEN_MARKER| + |kept|;
    }
  }

  lemma CutInMarker(marker: Bytes, kept: Bytes, maxTokens: nat) returns (i: nat)
    requires IsMarker(marker) && EstimateTokens(|marker + kept|) > maxTokens
    requires TokenKeep(|marker + kept|, maxTokens) > |kept|
    ensures i < |marker| && i + TokenKeep(|marker + kept|, maxTokens) == |marker + kept|
    ensures Truncated(marker + kept, maxTokens) == TOKEN_MARKER + (marker[i..] + kept)
  {
    hide TokenKeep, EstimateTokens, IsMarker, Valid, Tail;
    var once := marker + kept;
    var keep := TokenKeep(|once|, maxTokens);
    TokenKeepIs(|once|, maxTokens);
    MarkersAreAscii(marker);
    i := |once| - keep;
    assert once[i] == marker[i];
    TailAtAscii(once, keep);
    assert once[i..] == marker[i..] + kept;
  }

  /**
    So after a cut, a further cut at the same limit or a smaller one never keeps a piece of the
    first marker.
   */
  lemma SmallerLimitDropsOldMarker(data: Bytes, first: nat, second: nat)
    requires Valid(data) && EstimateTokens(|data|) > first >= second
    ensures var once := Truncated(data, first);
            var kept := once[|TOKEN_MARKER|..];
            && EstimateTokens(|once|) > second && !KeepsOldMarker(TOKEN_MARKER, kept, second)
            && Truncated(once, second) == TOKEN_MARKER + Tail(kept, TokenKeep(|once|, second))
  {
    TokenLimitArithmetic(data, first);
    MarkersAreValid();
    var once := Truncated(data, first);
    var kept := once[|TOKEN_MARKER|..];
    assert once == TOKEN_MARKER + kept;
    TokenKeepIs(|once|, second);
    OddBytes(|kept|, second);
    OldMarkerSurvivesIff(TOKEN_MARKER, kept, second);
  }

  lemma OddBytes(kept: nat, m: nat)
    requires 4 * m <= kept
    ensures (20 + kept) % 4 <= kept - 4 * m
  {
  }

  lemma RepeatedLimitDropsOldMarker(data: Bytes, maxTokens: nat)
    requires Valid(data) && EstimateTokens(|data|) > maxTokens
    ensures var once := Truncated(data, maxTokens);
            var kept := once[|TOKEN_MARKER|..];
            Truncated(once, maxTokens) == TOKEN_MARKER + Tail(kept, TokenKeep(|once|, maxTokens))
  {
    SmallerLimitDropsOldMarker(data, maxTokens, maxTokens);
  }

  /** Polling again with a larger limit can keep a piece of the first marker as if it were output. */
  lemma LargerLimitKeepsOldMarker(data: Bytes)
    requires |data| == 80 && forall i :: 0 <= i < 80 ==> data[i] < 0x80
    ensures var once := TOKEN_MARKER + data[40..];
            && Truncated(data, 10) == once
            && Truncated(once, 14) == TOKEN_MARKER + (TOKEN_MARKER[4..] + data[40..])
  {
    TailAtAscii(data, 40);
    var once := TOKEN_MARKER + data[40..];
    TokenMarkerIsAscii();
    assert once[4..] == TOKEN_MARKER[4..] + data[40..];
    SecondLimit(once);
  }

  lemma SecondLimit(once: Bytes)
    requires |once| == 60 && once[4] < 0x80
    ensures Truncated(once, 14) == TOKEN_MARKER + once[4..]
  {
    assert TokenKeep(60, 14) == 56;
    TailAtAscii(once, 56);
  }

  lemma TailAtAscii(s: Bytes, keep: nat)
    requires 0 < keep <= |s| && s[|s| - keep] < 0x80
    ensures Tail(s, keep) == s[|s| - keep..]
  {
    assert IsBoundary(s, |s| - keep);
  }
}
