/**
  The output buffer of a session that is polled while it runs: `poll_session` applies its token
  limit to the buffer itself, between the reader's pushes.
 */
module PolledBuffer {
  import opened Basics
  import opened Utf8
  import opened RollingBuffer

  datatype Edit = Push(chunk: Bytes) | Limit(maxTokens: nat)

  function Apply(data: Bytes, maxBytes: nat, edit: Edit): Bytes {
    match edit
    case Push(chunk) => Pushed(data, maxBytes, chunk)
    case Limit(maxTokens) => Truncated(data, maxTokens)
  }

  function After(maxBytes: nat, edits: seq<Edit>): Bytes {
    if edits == [] then [] else Apply(After(maxBytes, edits[..|edits| - 1]), maxBytes, edits[|edits| - 1])
  }

  /** Everything pushed. */
  function History(edits: seq<Edit>): Bytes {
    if edits == [] then [] else
      var last := edits[|edits| - 1];
      History(edits[..|edits| - 1]) + if last.Push? then last.chunk else []
  }

  predicate WellFormed(edits: seq<Edit>) {
    forall i :: 0 <= i < |edits| && edits[i].Push? ==> Valid(edits[i].chunk)
  }

  /** A marker, or what a later cut left of one. */
  ghost predicate IsPiece(piece: Bytes) {
    exists marker, i :: IsMarker(marker) && 0 <= i <= |marker| && piece == marker[i..]
  }

  ghost predicate ArePieces(pieces: seq<Bytes>) {
    forall i :: 0 <= i < |pieces| ==> IsPiece(pieces[i])
  }

  /**
    The buffer as a view of the history: all of it, or pieces of markers, the first of them whole,
    and a character-aligned suffix of the history behind them all.
   */
  ghost predicate ShowsFrom(data: Bytes, history: Bytes, pieces: seq<Bytes>, from: nat) {
    && from <= |history| && IsBoundary(history, from) && ArePieces(pieces)
    && data == Flatten(pieces) + history[from..]
    && if pieces == [] then from == 0 else IsMarker(pieces[0])
  }

  ghost predicate Shows(data: Bytes, history: Bytes) {
    exists pieces, from: nat :: ShowsFrom(data, history, pieces, from)
  }

  lemma PieceOfPiece(piece: Bytes, n: nat)
    requires IsPiece(piece) && n <= |piece|
    ensures IsPiece(piece[n..])
  {
    var marker, i :| IsMarker(marker) && 0 <= i <= |marker| && piece == marker[i..];
    assert piece[n..] == marker[i + n..];
  }

  lemma DropFront(a: Bytes, b: Bytes, n: nat)
    requires n <= |a + b|
    ensures (a + b)[n..] == if n <= |a| then a[n..] + b else b[n - |a|..]
  {
  }

  lemma {:induction false} CutPieces(pieces: seq<Bytes>, n: nat) returns (rest: seq<Bytes>)
    requires ArePieces(pieces) && n <= |Flatten(pieces)|
    ensures ArePieces(rest) && Flatten(rest) == Flatten(pieces)[n..]
  {
    if pieces == [] {
      return [];
    }
    hide IsPiece;
    var first := pieces[0];
    DropFront(first, Flatten(pieces[1..]), n);
    if n <= |first| {
      PieceOfPiece(first, n);
      rest := [first[n..]] + pieces[1..];
      assert rest[1..] == pieces[1..];
    } else {
      rest := CutPieces(pieces[1..], n - |first|);
    }
  }

  lemma AddMarker(marker: Bytes, pieces: seq<Bytes>)
    requires IsMarker(marker) && ArePieces(pieces)
    ensures ArePieces([marker] + pieces) && Flatten([marker] + pieces) == marker + Flatten(pieces)
  {
    assert marker == marker[0..];
    assert IsPiece(marker);
    assert ([marker] + pieces)[1..] == pieces;
  }

  lemma CutShows(data: Bytes, history: Bytes, marker: Bytes, keep: nat)
    requires Shows(data, history) && IsMarker(marker)
    ensures Shows(marker + Tail(data, keep), history)
  {
    hide ArePieces, IsMarker, IsBoundary;
    var pieces, from: nat :| ShowsFrom(data, history, pieces, from);
    var start := TailStart(data, if keep <= |data| then |data| - keep else 0);
    if start <= |Flatten(pieces)| {
      CutInPieces(data, history, pieces, from, marker, start);
    } else {
      CutInHistory(data, history, pieces, from, marker, start);
    }
  }

  lemma CutInPieces(data: Bytes, history: Bytes, pieces: seq<Bytes>, from: nat, marker: Bytes, start: nat)
    requires ShowsFrom(data, history, pieces, from) && IsMarker(marker) && start <= |Flatten(pieces)|
    ensures Shows(marker + data[start..], history)
  {
    hide Flatten, IsPiece, IsBoundary;
    var rest := CutPieces(pieces, start);
    AddMarker(marker, rest);
    assert data[start..] == Flatten(rest) + history[from..];
    Associate(marker, Flatten(rest), history[from..]);
    assert ShowsFrom(marker + data[start..], history, [marker] + rest, from);
  }

  lemma CutInHistory(data: Bytes, history: Bytes, pieces: seq<Bytes>, from: nat, marker: Bytes, start: nat)
    requires ShowsFrom(data, history, pieces, from) && IsMarker(marker)
    requires |Flatten(pieces)| < start <= |data| && IsBoundary(data, start)
    ensures Shows(marker + data[start..], history)
  {
    hide IsPiece;
    var later := from + (start - |Flatten(pieces)|);
    assert data[start..] == history[later..];
    assert start < |data| ==> data[start] == history[later];
    AddMarker(marker, []);
    assert [marker] + [] == [marker] && marker + Flatten([]) == marker;
    assert ShowsFrom(marker + data[start..], history, [marker], later);
  }

  lemma GrowShows(data: Bytes, history: Bytes, chunk: Bytes)
    requires Shows(data, history) && Valid(history) && Valid(chunk)
    ensures Shows(data + chunk, history + chunk)
  {
    hide Valid, IsBoundary, ArePieces;
    var pieces, from: nat :| ShowsFrom(data, history, pieces, from);
    BoundaryStays(history, from, chunk);
    assert (history + chunk)[from..] == history[from..] + chunk;
    assert data + chunk == Flatten(pieces) + (history + chunk)[from..];
    assert ShowsFrom(data + chunk, history + chunk, pieces, from);
  }

  lemma EditShows(data: Bytes, history: Bytes, maxBytes: nat, edit: Edit)
    requires Shows(data, history) && Valid(history) && (edit.Push? ==> Valid(edit.chunk))
    ensures Shows(Apply(data, maxBytes, edit), history + if edit.Push? then edit.chunk else [])
  {
    hide Shows, Tail;
    match edit
    case Push(chunk) =>
      GrowShows(data, history, chunk);
      CutShows(data + chunk, history + chunk, OUTPUT_MARKER, maxBytes / 2);
    case Limit(maxTokens) =>
      assert history + [] == history;
      CutShows(data, history, TOKEN_MARKER, TokenKeep(|data|, maxTokens));
  }

  lemma {:induction false} HistoryIsValid(edits: seq<Edit>)
    requires WellFormed(edits)
    ensures Valid(History(edits))
  {
    if edits != [] {
      var front, last := edits[..|edits| - 1], edits[|edits| - 1];
      HistoryIsValid(front);
      if last.Push? {
        ValidAppend(History(front), last.chunk);
      } else {
        assert History(front) + [] == History(front);
      }
    }
  }

  /** Pushes and polls in any order: only pieces of markers ever stand in front of the kept output. */
  lemma {:induction false} BufferShowsHistory(maxBytes: nat, edits: seq<Edit>)
    requires WellFormed(edits)
    ensures Shows(After(maxBytes, edits), History(edits))
  {
    if edits == [] {
      assert ShowsFrom([], [], [], 0);
    } else {
      var front := edits[..|edits| - 1];
      BufferShowsHistory(maxBytes, front);
      HistoryIsValid(front);
      EditShows(After(maxBytes, front), History(front), maxBytes, edits[|edits| - 1]);
    }
  }

  lemma {:induction false} BufferIsValid(maxBytes: nat, edits: seq<Edit>)
    requires WellFormed(edits)
    ensures Valid(After(maxBytes, edits))
  {
    if edits != [] {
      BufferIsValid(maxBytes, edits[..|edits| - 1]);
      EditIsValid(After(maxBytes, edits[..|edits| - 1]), maxBytes, edits[|edits| - 1]);
    }
  }

  lemma EditIsValid(data: Bytes, maxBytes: nat, edit: Edit)
    requires Valid(data) && (edit.Push? ==> Valid(edit.chunk))
    ensures Valid(Apply(data, maxBytes, edit))
  {
    hide Valid, Tail, TokenKeep, EstimateTokens;
    match edit
    case Push(chunk) =>
      ValidAppend(data, chunk);
      MarkedTailIsValid(data + chunk, OUTPUT_MARKER, maxBytes / 2);
    case Limit(maxTokens) => MarkedTailIsValid(data, TOKEN_MARKER, TokenKeep(|data|, maxTokens));
  }

  lemma MarkedTailIsValid(data: Bytes, marker: Bytes, keep: nat)
    requires Valid(data) && IsMarker(marker)
    ensures Valid(marker + Tail(data, keep))
  {
    hide Valid, Tail;
    MarkersAreAscii(marker);
    TailOfValid(data, keep);
    ValidAppend(marker, Tail(data, keep));
  }

  /** However often it was polled, a push of output brings the buffer back within its capacity. */
  lemma PushRestoresCapacity(maxBytes: nat, edits: seq<Edit>, chunk: Bytes)
    requires WellFormed(edits) && Valid(chunk) && chunk != [] && maxBytes >= 55
    ensures |Pushed(After(maxBytes, edits), maxBytes, chunk)| <= maxBytes
  {
    BufferIsValid(maxBytes, edits);
    var all := After(maxBytes, edits) + chunk;
    ValidAppend(After(maxBytes, edits), chunk);
    TailOfValid(all, maxBytes / 2);
    MarkersAreValid();
  }

  // --------------------------------------------------- polls without any output

  /** A limit lengthens the buffer exactly when it cuts off fewer bytes than its marker has. */
  lemma LimitLengthensIff(data: Bytes, maxTokens: nat)
    ensures |Truncated(data, maxTokens)| > |data| <==>
            EstimateTokens(|data|) > maxTokens
            && |data| - |Tail(data, TokenKeep(|data|, maxTokens))| < |TOKEN_MARKER|
  {
  }

  /** A limit one token below the estimate always does, by thirteen bytes or more. */
  lemma LimitBelowEstimateLengthens(data: Bytes)
    requires Valid(data)
    ensures |Truncated(data, EstimateTokens(|data|) - 1)| >= |data| + 13
  {
    TokenLimitArithmetic(data, EstimateTokens(|data|) - 1);
    MarkersAreValid();
  }

  /** So no capacity bounds the buffer over pushes and polls: from any state, polls alone bring it to any length. */
  lemma {:induction false} PollsOutgrow(maxBytes: nat, edits: seq<Edit>, length: nat) returns (polls: seq<Edit>)
    requires WellFormed(edits)
    ensures forall i :: 0 <= i < |polls| ==> polls[i].Limit?
    ensures WellFormed(edits + polls) && |After(maxBytes, edits + polls)| >= length
    decreases length - |After(maxBytes, edits)|
  {
    var data := After(maxBytes, edits);
    if |data| >= length {
      assert edits + [] == edits;
      return [];
    }
    var poll := Limit(EstimateTokens(|data|) - 1);
    BufferIsValid(maxBytes, edits);
    LimitBelowEstimateLengthens(data);
    assert (edits + [poll])[..|edits|] == edits;
    var rest := PollsOutgrow(maxBytes, edits + [poll], length);
    polls := [poll] + rest;
    assert edits + polls == edits + [poll] + rest;
  }

  /** An example of a limit that keeps a piece of an output marker (`OldMarkerSurvivesIff` says when). */
  lemma OutputMarkerSurvives(text: Bytes)
    requires |text| == 40 && Valid(text)
    ensures Truncated(OUTPUT_MARKER + text, 15) == TOKEN_MARKER + (OUTPUT_MARKER[5..] + text)
  {
    hide Truncated, TokenKeep, EstimateTokens, Valid;
    MarkersAreValid();
    KeepOf65();
    assert |OUTPUT_MARKER + text| == 65;
    var i := CutInMarker(OUTPUT_MARKER, text, 15);
  }

  lemma KeepOf65()
    ensures EstimateTokens(65) > 15 && TokenKeep(65, 15) == 60
  {
  }
}
