/**
  UTF-8 from the other side: the encoding of a character number by the arithmetic of section 3 of
  RFC 3629, and what the byte tests of `Utf8` mean in its terms.
 */
module Unicode {
  import opened Basics
  import opened Utf8

  /** A Unicode scalar value: no surrogate, nothing above U+10FFFF. */
  predicate IsScalar(c: nat) {
    c <= 0xD7FF || 0xE000 <= c <= 0x10FFFF
  }

  /** Six bits of a character number in a byte that follows. */
  function Six(n: nat): byte {
    0x80 + n % 64
  }

  function Encode(c: nat): (s: Bytes)
    requires IsScalar(c)
    ensures 1 <= |s| <= 4
  {
    if c <= 0x7F then [c]
    else if c <= 0x7FF then [0xC0 + c / 64, Six(c)]
    else if c <= 0xFFFF then [0xE0 + c / 64 / 64, Six(c / 64), Six(c)]
    else [0xF0 + c / 64 / 64 / 64, Six(c / 64 / 64), Six(c / 64), Six(c)]
  }

  ghost predicate IsEncoding(s: Bytes) {
    exists c: nat :: IsScalar(c) && s == Encode(c)
  }

  /** `s` is an encoding or the beginning of one. */
  ghost predicate BeginsEncoding(s: Bytes) {
    exists c: nat :: IsScalar(c) && s <= Encode(c)
  }

  // ------------------------------------------------------------ one character

  lemma LowSix(n: nat)
    ensures n == 64 * (n / 64) + n % 64 && n % 64 < 64
  {
  }

  /** The bytes of a character are the encoding of a scalar value. */
  lemma CharIsEncoding(s: Bytes) returns (c: nat)
    requires 0 < CharLen(s) == |s|
    ensures IsScalar(c) && Encode(c) == s
  {
    if |s| == 1 {
      c := s[0];
    } else if |s| == 2 {
      c := 64 * (s[0] as int - 0xC0) + (s[1] as int - 0x80);
      assert c / 64 == s[0] as int - 0xC0 && c % 64 == s[1] as int - 0x80;
    } else if |s| == 3 {
      c := ThreeBytes(s);
    } else {
      c := FourBytes(s);
    }
  }

  lemma ThreeBytes(s: Bytes) returns (c: nat)
    requires CharLen(s) == |s| == 3
    ensures IsScalar(c) && Encode(c) == s
  {
    var high := 64 * (s[0] as int - 0xE0) + (s[1] as int - 0x80);
    c := 64 * high + (s[2] as int - 0x80);
    assert c / 64 == high && c % 64 == s[2] as int - 0x80;
    assert high / 64 == s[0] as int - 0xE0 && high % 64 == s[1] as int - 0x80;
  }

  lemma FourBytes(s: Bytes) returns (c: nat)
    requires CharLen(s) == |s| == 4
    ensures IsScalar(c) && Encode(c) == s
  {
    var top := 64 * (s[0] as int - 0xF0) + (s[1] as int - 0x80);
    var high := 64 * top + (s[2] as int - 0x80);
    c := 64 * high + (s[3] as int - 0x80);
    assert c / 64 == high && c % 64 == s[3] as int - 0x80;
    assert high / 64 == top && high % 64 == s[2] as int - 0x80;
    assert top / 64 == s[0] as int - 0xF0 && top % 64 == s[1] as int - 0x80;
  }

  /** The encoding of a scalar value is one character. */
  lemma EncodingIsChar(c: nat)
    requires IsScalar(c)
    ensures CharLen(Encode(c)) == |Encode(c)|
  {
    LowSix(c);
    LowSix(c / 64);
    LowSix(c / 64 / 64);
  }

  /** A text starts with a character exactly where it starts with an encoding, the one of that length. */
  lemma CharLenIff(s: Bytes, n: nat)
    requires n <= |s|
    ensures CharLen(s) == n > 0 <==> IsEncoding(s[..n])
  {
    if CharLen(s) == n > 0 {
      CharLenOfPrefix(s, n);
      var c := CharIsEncoding(s[..n]);
    }
    if IsEncoding(s[..n]) {
      var c: nat :| IsScalar(c) && s[..n] == Encode(c);
      EncodingIsChar(c);
      assert s == s[..n] + s[n..];
      CharLenOfFirst(s[..n], s[n..]);
    }
  }

  // ------------------------------------------------------------ well-formed text

  predicate AllScalars(cs: seq<nat>) {
    forall i :: 0 <= i < |cs| ==> IsScalar(cs[i])
  }

  function EncodeAll(cs: seq<nat>): Bytes
    requires AllScalars(cs)
  {
    if cs == [] then [] else Encode(cs[0]) + EncodeAll(cs[1..])
  }

  /** Well-formed text is exactly what sequences of scalar values encode to. */
  lemma ValidIff(s: Bytes)
    ensures Valid(s) <==> exists cs :: AllScalars(cs) && s == EncodeAll(cs)
  {
    if Valid(s) {
      var cs := Decoded(s);
    }
    if cs :| AllScalars(cs) && s == EncodeAll(cs) {
      EncodedIsValid(cs);
    }
  }

  lemma {:induction false} Decoded(s: Bytes) returns (cs: seq<nat>)
    requires Valid(s)
    ensures AllScalars(cs) && s == EncodeAll(cs)
    decreases |s|
  {
    if s == [] {
      return [];
    }
    hide CharLen, Valid, IsScalar, Encode;
    var n := CharLen(s);
    ValidBegins(s);
    var c := CharIsEncoding(s[..n]);
    var rest := Decoded(s[n..]);
    cs := [c] + rest;
    assert cs[1..] == rest;
  }

  lemma {:induction false} EncodedIsValid(cs: seq<nat>)
    requires AllScalars(cs)
    ensures Valid(EncodeAll(cs))
  {
    if cs != [] {
      EncodingIsChar(cs[0]);
      EncodedIsValid(cs[1..]);
      CharIsValid(Encode(cs[0]));
      ValidAppend(Encode(cs[0]), EncodeAll(cs[1..]));
    }
  }

  lemma CharIsValid(s: Bytes)
    requires 0 < CharLen(s) == |s|
    ensures Valid(s)
  {
    assert s[|s|..] == [];
  }

  // ------------------------------------------------------- where no character is

  /** An encoding is told from its beginning: its lead byte, then bytes that fit. */
  lemma EncodingShape(c: nat)
    requires IsScalar(c)
    ensures var e := Encode(c);
            && LeadLength(e[0]) == |e|
            && (|e| >= 2 ==> SecondFits(e[0], e[1]))
            && (|e| >= 3 ==> IsTail(e[2]))
  {
    EncodingIsChar(c);
  }

  lemma BeginningShape(s: Bytes, k: nat)
    requires 0 < k <= |s| && CharLen(s) == 0 && BeginsEncoding(s[..k])
    ensures k < LeadLength(s[0])
    ensures k >= 2 ==> SecondFits(s[0], s[1])
    ensures k >= 3 ==> IsTail(s[2])
  {
    var c: nat :| IsScalar(c) && s[..k] <= Encode(c);
    var e := Encode(c);
    EncodingShape(c);
    assert forall i :: 0 <= i < k ==> s[i] == s[..k][i] == e[i];
    if k == |e| {
      assert s[..k] == e;
      CharLenIff(s, k);
    }
  }

  /** Two or three bytes that fit so far begin an encoding: any tail bytes complete them. */
  lemma FittingBegins(s: Bytes, m: nat)
    requires 2 <= m <= |s| && m < LeadLength(s[0]) && SecondFits(s[0], s[1]) && (m == 3 ==> IsTail(s[2]))
    ensures BeginsEncoding(s[..m])
  {
    var whole := if LeadLength(s[0]) == 3 then [s[0], s[1], 0x80]
                 else [s[0], s[1], if m == 3 then s[2] else 0x80, 0x80];
    assert CharLen(whole) == |whole|;
    var c := CharIsEncoding(whole);
    assert s[..m] == whole[..m] <= Encode(c);
  }

  /**
    Where no character starts, one U+FFFD stands for the longest beginning of some encoding, or for
    one byte if not even that begins one.
   */
  lemma MaximalSubpartIsLongest(s: Bytes)
    requires s != [] && CharLen(s) == 0
    ensures var m := MaximalSubpart(s);
            && (m == 1 || BeginsEncoding(s[..m]))
            && forall k :: m < k <= |s| ==> !BeginsEncoding(s[..k])
  {
    var m := MaximalSubpart(s);
    if m > 1 {
      FittingBegins(s, m);
    }
    forall k | m < k <= |s|
      ensures !BeginsEncoding(s[..k])
    {
      if BeginsEncoding(s[..k]) {
        BeginningShape(s, k);
      }
    }
  }

  // ---------------------------------------------------------- the lossy conversion

  /** One step of the conversion of `s`: a whole encoding, or the longest beginning of one. */
  ghost predicate IsUnit(s: Bytes, unit: Bytes) {
    && 0 < |unit| <= |s| && unit == s[..|unit|]
    && (IsEncoding(unit) ||
        ((forall k :: 0 < k <= |s| ==> !IsEncoding(s[..k]))
         && (|unit| == 1 || BeginsEncoding(unit))
         && forall k :: |unit| < k <= |s| ==> !BeginsEncoding(s[..k])))
  }

  /** There is only one way to go on. */
  lemma UnitIsUnique(s: Bytes, a: Bytes, b: Bytes)
    requires IsUnit(s, a) && IsUnit(s, b)
    ensures a == b
  {
    if IsEncoding(a) && IsEncoding(b) {
      CharLenIff(s, |a|);
      CharLenIff(s, |b|);
    }
  }

  ghost predicate AreUnits(s: Bytes, units: seq<Bytes>)
    decreases |units|
  {
    if units == [] then s == [] else IsUnit(s, units[0]) && AreUnits(s[|units[0]|..], units[1..])
  }

  /** Encodings stay, all else becomes U+FFFD. */
  ghost function Shown(units: seq<Bytes>): Bytes {
    if units == [] then []
    else (if IsEncoding(units[0]) then units[0] else Encode(0xFFFD)) + Shown(units[1..])
  }

  lemma ReplacementIsEncoded()
    ensures REPLACEMENT == Encode(0xFFFD)
  {
  }

  lemma FirstUnit(s: Bytes)
    requires s != []
    ensures IsUnit(s, s[..UnitLen(s)])
    ensures Converted(s) == if IsEncoding(s[..UnitLen(s)]) then s[..UnitLen(s)] else Encode(0xFFFD)
  {
    var n := UnitLen(s);
    CharLenIff(s, n);
    ReplacementIsEncoded();
    if CharLen(s) == 0 {
      forall k | 0 < k <= |s|
        ensures !IsEncoding(s[..k])
      {
        CharLenIff(s, k);
      }
      MaximalSubpartIsLongest(s);
    }
  }

  /** `from_utf8_lossy` in these terms: the text falls into units, and their forms are put out in order. */
  lemma {:induction false} LossyByUnits(s: Bytes) returns (units: seq<Bytes>)
    ensures AreUnits(s, units) && Lossy(s) == Shown(units)
    decreases |s|
  {
    if s == [] {
      return [];
    }
    var n := UnitLen(s);
    FirstUnit(s);
    LossyStep(s);
    var rest := LossyByUnits(s[n..]);
    units := [s[..n]] + rest;
    assert units[1..] == rest && units[0] == s[..n];
  }
}
