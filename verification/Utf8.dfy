/**
  UTF-8 as the Rust standard library sees it: the grammar of section 4 of RFC 3629,
  `Utf8Error::valid_up_to`, `String::from_utf8_lossy` (one U+FFFD for each maximal
  subpart, section 3.9 of the Unicode Standard) and `str::is_char_boundary`.
  A Rust `String` is modelled by its bytes.
 */
module Utf8 {
  import opened Basics

  predicate IsTail(b: byte) {
    0x80 <= b <= 0xBF
  }

  /** Length announced by a lead byte; 0 when no character starts with it. */
  function LeadLength(b: byte): nat {
    if b <= 0x7F then 1
    else if 0xC2 <= b <= 0xDF then 2
    else if 0xE0 <= b <= 0xEF then 3
    else if 0xF0 <= b <= 0xF4 then 4
    else 0
  }

  /** Which second bytes the grammar allows after a lead byte. */
  predicate SecondFits(lead: byte, second: byte) {
    if lead == 0xE0 then 0xA0 <= second <= 0xBF
    else if lead == 0xED then 0x80 <= second <= 0x9F
    else if lead == 0xF0 then 0x90 <= second <= 0xBF
    else if lead == 0xF4 then 0x80 <= second <= 0x8F
    else IsTail(second)
  }

  /** Length of the well-formed character `s` starts with, or 0. */
  function CharLen(s: Bytes): (n: nat)
    ensures n <= 4 && n <= |s|
  {
    if s == [] then 0 else
      var n := LeadLength(s[0]);
      if n == 0 || |s| < n then 0
      else if n >= 2 && !SecondFits(s[0], s[1]) then 0
      else if n >= 3 && !IsTail(s[2]) then 0
      else if n == 4 && !IsTail(s[3]) then 0
      else n
  }

  /** Where no character starts: how many bytes a single U+FFFD stands for. */
  function MaximalSubpart(s: Bytes): (n: nat)
    requires s != [] && CharLen(s) == 0
    ensures 1 <= n <= 3 && n <= |s|
  {
    var n := LeadLength(s[0]);
    if n < 3 || |s| < 2 || !SecondFits(s[0], s[1]) then 1
    else if n == 3 || |s| < 3 || !IsTail(s[2]) then 2
    else 3
  }

  /** `valid_up_to`: the length of the longest prefix made of whole characters. */
  function ValidUpTo(s: Bytes): (n: nat)
    ensures n <= |s|
  {
    var n := CharLen(s);
    if n == 0 then 0 else n + ValidUpTo(s[n..])
  }

  predicate Valid(s: Bytes) {
    ValidUpTo(s) == |s|
  }

  const REPLACEMENT: Bytes := [0xEF, 0xBF, 0xBD]

  /** `String::from_utf8_lossy`. */
  function Lossy(s: Bytes): Bytes {
    if s == [] then []
    else if CharLen(s) > 0 then s[..CharLen(s)] + Lossy(s[CharLen(s)..])
    else REPLACEMENT + Lossy(s[MaximalSubpart(s)..])
  }

  /** `str::is_char_boundary` for an index within the string. */
  predicate IsBoundary(s: Bytes, i: nat)
    requires i <= |s|
  {
    i == 0 || i == |s| || !IsTail(s[i])
  }

  // ---------------------------------------------------------------- prefixes

  /** Cutting a string inside its first character leaves no character at all. */
  lemma CharLenOfPrefix(s: Bytes, k: nat)
    requires k <= |s| && 0 < CharLen(s)
    ensures CharLen(s[..k]) == if k < CharLen(s) then 0 else CharLen(s)
  {
  }

  lemma {:induction false} ValidUpToAppend(a: Bytes, b: Bytes)
    requires Valid(a)
    ensures ValidUpTo(a + b) == |a| + ValidUpTo(b)
    decreases |a|
  {
    if a == [] {
      assert a + b == b;
    } else {
      var n := CharLen(a);
      assert n > 0;
      assert (a + b)[..|a|] == a;
      CharLenOfFirst(a, b);
      assert (a + b)[n..] == a[n..] + b;
      ValidUpToAppend(a[n..], b);
    }
  }

  lemma CharLenOfFirst(a: Bytes, b: Bytes)
    requires 0 < CharLen(a)
    ensures CharLen(a + b) == CharLen(a)
  {
  }

  lemma ValidAppend(a: Bytes, b: Bytes)
    requires Valid(a) && Valid(b)
    ensures Valid(a + b)
  {
    ValidUpToAppend(a, b);
  }

  lemma {:induction false} ValidPrefixIsValid(s: Bytes)
    ensures Valid(s[..ValidUpTo(s)])
    decreases |s|
  {
    var n := CharLen(s);
    if n > 0 {
      var v := ValidUpTo(s);
      ValidPrefixIsValid(s[n..]);
      assert s[n..][..ValidUpTo(s[n..])] == s[..v][n..];
      CharLenOfPrefix(s, v);
    }
  }

  lemma LossyOfFirst(a: Bytes, b: Bytes)
    requires 0 < CharLen(a)
    ensures Lossy(a + b) == a[..CharLen(a)] + Lossy(a[CharLen(a)..] + b)
  {
    CharLenOfFirst(a, b);
    assert (a + b)[CharLen(a)..] == a[CharLen(a)..] + b;
    assert (a + b)[..CharLen(a)] == a[..CharLen(a)];
  }

  /** Whole characters pass through the lossy conversion untouched. */
  lemma {:induction false} LossyAppend(a: Bytes, b: Bytes)
    requires Valid(a)
    ensures Lossy(a + b) == a + Lossy(b)
    decreases |a|
  {
    if a == [] {
      assert a + b == b;
    } else {
      var n := CharLen(a);
      LossyOfFirst(a, b);
      LossyAppend(a[n..], b);
      Reassociate(a, n, Lossy(b));
    }
  }

  lemma Reassociate(a: Bytes, n: nat, c: Bytes)
    requires n <= |a|
    ensures a[..n] + (a[n..] + c) == a + c
  {
  }

  lemma LossyOfValid(a: Bytes)
    requires Valid(a)
    ensures Lossy(a) == a
  {
  }

  lemma {:induction false} LossyIsValid(s: Bytes)
    ensures Valid(Lossy(s))
    decreases |s|
  {
    if s == [] {
    } else if CharLen(s) > 0 {
      var n := CharLen(s);
      LossyIsValid(s[n..]);
      CharLenOfPrefix(s, n);
      assert s[..n][n..] == [];
      ValidAppend(s[..n], Lossy(s[n..]));
    } else {
      LossyIsValid(s[MaximalSubpart(s)..]);
      assert CharLen(REPLACEMENT) == 3 && REPLACEMENT[3..] == [];
      ValidAppend(REPLACEMENT, Lossy(s[MaximalSubpart(s)..]));
    }
  }

  lemma {:induction false} ValidUpToOfPrefix(w: Bytes, p: nat)
    requires p <= |w|
    ensures ValidUpTo(w[..p]) <= ValidUpTo(w)
    decreases |w|
  {
    var n := CharLen(w[..p]);
    if n > 0 {
      assert w[..p] + w[p..] == w;
      CharLenOfFirst(w[..p], w[p..]);
      assert w[..p][n..] == w[n..][..p - n];
      ValidUpToOfPrefix(w[n..], p - n);
    }
  }

  /** `valid_up_to` is the length of the longest well-formed beginning. */
  lemma ValidUpToIsLongest(s: Bytes, k: nat)
    requires k <= |s|
    ensures Valid(s[..ValidUpTo(s)])
    ensures Valid(s[..k]) ==> k <= ValidUpTo(s)
  {
    ValidPrefixIsValid(s);
    ValidUpToOfPrefix(s, k);
  }

  /** A cut anywhere in well-formed text leaves at most three dangling bytes. */
  lemma {:induction false} CutOfValid(w: Bytes, k: nat)
    requires Valid(w) && k <= |w|
    ensures k - ValidUpTo(w[..k]) <= 3
    decreases |w|
  {
    if k > 0 {
      var n := CharLen(w);
      CharLenOfPrefix(w, k);
      hide CharLen;
      if n <= k {
        CutOfValid(w[n..], k - n);
        assert w[..k][n..] == w[n..][..k - n];
      }
    }
  }

  // -------------------------------------------------------------- boundaries

  /** Only the first byte of a character is not a tail byte. */
  lemma InsideCharacter(s: Bytes, i: nat)
    requires 0 < i < CharLen(s)
    ensures IsTail(s[i])
  {
  }

  lemma FirstByteNotTail(s: Bytes)
    requires 0 < CharLen(s)
    ensures !IsTail(s[0])
  {
  }

  /** A cut behind the first character of well-formed text, seen from the rest. */
  lemma CutBehindFirst(s: Bytes, i: nat)
    requires Valid(s) && 0 < CharLen(s) <= i <= |s|
    ensures var n := CharLen(s);
            && Valid(s[n..]) && (Valid(s[..i]) <==> Valid(s[n..][..i - n])) && s[i..] == s[n..][i - n..]
            && (IsBoundary(s, i) <==> IsBoundary(s[n..], i - n))
  {
    var n := CharLen(s);
    CharLenOfPrefix(s, i);
    assert s[..i][n..] == s[n..][..i - n];
    if i == n && i < |s| {
      FirstByteNotTail(s[n..]);
    }
  }

  /** In well-formed text the boundaries are exactly the places where both sides are well-formed. */
  lemma {:induction false} BoundarySplits(s: Bytes, i: nat)
    requires Valid(s) && i <= |s|
    ensures IsBoundary(s, i) <==> Valid(s[..i])
    ensures IsBoundary(s, i) ==> Valid(s[i..])
    decreases |s|
  {
    hide CharLen, ValidUpTo, IsBoundary;
    if i == 0 {
      assert s[0..] == s && s[..0] == [];
      NothingIsValid(s);
    } else {
      ValidBegins(s);
      if i < CharLen(s) {
        CutInsideFirst(s, i);
      } else {
        CutBehindFirst(s, i);
        BoundarySplits(s[CharLen(s)..], i - CharLen(s));
      }
    }
  }

  lemma NothingIsValid(s: Bytes)
    ensures Valid([]) && IsBoundary(s, 0)
  {
  }

  /** Well-formed text begins with a character, and is well-formed behind it. */
  lemma ValidBegins(s: Bytes)
    requires Valid(s) && s != []
    ensures var n := CharLen(s);
            n > 0 && CharLen(s[..n]) == n && Valid(s[n..]) && s == s[..n] + s[n..]
  {
    CharLenOfPrefix(s, CharLen(s));
  }

  lemma CutInsideFirst(s: Bytes, i: nat)
    requires 0 < i < CharLen(s)
    ensures !IsBoundary(s, i) && !Valid(s[..i])
  {
    CharLenOfPrefix(s, i);
    InsideCharacter(s, i);
  }

  // ------------------------------------------------- units of the lossy conversion

  /** What the lossy conversion takes in one step: a character, or the bytes one U+FFFD stands for. */
  function UnitLen(s: Bytes): (n: nat)
    requires s != []
    ensures 1 <= n <= 4 && n <= |s|
  {
    if CharLen(s) > 0 then CharLen(s) else MaximalSubpart(s)
  }

  /** `i` lies between two steps of the lossy conversion. */
  predicate UnitBoundary(s: Bytes, i: nat)
    requires i <= |s|
  {
    i == 0 || (UnitLen(s) <= i && UnitBoundary(s[UnitLen(s)..], i - UnitLen(s)))
  }

  /** What one step puts out. */
  function Converted(s: Bytes): (out: Bytes)
    requires s != []
    ensures 1 <= |out| <= 4
  {
    if CharLen(s) > 0 then s[..CharLen(s)] else REPLACEMENT
  }

  lemma LossyStep(s: Bytes)
    requires s != []
    ensures Lossy(s) == Converted(s) + Lossy(s[UnitLen(s)..])
  {
  }

  /** A step looks at nothing behind what it takes. */
  lemma UnitOfPrefix(s: Bytes, k: nat)
    requires s != [] && UnitLen(s) <= k <= |s|
    ensures UnitLen(s[..k]) == UnitLen(s) && Converted(s[..k]) == Converted(s)
  {
    if CharLen(s) > 0 {
      CharLenOfPrefix(s, k);
      assert s[..k][..CharLen(s)] == s[..CharLen(s)];
    } else {
      NoCharInPrefix(s, k);
    }
  }

  lemma NoCharInPrefix(s: Bytes, k: nat)
    requires CharLen(s) == 0 && k <= |s|
    ensures CharLen(s[..k]) == 0
  {
    assert s[..k] + s[k..] == s;
    if CharLen(s[..k]) > 0 {
      CharLenOfFirst(s[..k], s[k..]);
    }
  }

  lemma UnitBoundaryStep(s: Bytes, i: nat)
    requires 0 < i <= |s|
    ensures UnitBoundary(s, i) <==> UnitLen(s) <= i && UnitBoundary(s[UnitLen(s)..], i - UnitLen(s))
  {
  }

  /** Slices of the rest of a text are slices of the text. */
  lemma SliceOfRest(s: Bytes, n: nat, i: nat, k: nat)
    requires n <= i <= k <= |s|
    ensures s[n..][i - n..k - n] == s[i..k] && s[n..][i - n..] == s[i..]
    ensures s[..k][n..] == s[n..][..k - n]
  {
  }

  lemma {:induction false} UnitBoundaryOfPrefix(s: Bytes, i: nat, k: nat)
    requires i <= k <= |s| && UnitBoundary(s, i)
    ensures UnitBoundary(s[..k], i)
    decreases i
  {
    if i > 0 {
      hide UnitBoundary, UnitLen, Converted;
      var n := UnitLen(s);
      UnitBoundaryStep(s, i);
      UnitOfPrefix(s, k);
      UnitBoundaryOfPrefix(s[n..], i - n, k - n);
      SliceOfRest(s, n, i, k);
      UnitBoundaryStep(s[..k], i);
    }
  }

  lemma LossyStepOfPrefix(s: Bytes, i: nat)
    requires s != [] && UnitLen(s) <= i <= |s|
    ensures Lossy(s[..i]) == Converted(s) + Lossy(s[UnitLen(s)..][..i - UnitLen(s)])
  {
    UnitOfPrefix(s, i);
    LossyStep(s[..i]);
    assert s[..i][UnitLen(s)..] == s[UnitLen(s)..][..i - UnitLen(s)];
  }

  lemma LossyOfNothing()
    ensures Lossy([]) == []
  {
  }

  lemma Associate(a: Bytes, b: Bytes, c: Bytes)
    ensures a + (b + c) == (a + b) + c
  {
  }

  /** Between two steps the conversion can be cut. */
  lemma {:induction false} LossySplits(s: Bytes, i: nat)
    requires i <= |s| && UnitBoundary(s, i)
    ensures Lossy(s) == Lossy(s[..i]) + Lossy(s[i..])
    decreases i
  {
    hide Lossy, Converted, UnitLen, UnitBoundary;
    if i == 0 {
      assert Lossy(s[..0]) == [] by { LossyOfNothing(); }
      assert s[0..] == s;
    } else {
      var n := UnitLen(s);
      UnitBoundaryStep(s, i);
      LossyStep(s);
      LossyStepOfPrefix(s, i);
      LossySplits(s[n..], i - n);
      SliceOfRest(s, n, i, i);
      Associate(Converted(s), Lossy(s[n..][..i - n]), Lossy(s[i..]));
    }
  }

  lemma {:induction false} ValidEndIsBoundary(s: Bytes, n: nat)
    requires n <= |s| && Valid(s[..n])
    ensures UnitBoundary(s, n)
    decreases n
  {
    if n > 0 {
      var text := s[..n];
      assert s == text + s[n..];
      assert 0 < CharLen(text);
      CharLenOfFirst(text, s[n..]);
      var u := CharLen(s);
      assert Valid(text[u..]) && UnitLen(s) == u;
      hide UnitBoundary, UnitLen, Valid;
      SliceOfRest(s, u, n, n);
      ValidEndIsBoundary(s[u..], n - u);
      UnitBoundaryStep(s, n);
    }
  }

  /** Behind a boundary, the end of well-formed text is a boundary again. */
  lemma {:induction false} BoundaryAfterValid(s: Bytes, i: nat, n: nat)
    requires i + n <= |s| && UnitBoundary(s, i) && Valid(s[i..i + n])
    ensures UnitBoundary(s, i + n)
    decreases i
  {
    hide UnitLen, ValidUpTo, UnitBoundary;
    if i > 0 {
      var u := UnitLen(s);
      UnitBoundaryStep(s, i);
      SliceOfRest(s, u, i, i + n);
      BoundaryAfterValid(s[u..], i - u, n);
      UnitBoundaryStep(s, i + n);
    } else {
      assert s[0..0 + n] == s[..n];
      ValidEndIsBoundary(s, n);
    }
  }

  lemma FirstUnitOfValid(s: Bytes, i: nat)
    requires 0 < i <= ValidUpTo(s) && UnitBoundary(s, i)
    ensures var n := UnitLen(s);
            n <= i && UnitBoundary(s[n..], i - n) && ValidUpTo(s) == n + ValidUpTo(s[n..])
  {
  }

  /** From a boundary within the well-formed front, the front goes on well-formed. */
  lemma {:induction false} ValidFromBoundary(s: Bytes, i: nat)
    requires i <= ValidUpTo(s) && UnitBoundary(s, i)
    ensures ValidUpTo(s[i..]) == ValidUpTo(s) - i
    decreases i
  {
    hide ValidUpTo, UnitBoundary, UnitLen;
    if i == 0 {
      assert s[0..] == s;
    } else {
      var n := UnitLen(s);
      FirstUnitOfValid(s, i);
      ValidFromBoundary(s[n..], i - n);
      SliceOfRest(s, n, i, i);
    }
  }

  lemma LossyOfTail(s: Bytes)
    requires s != [] && IsTail(s[0])
    ensures Lossy(s) == REPLACEMENT + Lossy(s[1..])
  {
  }

  lemma InsideUnit(s: Bytes, i: nat)
    requires s != [] && 0 < i < UnitLen(s)
    ensures IsTail(s[i])
  {
  }

  /** Every byte of a unit left over behind a cut inside it becomes a U+FFFD. */
  lemma {:induction false} RestOfUnit(s: Bytes, i: nat)
    requires s != [] && 0 < i <= UnitLen(s)
    ensures |Lossy(s[i..])| == 3 * (UnitLen(s) - i) + |Lossy(s[UnitLen(s)..])|
    decreases UnitLen(s) - i
  {
    if i < UnitLen(s) {
      InsideUnit(s, i);
      LossyOfTail(s[i..]);
      assert s[i..][1..] == s[i + 1..];
      RestOfUnit(s, i + 1);
    }
  }

  lemma BoundaryAtStart(s: Bytes)
    ensures UnitBoundary(s, 0)
  {
  }

  /** Cut inside a step, the two conversions together are longer than the one of the whole. */
  lemma {:induction false} CutInsideUnitGrows(s: Bytes, i: nat)
    requires i <= |s| && !UnitBoundary(s, i)
    ensures |Lossy(s[..i])| + |Lossy(s[i..])| > |Lossy(s)|
    decreases i
  {
    hide Lossy, Converted, UnitLen, UnitBoundary;
    if i == 0 {
      BoundaryAtStart(s);
      assert false;
    }
    var n := UnitLen(s);
    UnitBoundaryStep(s, i);
    LossyStep(s);
    if i < n {
      PrefixOfUnit(s, i);
      RestOfUnit(s, i);
    } else {
      LossyStepOfPrefix(s, i);
      CutInsideUnitGrows(s[n..], i - n);
      SliceOfRest(s, n, i, i);
    }
  }

  lemma PrefixOfUnit(s: Bytes, i: nat)
    requires s != [] && 0 < i < UnitLen(s)
    ensures |Lossy(s[..i])| >= 3
  {
    if CharLen(s) > 0 {
      CharLenOfPrefix(s, i);
    } else {
      NoCharInPrefix(s, i);
    }
    LossyStep(s[..i]);
  }
}
