/**
  Revision ids of the workspace journal (journal.rs): decimals padded to four places, compared
  as strings. Up to 9999 the two orders agree; "10000" sorts before "9999".
 */
module RevisionIds {
  import opened Basics

  function Digit(n: nat): char
    requires n < 10
  {
    '0' + n as char
  }

  function Digits(n: nat): (s: string)
    ensures |s| >= 1
  {
    if n < 10 then [Digit(n)] else Digits(n / 10) + [Digit(n % 10)]
  }

  function Pad(s: string): string
    decreases 4 - |s|
  {
    if |s| >= 4 then s else Pad("0" + s)
  }

  /** `format!("{n:04}")`. */
  function Format(n: nat): string {
    Pad(Digits(n))
  }

  function ValueOf(s: string): Option<nat> {
    if s == [] then Some(0)
    else if !('0' <= s[|s| - 1] <= '9') then None
    else
      var front := ValueOf(s[..|s| - 1]);
      if front.None? then None else Some(10 * front.value + (s[|s| - 1] - '0') as nat)
  }

  /** `parse::<u32>()`: digits, one leading plus allowed, nothing that overflows. */
  function ParseU32(s: string): Option<nat> {
    var digits := if s != [] && s[0] == '+' then s[1..] else s;
    if digits == [] then None else
      var v := ValueOf(digits);
      if v.Some? && v.value < U32 then v else None
  }

  /** Rust's `str` order on these one-byte characters. */
  predicate Less(a: string, b: string) {
    b != [] && (a == [] || a[0] < b[0] || (a[0] == b[0] && Less(a[1..], b[1..])))
  }

  predicate AtMost(a: string, b: string) {
    a == b || Less(a, b)
  }

  lemma {:induction false} LessIsTotal(a: string, b: string)
    ensures Less(a, b) || a == b || Less(b, a)
    ensures !(Less(a, b) && Less(b, a)) && !(Less(a, b) && a == b)
  {
    if a != [] && b != [] && a[0] == b[0] {
      LessIsTotal(a[1..], b[1..]);
      assert a == [a[0]] + a[1..] && b == [b[0]] + b[1..];
    }
  }

  lemma {:induction false} LessIsTransitive(a: string, b: string, c: string)
    requires Less(a, b) && Less(b, c)
    ensures Less(a, c)
  {
    if a != [] && a[0] == b[0] == c[0] {
      LessIsTransitive(a[1..], b[1..], c[1..]);
    }
  }

  // --------------------------------------------------------- parsing what is formatted

  lemma {:induction false} ValueOfDigits(n: nat)
    ensures ValueOf(Digits(n)) == Some(n)
    ensures '0' <= Digits(n)[0] <= '9'
  {
    if n < 10 {
      assert ValueOf([]) == Some(0);
    } else {
      ValueOfDigits(n / 10);
      assert Digits(n)[..|Digits(n)| - 1] == Digits(n / 10);
    }
  }

  lemma {:induction false} LeadingZero(s: string)
    ensures ValueOf("0" + s) == ValueOf(s)
  {
    var t := "0" + s;
    if s == [] {
      assert t[..0] == [];
    } else {
      assert t[..|t| - 1] == "0" + s[..|s| - 1];
      LeadingZero(s[..|s| - 1]);
    }
  }

  lemma {:induction false} PadKeepsValue(s: string)
    requires |s| >= 1 && '0' <= s[0] <= '9'
    ensures ValueOf(Pad(s)) == ValueOf(s) && |Pad(s)| >= 4 && '0' <= Pad(s)[0] <= '9'
    decreases 4 - |s|
  {
    if |s| < 4 {
      LeadingZero(s);
      PadKeepsValue("0" + s);
    }
  }

  lemma ParseOfFormat(n: nat)
    requires n < U32
    ensures ParseU32(Format(n)) == Some(n)
  {
    ValueOfDigits(n);
    PadKeepsValue(Digits(n));
  }

  lemma FormatIsInjective(a: nat, b: nat)
    requires a < U32 && b < U32 && Format(a) == Format(b)
    ensures a == b
  {
    ParseOfFormat(a);
    ParseOfFormat(b);
  }

  // -------------------------------------------------------------- the order

  /** A number below 10000 by its four decimal places. */
  ghost predicate Places(n: nat, d: seq<nat>) {
    |d| == 4 && (forall i :: 0 <= i < 4 ==> d[i] < 10)
    && n == 1000 * d[0] + 100 * d[1] + 10 * d[2] + d[3]
  }

  lemma FourPlaces(n: nat) returns (d: seq<nat>)
    requires n < 10000
    ensures Places(n, d)
  {
    var tens := n / 10;
    var hundreds := tens / 10;
    d := [hundreds / 10, hundreds % 10, tens % 10, n % 10];
  }

  lemma LowPlaces(n: nat, d: seq<nat>)
    requires Places(n, d)
    ensures n % 10 == d[3] && n / 10 == 100 * d[0] + 10 * d[1] + d[2]
    ensures n / 10 % 10 == d[2] && n / 10 / 10 == 10 * d[0] + d[1]
    ensures n / 10 / 10 % 10 == d[1] && n / 10 / 10 / 10 == d[0]
  {
  }

  lemma FormatOfPlaces(n: nat, d: seq<nat>)
    requires Places(n, d)
    ensures Format(n) == [Digit(d[0]), Digit(d[1]), Digit(d[2]), Digit(d[3])]
  {
    LowPlaces(n, d);
    PadShort(Digits(n));
    if d[0] > 0 {
      assert Digits(n / 10 / 10) == [Digit(d[0])] + [Digit(d[1])];
      assert Digits(n / 10) == Digits(n / 10 / 10) + [Digit(d[2])];
    } else if d[1] > 0 {
      assert Digits(n / 10) == [Digit(d[1])] + [Digit(d[2])];
      assert Digits(n) == Digits(n / 10) + [Digit(d[3])];
    } else if d[2] > 0 {
      assert Digits(n) == [Digit(d[2])] + [Digit(d[3])];
    } else {
      assert Digits(n) == [Digit(d[3])];
    }
  }

  lemma {:induction false} PadShort(s: string)
    requires |s| >= 1
    decreases 4 - |s|
    ensures Pad(s) == if |s| == 1 then "000" + s else if |s| == 2 then "00" + s else if |s| == 3 then "0" + s else s
  {
    if |s| == 3 {
      assert Pad("0" + s) == "0" + s;
    } else if |s| == 2 {
      PadShort("0" + s);
      assert "0" + ("0" + s) == "00" + s;
    } else if |s| == 1 {
      PadShort("0" + s);
      assert "00" + ("0" + s) == "000" + s;
    }
  }

  /** Up to four places, string order is numeric order. */
  lemma FormatKeepsOrder(a: nat, b: nat)
    requires a < b < 10000
    ensures Less(Format(a), Format(b))
  {
    var da := FourPlaces(a);
    var db := FourPlaces(b);
    FormatOfPlaces(a, da);
    FormatOfPlaces(b, db);
    FirstDifference(Format(a), Format(b), da, db);
  }

  lemma FirstDifference(x: string, y: string, a: seq<nat>, b: seq<nat>)
    requires |x| == |y| == |a| == |b| == 4
    requires forall i :: 0 <= i < 4 ==> a[i] < 10 && b[i] < 10 && x[i] == Digit(a[i]) && y[i] == Digit(b[i])
    requires 1000 * a[0] + 100 * a[1] + 10 * a[2] + a[3] < 1000 * b[0] + 100 * b[1] + 10 * b[2] + b[3]
    ensures Less(x, y)
  {
    assert x[1..][1..] == x[2..] && y[1..][1..] == y[2..];
    assert x[2..][1..] == x[3..] && y[2..][1..] == y[3..];
    assert x[0] <= y[0];
    assert x[0] == y[0] ==> x[1] <= y[1];
    assert x[0] == y[0] && x[1] == y[1] ==> x[2] <= y[2];
    assert x[0] == y[0] && x[1] == y[1] && x[2] == y[2] ==> Less(x[3..], y[3..]);
    assert x[0] == y[0] && x[1] == y[1] ==> Less(x[2..], y[2..]);
    assert x[0] == y[0] ==> Less(x[1..], y[1..]);
  }

  /** The first five-place id sorts before the last four-place one. */
  lemma FiveDigitsSortLow()
    ensures Less(Format(10000), Format(9999))
  {
  }
}
