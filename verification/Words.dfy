/** Four-byte unsigned integers on the wire, little and big endian. */
module Words {
  import opened Basics

  function Low(n: nat): byte {
    n % 256
  }

  /** `(n as u32).to_le_bytes()`: the cast keeps n modulo 2^32. */
  function Le32(n: nat): (b: Bytes)
    ensures |b| == 4
  {
    [Low(n), Low(n / 256), Low(n / 256 / 256), Low(n / 256 / 256 / 256)]
  }

  function FromLe32(b: Bytes): nat
    requires |b| == 4
  {
    b[0] as int + 256 * (b[1] as int + 256 * (b[2] as int + 256 * (b[3] as int)))
  }

  function Be32(n: nat): (b: Bytes)
    ensures |b| == 4
  {
    [Low(n / 256 / 256 / 256), Low(n / 256 / 256), Low(n / 256), Low(n)]
  }

  function FromBe32(b: Bytes): nat
    requires |b| == 4
  {
    b[3] as int + 256 * (b[2] as int + 256 * (b[1] as int + 256 * (b[0] as int)))
  }

  lemma Le32RoundTrip(n: nat)
    ensures FromLe32(Le32(n)) == n % U32
  {
  }

  lemma Be32RoundTrip(n: nat)
    requires n < U32
    ensures FromBe32(Be32(n)) == n
  {
  }

  /** The first byte in which they differ decides. */
  predicate Before(a: Bytes, b: Bytes) {
    b != [] && (a == [] || a[0] < b[0] || (a[0] == b[0] && Before(a[1..], b[1..])))
  }

  lemma ByteFirst(a: Bytes, b: Bytes)
    requires |a| == |b| == 4
    ensures Before(a, b) <==>
              a[0] < b[0] || (a[0] == b[0] && (a[1] < b[1] || (a[1] == b[1] && (a[2] < b[2] || (a[2] == b[2] && a[3] < b[3])))))
  {
    assert a[3..][1..] == [] && b[3..][1..] == [];
    assert Before(a[3..], b[3..]) <==> a[3] < b[3];
    assert a[2..][1..] == a[3..] && b[2..][1..] == b[3..];
    assert Before(a[2..], b[2..]) <==> a[2] < b[2] || (a[2] == b[2] && a[3] < b[3]);
    assert a[1..][1..] == a[2..] && b[1..][1..] == b[2..];
    assert Before(a[1..], b[1..]) <==> a[1] < b[1] || (a[1] == b[1] && Before(a[2..], b[2..]));
  }

  /** Big endian: the bytes order as the numbers do. */
  lemma BigEndianKeepsOrder(m: nat, n: nat)
    requires m < U32 && n < U32
    ensures m < n <==> Before(Be32(m), Be32(n))
  {
    Be32RoundTrip(m);
    Be32RoundTrip(n);
    hide Be32, FromBe32;
    ByteFirst(Be32(m), Be32(n));
    HighByteDecides(Be32(m), Be32(n));
  }

  lemma HighByteDecides(a: Bytes, b: Bytes)
    requires |a| == |b| == 4
    ensures FromBe32(a) < FromBe32(b) <==>
              a[0] < b[0] || (a[0] == b[0] && (a[1] < b[1] || (a[1] == b[1] && (a[2] < b[2] || (a[2] == b[2] && a[3] < b[3])))))
  {
    var x, y := a[0] as int, b[0] as int;
    var x1, y1 := 256 * x + a[1] as int, 256 * y + b[1] as int;
    var x2, y2 := 256 * x1 + a[2] as int, 256 * y1 + b[2] as int;
    assert FromBe32(a) == 256 * x2 + a[3] as int && FromBe32(b) == 256 * y2 + b[3] as int;
    assert FromBe32(a) < FromBe32(b) <==> x2 < y2 || (x2 == y2 && a[3] < b[3]);
    assert x2 < y2 <==> x1 < y1 || (x1 == y1 && a[2] < b[2]);
    assert x1 < y1 <==> x < y || (x == y && a[1] < b[1]);
  }

  /** Little endian: the same bytes in the other order. */
  lemma LittleIsBigReversed(n: nat)
    ensures forall i :: 0 <= i < 4 ==> Le32(n)[i] == Be32(n)[3 - i]
  {
  }
}
