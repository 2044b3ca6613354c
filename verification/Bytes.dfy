/** Fixed-width integers as bytes, and sequences laid out field by field. */
module Bytes {
  import opened Arithmetic
  import opened Base

  function Pow256(n: nat): nat {
    if n == 0 then 1 else 256 * Pow256(n - 1)
  }

  lemma Widths()
    ensures Pow256(2) == 0x1_0000 && Pow256(4) == U32_LIMIT && Pow256(8) == U64_LIMIT
  {
    assert Pow256(1) == 256;
    assert Pow256(2) == 0x1_0000;
    assert Pow256(3) == 0x100_0000;
    assert Pow256(4) == U32_LIMIT;
    assert Pow256(5) == 0x100_0000_0000;
    assert Pow256(6) == 0x1_0000_0000_0000;
    assert Pow256(7) == 0x100_0000_0000_0000;
  }

  // ---------------------------------------------------------------- little endian

  /** The low `n` bytes of `x`, least significant first. */
  function ToLE(x: nat, n: nat): (b: seq<byte>)
    ensures |b| == n
  {
    if n == 0 then [] else [(x % 256) as byte] + ToLE(x / 256, n - 1)
  }

  function FromLE(b: seq<byte>): nat {
    if b == [] then 0 else b[0] as nat + 256 * FromLE(b[1..])
  }

  /** A value comes back when it fits; a wider one loses its high bytes. */
  lemma {:induction false} LERoundTrip(x: nat, n: nat)
    ensures FromLE(ToLE(x, n)) <= x
    ensures FromLE(ToLE(x, n)) == x <==> x < Pow256(n)
  {
    if n == 0 {
    } else {
      LERoundTrip(x / 256, n - 1);
      assert ToLE(x, n)[1..] == ToLE(x / 256, n - 1);
      assert x == x % 256 + 256 * (x / 256);
    }
  }

  /** Every field is the encoding of its value. */
  lemma {:induction false} LEInverse(b: seq<byte>)
    ensures FromLE(b) < Pow256(|b|) && ToLE(FromLE(b), |b|) == b
  {
    if b != [] {
      var rest := FromLE(b[1..]);
      LEInverse(b[1..]);
      QuotientIs(FromLE(b), 256, rest, b[0] as nat);
      assert b == [b[0]] + b[1..];
    }
  }

  lemma {:induction false} PowPositive(n: nat)
    ensures Pow256(n) > 0
  {
    if n > 0 { PowPositive(n - 1); }
  }

  /** Byte `i` is the digit of weight 256^i. */
  lemma {:induction false} LEDigit(x: nat, n: nat, i: nat)
    requires i < n
    ensures Pow256(i) > 0 && ToLE(x, n)[i] as nat == x / Pow256(i) % 256
  {
    PowPositive(i);
    if i > 0 {
      LEDigit(x / 256, n - 1, i - 1);
      DivDiv(x, 256, Pow256(i - 1));
    }
  }

  // ---------------------------------------------------------------- big endian

  /** The low `n` bytes of `x`, most significant first. */
  function ToBE(x: nat, n: nat): (b: seq<byte>)
    ensures |b| == n
  {
    if n == 0 then [] else ToBE(x / 256, n - 1) + [(x % 256) as byte]
  }

  function FromBE(b: seq<byte>): nat {
    if b == [] then 0 else 256 * FromBE(b[..|b| - 1]) + b[|b| - 1] as nat
  }

  lemma {:induction false} BERoundTrip(x: nat, n: nat)
    ensures FromBE(ToBE(x, n)) <= x
    ensures FromBE(ToBE(x, n)) == x <==> x < Pow256(n)
  {
    if n == 0 {
    } else {
      BERoundTrip(x / 256, n - 1);
      assert ToBE(x, n)[..n - 1] == ToBE(x / 256, n - 1);
      assert x == x % 256 + 256 * (x / 256);
    }
  }

  /** Byte `i` from the end is the digit of weight 256^i. */
  lemma {:induction false} BEDigit(x: nat, n: nat, i: nat)
    requires i < n
    ensures Pow256(i) > 0 && ToBE(x, n)[n - 1 - i] as nat == x / Pow256(i) % 256
  {
    PowPositive(i);
    if i > 0 {
      BEDigit(x / 256, n - 1, i - 1);
      DivDiv(x, 256, Pow256(i - 1));
    }
  }

  // ---------------------------------------------------------------- fields in a row

  /** The fields one after another, then `tail`. */
  function Layout(fields: seq<seq<byte>>, tail: seq<byte>): seq<byte> {
    if fields == [] then tail else fields[0] + Layout(fields[1..], tail)
  }

  /** Where field `i` begins. */
  function Offset(fields: seq<seq<byte>>, i: nat): nat
    requires i <= |fields|
  {
    if i == 0 then 0 else Offset(fields, i - 1) + |fields[i - 1]|
  }

  lemma {:induction false} OffsetTail(fields: seq<seq<byte>>, i: nat)
    requires 0 < i <= |fields|
    ensures Offset(fields, i) == |fields[0]| + Offset(fields[1..], i - 1)
  {
    if i > 1 {
      OffsetTail(fields, i - 1);
      assert fields[1..][i - 2] == fields[i - 1];
    }
  }

  /** Each field is found at its offset. */
  lemma {:induction false} FieldAt(fields: seq<seq<byte>>, tail: seq<byte>, i: nat)
    requires i < |fields|
    ensures Offset(fields, i + 1) <= |Layout(fields, tail)|
    ensures Layout(fields, tail)[Offset(fields, i)..Offset(fields, i + 1)] == fields[i]
  {
    var rest := Layout(fields[1..], tail);
    OffsetTail(fields, i + 1);
    if i == 0 {
      assert Offset(fields[1..], 0) == 0;
    } else {
      OffsetTail(fields, i);
      FieldAt(fields[1..], tail, i - 1);
      Shifted(fields[0], rest, Offset(fields[1..], i - 1), Offset(fields[1..], i));
    }
  }

  lemma Shifted(a: seq<byte>, b: seq<byte>, lo: nat, hi: nat)
    requires lo <= hi <= |b|
    ensures (a + b)[|a| + lo..|a| + hi] == b[lo..hi]
  {
  }

  lemma {:induction false} TailAt(fields: seq<seq<byte>>, tail: seq<byte>)
    ensures Offset(fields, |fields|) <= |Layout(fields, tail)|
    ensures Layout(fields, tail)[Offset(fields, |fields|)..] == tail
  {
    if fields != [] {
      OffsetTail(fields, |fields|);
      TailAt(fields[1..], tail);
    }
  }

  lemma {:induction false} LayoutThen(fields: seq<seq<byte>>, tail: seq<byte>, more: seq<byte>)
    ensures Layout(fields, tail) + more == Layout(fields, tail + more)
  {
    if fields != [] {
      LayoutThen(fields[1..], tail, more);
      assert fields[0] + Layout(fields[1..], tail) + more == fields[0] + (Layout(fields[1..], tail) + more);
    }
  }
}
