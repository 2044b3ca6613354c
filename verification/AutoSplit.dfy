/**
 Automatic hash ranges: 0..65535 is split evenly over the connected consumers, in id order.
 */
module AutoSplit {
  const HASHES := 65536
  const I32_MAX := 0x7fff_ffff

  datatype Range = Range(start: int, end: int) {
    predicate Has(h: int) { start <= h <= end }
  }

  datatype Assigned = Assigned(range: Range, consumer: nat)

  /** Where the share of consumer `i` of `n` begins. */
  function Share(i: nat, n: nat): nat
    requires n > 0
  {
    i * HASHES / n
  }

  function RangeOf(i: nat, n: nat): Range
    requires i < n
  {
    Range(Share(i, n), Share(i + 1, n) - 1)
  }

  /** The assignments of the first `k` consumers. */
  function Assignments(ids: seq<nat>, k: nat): (a: seq<Assigned>)
    requires k <= |ids|
    ensures |a| == k && forall i :: 0 <= i < k ==> a[i] == Assigned(RangeOf(i, |ids|), ids[i])
  {
    if k == 0 then [] else Assignments(ids, k - 1) + [Assigned(RangeOf(k - 1, |ids|), ids[k - 1])]
  }

  method Rebuild(ids: seq<nat>) returns (a: seq<Assigned>)
    ensures a == Assignments(ids, |ids|)
  {
    a := [];
    var i := 0;
    while i < |ids|
      invariant i <= |ids| && a == Assignments(ids, i)
    {
      var start := i * HASHES / |ids|;
      var end := (i + 1) * HASHES / |ids| - 1;
      a := a + [Assigned(Range(start, end), ids[i])];
      i := i + 1;
    }
  }

  // ---------------------------------------------------------------- arithmetic

  lemma MulLe(n: nat, a: nat, b: nat)
    requires a <= b
    ensures n * a <= n * b
  {
    assert n * b == n * a + n * (b - a);
  }

  lemma DivAtLeast(x: nat, n: nat, k: nat)
    requires n > 0 && n * k <= x
    ensures k <= x / n
  {
    if x / n < k { MulLe(n, x / n + 1, k); }
  }

  lemma DivBelow(x: nat, n: nat, k: nat)
    requires n > 0 && x < n * k
    ensures x / n < k
  {
    if x / n >= k { MulLe(n, k, x / n); }
  }

  lemma DivMonotone(a: nat, b: nat, n: nat)
    requires n > 0 && a <= b
    ensures a / n <= b / n
  {
    DivAtLeast(b, n, a / n);
  }

  lemma AddDiv(a: nat, q: nat, r: nat, n: nat)
    requires n > 0 && r < n
    ensures a / n + q <= (a + n * q + r) / n <= a / n + q + if r == 0 then 0 else 1
  {
    var k, x := a / n + q, a + n * q + r;
    assert n * k == n * (a / n) + n * q;
    DivAtLeast(x, n, k);
    if r == 0 {
      assert n * (k + 1) == n * k + n;
      DivBelow(x, n, k + 1);
    } else {
      assert n * (k + 2) == n * k + 2 * n;
      DivBelow(x, n, k + 2);
    }
  }

  lemma ShareStep(i: nat, n: nat)
    requires n > 0
    ensures HASHES / n <= Share(i + 1, n) - Share(i, n) <= HASHES / n + if HASHES % n == 0 then 0 else 1
  {
    var a, q, r := i * HASHES, HASHES / n, HASHES % n;
    AddDiv(a, q, r, n);
    assert n * q + r == HASHES && (i + 1) * HASHES == a + n * q + r;
  }

  lemma ShareEnds(n: nat)
    requires n > 0
    ensures Share(0, n) == 0 && Share(n, n) == HASHES
  {
    DivAtLeast(n * HASHES, n, HASHES);
    assert n * (HASHES + 1) == n * HASHES + n;
    DivBelow(n * HASHES, n, HASHES + 1);
    DivBelow(0, n, 1);
  }

  lemma ShareMonotone(i: nat, j: nat, n: nat)
    requires n > 0 && i <= j
    ensures Share(i, n) <= Share(j, n)
  {
    DivMonotone(i * HASHES, j * HASHES, n);
  }

  // ---------------------------------------------------------------- the split

  /** The consumer whose share contains a hash. */
  lemma {:induction false} OwnerBelow(h: nat, k: nat, n: nat) returns (i: nat)
    requires 0 < k <= n && h < Share(k, n)
    ensures i < k && RangeOf(i, n).Has(h)
  {
    ShareEnds(n);
    if Share(k - 1, n) <= h { i := k - 1; } else { i := OwnerBelow(h, k - 1, n); }
  }

  /** Every hash lies in exactly one range. */
  lemma SplitPartitions(h: nat, n: nat) returns (i: nat)
    requires n > 0 && h < HASHES
    ensures i < n && forall j :: 0 <= j < n ==> (RangeOf(j, n).Has(h) <==> j == i)
  {
    ShareEnds(n);
    i := OwnerBelow(h, n, n);
    forall j: nat | j < n ensures RangeOf(j, n).Has(h) <==> j == i {
      if j < i { ShareMonotone(j + 1, i, n); }
      if j > i { ShareMonotone(i + 1, j, n); }
    }
  }

  lemma DivBounds(x: nat, n: nat, k: nat)
    requires n > 0
    ensures x / n < k <==> x < k * n
    ensures k <= x / n <==> k * n <= x
  {
    assert k * n == n * k;
    if x < n * k { DivBelow(x, n, k); } else { DivAtLeast(x, n, k); }
  }

  /** Where each range begins and ends: consumer `i` of `n` has the hashes whose share of the 65536 lies above `i`
      and not above `i + 1` n-ths. */
  lemma RangeExact(i: nat, n: nat, h: nat)
    requires i < n
    ensures RangeOf(i, n).Has(h) <==> i * 65536 < (h + 1) * n <= (i + 1) * 65536
  {
    DivBounds(i * HASHES, n, h + 1);
    DivBounds((i + 1) * HASHES, n, h + 1);
  }

  /** Ranges stay within the hash space and their sizes differ by at most one. */
  lemma SplitIsEven(i: nat, j: nat, n: nat)
    requires i < n && j < n
    ensures 0 <= RangeOf(i, n).start && RangeOf(i, n).end < HASHES
    ensures var a, b := RangeOf(i, n), RangeOf(j, n); -1 <= (a.end - a.start) - (b.end - b.start) <= 1
  {
    ShareStep(i, n);
    ShareStep(j, n);
    ShareEnds(n);
    ShareMonotone(i + 1, n, n);
  }

  /** The largest product computed for consumer `i` fits a signed 32-bit integer. */
  predicate Fits(i: nat) {
    (i + 1) * HASHES <= I32_MAX
  }

  /** Every product of the split fits a signed 32-bit integer exactly for fewer than 32768 consumers. */
  lemma SplitFitsI32(n: nat)
    requires n > 0
    ensures n <= 32767 <==> forall i: nat :: i < n ==> Fits(i)
  {
    if n > 32767 {
      assert !Fits(32767);
    }
  }
}
