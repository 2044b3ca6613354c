/**
 The coalesced set of acknowledged positions, a `BTreeSet<(K, K)>` of inclusive
 ranges. The tree is its in-order sequence; `range(probe..).next()` and
 `range(..=probe).next_back()` are the neighbours of an insertion point.
 */
module RangeSets {
  import opened Base
  import opened Positions

  datatype Range = Range(lo: Pos, hi: Pos) {
    predicate Has(p: Pos) {
      lo.Le(p) && p.Le(hi)
    }

    /** Tree order: by start, then by end. */
    predicate Before(other: Range) {
      lo.Lt(other.lo) || (lo == other.lo && hi.Lt(other.hi))
    }
  }

  function Point(p: Pos): Range {
    Range(p, p)
  }

  ghost predicate Covers(rs: seq<Range>, p: Pos) {
    exists r :: r in rs && r.Has(p)
  }

  /** `a` ends below `b` and at least one position separates them. */
  predicate Gap(a: Range, b: Range) {
    a.hi.Lt(b.lo) && a.hi.Succ() != Some(b.lo)
  }

  /** Sorted, disjoint, non-adjacent, and every range non-empty. */
  ghost predicate Canonical(rs: seq<Range>) {
    && (forall r :: r in rs ==> r.lo.Le(r.hi))
    && (forall i, j :: 0 <= i < j < |rs| ==> Gap(rs[i], rs[j]))
  }

  predicate WithinLedger(r: Range) {
    r.lo.ledger == r.hi.ledger && r.hi.entry < U64_LIMIT
  }

  ghost predicate OneLedger(rs: seq<Range>) {
    forall r :: r in rs ==> WithinLedger(r)
  }

  /** Index of the first range not before `probe`. */
  function FirstAtLeast(rs: seq<Range>, probe: Range, from: nat := 0): (i: nat)
    requires from <= |rs|
    ensures from <= i <= |rs|
    ensures forall k :: from <= k < i ==> rs[k].Before(probe)
    ensures i < |rs| ==> !rs[i].Before(probe)
    decreases |rs| - from
  {
    if from < |rs| && rs[from].Before(probe) then FirstAtLeast(rs, probe, from + 1) else from
  }

  /** Index of the first range after `probe`; the one before it is the largest at most `probe`. */
  function FirstAfter(rs: seq<Range>, probe: Range, from: nat := 0): (i: nat)
    requires from <= |rs|
    ensures from <= i <= |rs|
    ensures forall k :: from <= k < i ==> !probe.Before(rs[k])
    ensures i < |rs| ==> probe.Before(rs[i])
    decreases |rs| - from
  {
    if from < |rs| && !probe.Before(rs[from]) then FirstAfter(rs, probe, from + 1) else from
  }

  function Without(rs: seq<Range>, i: nat): seq<Range>
    requires i < |rs|
  {
    rs[..i] + rs[i + 1..]
  }

  function Limit(end: Pos): Pos {
    if end.Succ().Some? then end.Succ().value else end
  }

  datatype Merge = Merge(ranges: seq<Range>, lo: Pos, hi: Pos)

  /** The loop of `insert_range`: absorb every range starting at or after `lo` that
      touches the growing range. */
  function MergeRight(rs: seq<Range>, lo: Pos, hi: Pos): Merge
    decreases |rs|
  {
    var i := FirstAtLeast(rs, Point(lo));
    if i < |rs| && rs[i].lo.Le(Limit(hi)) then
      MergeRight(Without(rs, i), Min(lo, rs[i].lo), Max(hi, rs[i].hi))
    else
      Merge(rs, lo, hi)
  }

  /** The adjacent left neighbour, if any, is absorbed last. */
  function MergeLeft(m: Merge): Merge {
    var i := FirstAfter(m.ranges, Point(m.lo));
    if i > 0 && m.ranges[i - 1].hi.Succ() == Some(m.lo) then
      Merge(Without(m.ranges, i - 1), m.ranges[i - 1].lo, m.hi)
    else
      m
  }

  function TreeInsert(rs: seq<Range>, r: Range): seq<Range> {
    var i := FirstAtLeast(rs, r);
    if i < |rs| && rs[i] == r then rs else rs[..i] + [r] + rs[i..]
  }

  function RangeInserted(rs: seq<Range>, start: Pos, end: Pos): seq<Range> {
    if end.Lt(start) then rs
    else
      var m := MergeLeft(MergeRight(rs, start, end));
      TreeInsert(m.ranges, Range(m.lo, m.hi))
  }

  /** The two probes of `contains`: the largest range at most `(p, p)`, then the next one. */
  predicate Contains(rs: seq<Range>, p: Pos) {
    var i := FirstAfter(rs, Point(p));
    var j := FirstAtLeast(rs, Point(p));
    (i > 0 && rs[i - 1].Has(p)) || (j < |rs| && rs[j].lo == p)
  }

  function Inserted(rs: seq<Range>, p: Pos): seq<Range> {
    if Contains(rs, p) then rs else RangeInserted(rs, p, p)
  }

  /** The range `take_covering` removes. The first probe does not compare `p` with
      the range's end. */
  function TakeIndex(rs: seq<Range>, p: Pos): (i: Option<nat>)
    ensures i.Some? ==> i.value < |rs|
  {
    var i := FirstAfter(rs, Point(p));
    var j := FirstAtLeast(rs, Point(p));
    if i > 0 && rs[i - 1].lo.Le(p) then Some(i - 1)
    else if j < |rs| && rs[j].lo == p then Some(j)
    else None
  }

  // ---------------------------------------------------------------- order

  lemma GapAt(rs: seq<Range>, i: nat, k: nat)
    requires Canonical(rs) && i < |rs| && k < |rs|
    ensures rs[i].lo.Le(rs[i].hi) && rs[k].lo.Le(rs[k].hi)
    ensures i < k ==> Gap(rs[i], rs[k])
    ensures k < i ==> Gap(rs[k], rs[i])
  {
    assert rs[i] in rs && rs[k] in rs;
  }

  lemma CanonicalPair(rs: seq<Range>, a: Range, b: Range)
    requires Canonical(rs) && a in rs && b in rs
    ensures a == b || Gap(a, b) || Gap(b, a)
  {
    var i :| 0 <= i < |rs| && rs[i] == a;
    var j :| 0 <= j < |rs| && rs[j] == b;
    GapAt(rs, i, j);
  }

  lemma WithoutFacts(rs: seq<Range>, i: nat)
    requires Canonical(rs) && i < |rs|
    ensures Canonical(Without(rs, i))
    ensures forall r :: r in Without(rs, i) <==> r in rs && r != rs[i]
    ensures OneLedger(rs) ==> OneLedger(Without(rs, i))
  {
    var w := Without(rs, i);
    forall k | 0 <= k < |w| ensures w[k] in rs && w[k] != rs[i] {
      assert w[k] == rs[if k < i then k else k + 1];
      assert Gap(rs[if k < i then k else i], rs[if k < i then i else k + 1]);
    }
    forall r | r in rs && r != rs[i] ensures r in w {
      var k :| 0 <= k < |rs| && rs[k] == r;
      assert w[if k < i then k else k - 1] == r;
    }
    forall a, b | 0 <= a < b < |w| ensures Gap(w[a], w[b]) {
      assert Gap(rs[if a < i then a else a + 1], rs[if b < i then b else b + 1]);
    }
  }

  /** The right-hand loop keeps the ranges starting before `lo` and leaves none it could touch. */
  lemma {:induction false} MergeRightShape(rs: seq<Range>, lo: Pos, hi: Pos)
    requires Canonical(rs) && lo.Le(hi)
    ensures var m := MergeRight(rs, lo, hi);
            && m.lo == lo && lo.Le(m.hi) && Canonical(m.ranges)
            && (forall r :: r in m.ranges ==> r in rs && (r.lo.Lt(lo) || Limit(m.hi).Lt(r.lo)))
            && (forall r :: r in rs && r.lo.Lt(lo) ==> r in m.ranges)
    decreases |rs|
  {
    var i := FirstAtLeast(rs, Point(lo));
    if i < |rs| && rs[i].lo.Le(Limit(hi)) {
      WithoutFacts(rs, i);
      assert Min(lo, rs[i].lo) == lo;
      MergeRightShape(Without(rs, i), lo, Max(hi, rs[i].hi));
    } else {
      forall r | r in rs ensures r.lo.Lt(lo) || Limit(hi).Lt(r.lo) {
        var k :| 0 <= k < |rs| && rs[k] == r;
        if i < |rs| { GapAt(rs, i, k); }
      }
    }
  }

  /** Absorbing one touching range unites the two point sets. */
  lemma AbsorbUnion(lo: Pos, hi: Pos, x: Range, p: Pos)
    requires lo.Le(hi) && lo.Le(x.lo) && x.lo.Le(Limit(hi)) && x.lo.Le(x.hi)
    ensures Range(lo, Max(hi, x.hi)).Has(p) <==> Range(lo, hi).Has(p) || x.Has(p)
  {
  }

  lemma {:induction false} MergeRightCovers(rs: seq<Range>, lo: Pos, hi: Pos, p: Pos)
    requires Canonical(rs) && lo.Le(hi)
    ensures var m := MergeRight(rs, lo, hi);
            Covers(m.ranges, p) || Range(lo, m.hi).Has(p) <==> Covers(rs, p) || Range(lo, hi).Has(p)
    decreases |rs|
  {
    var i := FirstAtLeast(rs, Point(lo));
    if i < |rs| && rs[i].lo.Le(Limit(hi)) {
      var x := rs[i];
      assert x in rs;
      WithoutFacts(rs, i);
      assert Min(lo, x.lo) == lo;
      MergeRightCovers(Without(rs, i), lo, Max(hi, x.hi), p);
      AbsorbUnion(lo, hi, x, p);
    }
  }

  lemma {:induction false} MergeRightLedger(rs: seq<Range>, lo: Pos, hi: Pos)
    requires Canonical(rs) && lo.Le(hi) && WithinLedger(Range(lo, hi)) && OneLedger(rs)
    ensures var m := MergeRight(rs, lo, hi);
            OneLedger(m.ranges) && WithinLedger(Range(lo, m.hi))
    decreases |rs|
  {
    var i := FirstAtLeast(rs, Point(lo));
    if i < |rs| && rs[i].lo.Le(Limit(hi)) {
      assert rs[i] in rs;
      WithoutFacts(rs, i);
      assert Min(lo, rs[i].lo) == lo;
      MergeRightLedger(Without(rs, i), lo, Max(hi, rs[i].hi));
    }
  }

  // ---------------------------------------------------------------- insert

  lemma TreeInsertMembers(rs: seq<Range>, x: Range)
    requires x !in rs
    ensures forall r :: r in TreeInsert(rs, x) <==> r in rs || r == x
    ensures forall p :: Covers(TreeInsert(rs, x), p) <==> Covers(rs, p) || x.Has(p)
  {
    var i := FirstAtLeast(rs, x);
    var t := TreeInsert(rs, x);
    assert t == rs[..i] + [x] + rs[i..];
    assert rs == rs[..i] + rs[i..];
  }

  /** The new range is put where order wants it: it keeps its distance from each neighbour. */
  lemma TreeInsertOrder(rs: seq<Range>, x: Range, k: nat)
    requires Canonical(rs) && x.lo.Le(x.hi) && k < |rs|
    requires Gap(rs[k], x) || Gap(x, rs[k])
    ensures k < FirstAtLeast(rs, x) ==> Gap(rs[k], x)
    ensures k >= FirstAtLeast(rs, x) ==> Gap(x, rs[k])
  {
    var i := FirstAtLeast(rs, x);
    assert rs[k] in rs;
    if i < |rs| { GapAt(rs, i, k); }
  }

  lemma TreeInsertCanonical(rs: seq<Range>, x: Range)
    requires Canonical(rs) && x.lo.Le(x.hi) && x !in rs
    requires forall r :: r in rs ==> Gap(r, x) || Gap(x, r)
    ensures Canonical(TreeInsert(rs, x))
  {
    var i := FirstAtLeast(rs, x);
    var t := TreeInsert(rs, x);
    TreeInsertMembers(rs, x);
    assert t == rs[..i] + [x] + rs[i..];
    forall a, b | 0 <= a < b < |t| ensures Gap(t[a], t[b]) {
      if a == i {
        TreeInsertOrder(rs, x, b - 1);
      } else if b == i {
        TreeInsertOrder(rs, x, a);
      } else {
        assert Gap(rs[if a < i then a else a - 1], rs[if b < i then b else b - 1]);
      }
    }
  }

  /** `start` lies in a stored range that begins earlier: the case `insert_range` does not merge. */
  ghost predicate InsideEarlier(rs: seq<Range>, start: Pos) {
    exists r :: r in rs && r.lo.Lt(start) && start.Le(r.hi)
  }

  /** The left neighbour found by the probe is the last range starting before `lo`. */
  lemma LeftNeighbour(rs: seq<Range>, lo: Pos)
    requires Canonical(rs)
    requires forall r :: r in rs ==> r.lo != lo
    ensures var i := FirstAfter(rs, Point(lo));
            && (i > 0 ==> rs[i - 1].lo.Lt(lo))
            && forall r :: r in rs && r.lo.Lt(lo) ==> i > 0 && (r == rs[i - 1] || Gap(r, rs[i - 1]))
  {
    var i := FirstAfter(rs, Point(lo));
    forall r | r in rs && r.lo.Lt(lo) ensures i > 0 && (r == rs[i - 1] || Gap(r, rs[i - 1])) {
      var k :| 0 <= k < |rs| && rs[k] == r;
      if i < |rs| { GapAt(rs, i, k); }
      if i > 0 { GapAt(rs, i - 1, k); }
    }
  }

  ghost predicate Merged(m: Merge) {
    && Canonical(m.ranges) && m.lo.Le(m.hi)
    && forall r :: r in m.ranges ==> r.lo.Lt(m.lo) || Limit(m.hi).Lt(r.lo)
  }

  /** An adjacent left neighbour ends right below `lo`, so `lo` is inside no earlier range. */
  lemma AdjacentLeft(m: Merge)
    requires Merged(m) && MergeLeft(m) != m
    ensures var i := FirstAfter(m.ranges, Point(m.lo));
            && i > 0 && m.ranges[i - 1].hi.Lt(m.lo)
            && forall r :: r in m.ranges && r.lo.Lt(m.lo) ==> r.hi.Le(m.ranges[i - 1].hi)
  {
    LeftNeighbour(m.ranges, m.lo);
  }

  /** A range is clear of `[lo, hi]` when it ends before `lo` with a gap or starts past the limit of `hi`. */
  lemma ClearOf(r: Range, l: Range, hi: Pos)
    requires Gap(r, l) || Limit(hi).Lt(r.lo)
    ensures Gap(r, Range(l.lo, hi)) || Gap(Range(l.lo, hi), r)
  {
  }

  lemma MergeLeftClear(m: Merge, r: Range)
    requires Merged(m) && MergeLeft(m) != m && r in MergeLeft(m).ranges
    ensures var n := MergeLeft(m);
            r in m.ranges && (Gap(r, Range(n.lo, n.hi)) || Gap(Range(n.lo, n.hi), r))
  {
    var i := FirstAfter(m.ranges, Point(m.lo));
    LeftNeighbour(m.ranges, m.lo);
    WithoutFacts(m.ranges, i - 1);
    ClearOf(r, m.ranges[i - 1], m.hi);
  }

  lemma MergeLeftShape(m: Merge)
    requires Merged(m) && MergeLeft(m) != m
    ensures var n := MergeLeft(m); var x := Range(n.lo, n.hi);
            && Canonical(n.ranges) && n.lo.Le(n.hi)
            && (forall r :: r in n.ranges ==> r in m.ranges && (Gap(r, x) || Gap(x, r)))
  {
    var i := FirstAfter(m.ranges, Point(m.lo));
    WithoutFacts(m.ranges, i - 1);
    GapAt(m.ranges, i - 1, i - 1);
    var n := MergeLeft(m);
    forall r | r in n.ranges ensures r in m.ranges && (Gap(r, Range(n.lo, n.hi)) || Gap(Range(n.lo, n.hi), r)) {
      MergeLeftClear(m, r);
    }
  }

  lemma MergeLeftFresh(m: Merge)
    requires Merged(m)
    ensures Range(MergeLeft(m).lo, MergeLeft(m).hi) !in MergeLeft(m).ranges
  {
    if MergeLeft(m) != m {
      MergeLeftShape(m);
    }
  }

  lemma MergeLeftCovers(m: Merge, p: Pos)
    requires Merged(m)
    ensures var n := MergeLeft(m);
            Covers(n.ranges, p) || Range(n.lo, n.hi).Has(p) <==> Covers(m.ranges, p) || Range(m.lo, m.hi).Has(p)
  {
    if MergeLeft(m) != m {
      var i := FirstAfter(m.ranges, Point(m.lo));
      var l := m.ranges[i - 1];
      assert l in m.ranges;
      LeftNeighbour(m.ranges, m.lo);
      AbsorbUnion(l.lo, l.hi, Range(m.lo, m.hi), p);
      WithoutCovers(m.ranges, i - 1, p);
    }
  }

  lemma WithoutCovers(rs: seq<Range>, i: nat, p: Pos)
    requires Canonical(rs) && i < |rs|
    ensures Covers(rs, p) <==> Covers(Without(rs, i), p) || rs[i].Has(p)
  {
    WithoutFacts(rs, i);
    assert rs[i] in rs;
  }

  lemma MergeLeftKeeps(m: Merge)
    requires Merged(m) && MergeLeft(m) == m
    ensures (forall r :: r in m.ranges ==> Gap(r, Range(m.lo, m.hi)) || Gap(Range(m.lo, m.hi), r))
            <==> !InsideEarlier(m.ranges, m.lo)
  {
    var x := Range(m.lo, m.hi);
    if r :| r in m.ranges && r.lo.Lt(m.lo) && m.lo.Le(r.hi) {
      assert !Gap(r, x) && !Gap(x, r);
    } else {
      forall r | r in m.ranges ensures Gap(r, x) || Gap(x, r) {
        UntouchedClear(m, r);
      }
    }
  }

  lemma UntouchedClear(m: Merge, r: Range)
    requires Merged(m) && MergeLeft(m) == m && !InsideEarlier(m.ranges, m.lo) && r in m.ranges
    ensures Gap(r, Range(m.lo, m.hi)) || Gap(Range(m.lo, m.hi), r)
  {
    LeftNeighbour(m.ranges, m.lo);
    if r.lo.Lt(m.lo) {
      var l := m.ranges[FirstAfter(m.ranges, Point(m.lo)) - 1];
      assert l in m.ranges && l.hi.Lt(m.lo);
    }
  }

  lemma OverlapNotCanonical(rs: seq<Range>, a: Range, b: Range)
    requires a in rs && b in rs && a != b && !Gap(a, b) && !Gap(b, a)
    ensures !Canonical(rs)
  {
    if Canonical(rs) {
      CanonicalPair(rs, a, b);
    }
  }

  lemma InsertRangeCovers(rs: seq<Range>, start: Pos, end: Pos, p: Pos)
    requires Canonical(rs) && start.Le(end)
    ensures Covers(RangeInserted(rs, start, end), p) <==> Covers(rs, p) || Range(start, end).Has(p)
  {
    MergeRightShape(rs, start, end);
    MergeRightCovers(rs, start, end, p);
    var m := MergeRight(rs, start, end);
    MergeLeftCovers(m, p);
    MergeLeftFresh(m);
    var n := MergeLeft(m);
    TreeInsertMembers(n.ranges, Range(n.lo, n.hi));
  }

  lemma MergedCanonical(m: Merge)
    requires Merged(m)
    ensures var n := MergeLeft(m);
            Canonical(TreeInsert(n.ranges, Range(n.lo, n.hi))) <==> !InsideEarlier(m.ranges, m.lo)
  {
    var n := MergeLeft(m);
    var x := Range(n.lo, n.hi);
    MergeLeftFresh(m);
    if n != m {
      AdjacentLeft(m);
      MergeLeftShape(m);
      TreeInsertCanonical(n.ranges, x);
    } else {
      MergeLeftKeeps(m);
      if InsideEarlier(m.ranges, m.lo) {
        var r :| r in n.ranges && !Gap(r, x) && !Gap(x, r);
        TreeInsertMembers(n.ranges, x);
        OverlapNotCanonical(TreeInsert(n.ranges, x), r, x);
      } else {
        TreeInsertCanonical(n.ranges, x);
      }
    }
  }

  lemma InsertRangeCanonical(rs: seq<Range>, start: Pos, end: Pos)
    requires Canonical(rs) && start.Le(end)
    ensures Canonical(RangeInserted(rs, start, end)) <==> !InsideEarlier(rs, start)
  {
    MergeRightShape(rs, start, end);
    MergedCanonical(MergeRight(rs, start, end));
  }

  lemma InsertRangeLedger(rs: seq<Range>, start: Pos, end: Pos)
    requires Canonical(rs) && start.Le(end) && OneLedger(rs) && WithinLedger(Range(start, end))
    ensures OneLedger(RangeInserted(rs, start, end))
  {
    MergeRightShape(rs, start, end);
    MergeRightLedger(rs, start, end);
    var m := MergeRight(rs, start, end);
    var n := MergeLeft(m);
    if n != m {
      var i := FirstAfter(m.ranges, Point(m.lo));
      assert m.ranges[i - 1] in m.ranges;
      WithoutFacts(m.ranges, i - 1);
    }
    MergeLeftFresh(m);
    TreeInsertMembers(n.ranges, Range(n.lo, n.hi));
  }

  /** `insert_range` always covers exactly the union, and its result is canonical if and
      only if `start` is not strictly inside a range that begins earlier. */
  lemma InsertRangeExact(rs: seq<Range>, start: Pos, end: Pos)
    requires Canonical(rs) && start.Le(end)
    ensures forall p :: Covers(RangeInserted(rs, start, end), p) <==> Covers(rs, p) || Range(start, end).Has(p)
    ensures Canonical(RangeInserted(rs, start, end)) <==> !InsideEarlier(rs, start)
    ensures OneLedger(rs) && WithinLedger(Range(start, end)) ==> OneLedger(RangeInserted(rs, start, end))
  {
    forall p ensures Covers(RangeInserted(rs, start, end), p) <==> Covers(rs, p) || Range(start, end).Has(p) {
      InsertRangeCovers(rs, start, end, p);
    }
    InsertRangeCanonical(rs, start, end);
    if OneLedger(rs) && WithinLedger(Range(start, end)) {
      InsertRangeLedger(rs, start, end);
    }
  }

  /** A concrete misuse: `[4, 5]` into `{[1, 9]}` leaves two overlapping ranges. */
  lemma InsertRangeOverlap()
    ensures var rs := [Range(Pos(0, 1), Pos(0, 9))];
            Canonical(rs) && !Canonical(RangeInserted(rs, Pos(0, 4), Pos(0, 5)))
  {
    var rs := [Range(Pos(0, 1), Pos(0, 9))];
    assert rs[0] in rs;
    assert InsideEarlier(rs, Pos(0, 4));
    InsertRangeExact(rs, Pos(0, 4), Pos(0, 5));
  }

  /** With a range at most `(p, p)`, `take_covering` and `contains` see it first. */
  lemma TakeByFirstProbe(rs: seq<Range>, p: Pos)
    requires Canonical(rs) && FirstAfter(rs, Point(p)) > 0
    ensures var c := rs[FirstAfter(rs, Point(p)) - 1];
            && c in rs && TakeIndex(rs, p) == Some(FirstAfter(rs, Point(p)) - 1)
            && c.lo.Le(p) && (c.lo == p ==> c.hi == p)
            && forall r :: r in rs && r.Has(p) && (r.lo.Lt(p) || r.hi == p) ==> r == c
  {
    var i := FirstAfter(rs, Point(p));
    var c := rs[i - 1];
    assert c in rs && !Point(p).Before(c);
    forall r | r in rs && r.Has(p) && (r.lo.Lt(p) || r.hi == p) ensures r == c {
      var k :| 0 <= k < |rs| && rs[k] == r;
      if i < |rs| { GapAt(rs, i, k); }
      GapAt(rs, i - 1, k);
    }
  }

  /** The second probe finds the range that starts exactly at the probed position. */
  lemma StartProbe(rs: seq<Range>, r: Range)
    requires Canonical(rs) && r in rs
    ensures var j := FirstAtLeast(rs, Point(r.lo)); j < |rs| && rs[j] == r
  {
    var j := FirstAtLeast(rs, Point(r.lo));
    var k :| 0 <= k < |rs| && rs[k] == r;
    GapAt(rs, j, k);
  }

  lemma ContainsExact(rs: seq<Range>, p: Pos)
    requires Canonical(rs)
    ensures Contains(rs, p) <==> Covers(rs, p)
  {
    if FirstAfter(rs, Point(p)) > 0 {
      TakeByFirstProbe(rs, p);
    }
    if r :| r in rs && r.Has(p) {
      if r.lo == p {
        StartProbe(rs, r);
      } else {
        var k :| 0 <= k < |rs| && rs[k] == r;
        GapAt(rs, 0, k);
      }
    }
    var j := FirstAtLeast(rs, Point(p));
    if j < |rs| && rs[j].lo == p {
      assert rs[j] in rs && rs[j].Has(p);
    }
  }

  /** `insert` adds exactly one position and keeps the ranges canonical and in one ledger each. */
  lemma InsertExact(rs: seq<Range>, p: Pos)
    requires Canonical(rs)
    ensures Canonical(Inserted(rs, p))
    ensures forall q :: Covers(Inserted(rs, p), q) <==> Covers(rs, q) || q == p
    ensures OneLedger(rs) && p.entry < U64_LIMIT ==> OneLedger(Inserted(rs, p))
  {
    ContainsExact(rs, p);
    if !Contains(rs, p) {
      assert forall r :: r in rs ==> !r.Has(p);
      InsertRangeExact(rs, p, p);
    }
  }

  // ---------------------------------------------------------------- take

  ghost predicate NoneBelow(rs: seq<Range>, p: Pos) {
    forall r :: r in rs ==> p.Le(r.hi)
  }

  /** What `take_covering` promises: remove the range covering `p`, or nothing when none does. */
  ghost predicate TakesCovering(rs: seq<Range>, p: Pos) {
    match TakeIndex(rs, p)
    case Some(i) => rs[i].Has(p)
    case None => !Covers(rs, p)
  }

  /** With none, every range reaches `p` or beyond and the second probe decides. */
  lemma TakeBySecondProbe(rs: seq<Range>, p: Pos)
    requires Canonical(rs) && FirstAfter(rs, Point(p)) == 0
    ensures NoneBelow(rs, p) && TakesCovering(rs, p)
  {
    forall k | 0 <= k < |rs| ensures p.Le(rs[k].lo) && rs[k].lo.Le(rs[k].hi) {
      GapAt(rs, 0, k);
    }
    if r :| r in rs && r.Has(p) {
      StartProbe(rs, r);
    }
  }

  /** `take_covering` keeps its promise if and only if no stored range lies wholly below `p`,
      or the covering range starts before `p` or is `p` alone. */
  lemma TakeCoveringExact(rs: seq<Range>, p: Pos)
    requires Canonical(rs)
    ensures TakesCovering(rs, p) <==>
              || NoneBelow(rs, p)
              || (exists r :: r in rs && r.Has(p) && (r.lo.Lt(p) || r.hi == p))
  {
    if FirstAfter(rs, Point(p)) > 0 {
      TakeByFirstProbe(rs, p);
    } else {
      TakeBySecondProbe(rs, p);
    }
  }

  /** Without the condition it removes a range that does not cover `p`: `{[1, 2]}` and `p = 7`. */
  lemma TakeCoveringMiss()
    ensures var rs := [Range(Pos(0, 1), Pos(0, 2))];
            Canonical(rs) && !Covers(rs, Pos(0, 7)) && TakeIndex(rs, Pos(0, 7)) == Some(0)
  {
    var rs := [Range(Pos(0, 1), Pos(0, 2))];
    assert rs[0] in rs;
  }

  // ---------------------------------------------------------------- uniqueness

  /** Everything after the first range lies above it with a gap. */
  lemma RestAbove(rs: seq<Range>)
    requires Canonical(rs) && rs != []
    ensures forall r :: r in rs <==> r == rs[0] || r in rs[1..]
    ensures forall r :: r in rs[1..] ==> Gap(rs[0], r) && r.lo.Le(r.hi)
    ensures rs[0].lo.Le(rs[0].hi) && Canonical(rs[1..])
  {
    assert rs == [rs[0]] + rs[1..];
    assert rs[0] in rs;
    forall r | r in rs[1..] ensures Gap(rs[0], r) && r.lo.Le(r.hi) {
      var k :| 0 <= k < |rs[1..]| && rs[1..][k] == r;
      GapAt(rs, 0, k + 1);
    }
  }

  lemma RestCovers(rs: seq<Range>, p: Pos)
    requires Canonical(rs) && rs != []
    ensures Covers(rs[1..], p) <==> Covers(rs, p) && rs[0].hi.Lt(p)
  {
    RestAbove(rs);
  }

  /** The first range starts at the least covered position. */
  lemma CoversFirst(rs: seq<Range>, p: Pos)
    requires Canonical(rs) && rs != []
    ensures Covers(rs, rs[0].lo)
    ensures Covers(rs, p) ==> rs[0].lo.Le(p)
  {
    RestAbove(rs);
    assert rs[0] in rs && rs[0].Has(rs[0].lo);
  }

  /** In a canonical list the position right after a range is not covered. */
  lemma EndNotCovered(rs: seq<Range>, r: Range, next: Pos)
    requires Canonical(rs) && r in rs && r.hi.Succ() == Some(next)
    ensures !Covers(rs, next)
  {
    forall x | x in rs ensures !x.Has(next) {
      CanonicalPair(rs, x, r);
    }
  }

  lemma FirstRangeUnique(a: seq<Range>, b: seq<Range>)
    requires Canonical(a) && Canonical(b) && OneLedger(a) && OneLedger(b)
    requires a != [] && b != [] && a[0].lo == b[0].lo
    requires forall p :: Covers(a, p) ==> Covers(b, p)
    ensures a[0].hi.Le(b[0].hi)
  {
    assert a[0] in a && b[0] in b;
    if b[0].hi.Lt(a[0].hi) {
      var next := Pos(b[0].hi.ledger, b[0].hi.entry + 1);
      EndNotCovered(b, b[0], next);
      assert a[0].Has(next);
    }
  }

  /** Two canonical range lists with the same covered positions are the same list. */
  lemma {:induction false} CanonicalUnique(a: seq<Range>, b: seq<Range>)
    requires Canonical(a) && Canonical(b) && OneLedger(a) && OneLedger(b)
    requires forall p :: Covers(a, p) <==> Covers(b, p)
    ensures a == b
    decreases |a|
  {
    if a == [] || b == [] {
      if a != [] { CoversFirst(a, a[0].lo); }
      if b != [] { CoversFirst(b, b[0].lo); }
    } else {
      CoversFirst(a, b[0].lo);
      CoversFirst(b, a[0].lo);
      FirstRangeUnique(a, b);
      FirstRangeUnique(b, a);
      RestAbove(a);
      RestAbove(b);
      forall p ensures Covers(a[1..], p) <==> Covers(b[1..], p) {
        RestCovers(a, p);
        RestCovers(b, p);
      }
      CanonicalUnique(a[1..], b[1..]);
      assert a == [a[0]] + a[1..] && b == [b[0]] + b[1..];
    }
  }

  // ---------------------------------------------------------------- the mutable set

  class RangeSet {
    var ranges: seq<Range>

    constructor ()
      ensures ranges == []
    {
      ranges := [];
    }

    method Clear()
      modifies this
      ensures ranges == []
    {
      ranges := [];
    }

    method Has(p: Pos) returns (found: bool)
      ensures found == Contains(ranges, p)
    {
      var i := FirstAfter(ranges, Point(p));
      if i > 0 && ranges[i - 1].Has(p) {
        return true;
      }
      i := FirstAtLeast(ranges, Point(p));
      found := i < |ranges| && ranges[i].lo == p;
    }

    /** The merge loop: take out every range the growing one touches. */
    method MergeAbove(start: Pos, end: Pos) returns (lo: Pos, hi: Pos)
      modifies this
      ensures Merge(ranges, lo, hi) == MergeRight(old(ranges), start, end)
    {
      ghost var result := MergeRight(ranges, start, end);
      lo, hi := start, end;
      var i := FirstAtLeast(ranges, Point(lo));
      while i < |ranges| && ranges[i].lo.Le(Limit(hi))
        invariant i == FirstAtLeast(ranges, Point(lo)) && MergeRight(ranges, lo, hi) == result
        decreases |ranges|
      {
        var r := ranges[i];
        ranges := Without(ranges, i);
        lo, hi := Min(lo, r.lo), Max(hi, r.hi);
        i := FirstAtLeast(ranges, Point(lo));
      }
    }

    method InsertRange(start: Pos, end: Pos)
      modifies this
      ensures ranges == RangeInserted(old(ranges), start, end)
    {
      if end.Lt(start) {
        return;
      }
      var lo, hi := MergeAbove(start, end);
      var i := FirstAfter(ranges, Point(lo));
      if i > 0 && ranges[i - 1].hi.Succ() == Some(lo) {
        lo := ranges[i - 1].lo;
        ranges := Without(ranges, i - 1);
      }
      ranges := TreeInsert(ranges, Range(lo, hi));
    }

    method Insert(p: Pos)
      modifies this
      ensures ranges == Inserted(old(ranges), p)
    {
      var found := Has(p);
      if !found {
        InsertRange(p, p);
      }
    }

    method TakeCovering(p: Pos) returns (end: Option<Pos>)
      modifies this
      ensures match TakeIndex(old(ranges), p)
              case Some(i) => ranges == Without(old(ranges), i) && end == Some(old(ranges)[i].hi)
              case None => ranges == old(ranges) && end == None
    {
      var i := FirstAfter(ranges, Point(p));
      if i > 0 && ranges[i - 1].lo.Le(p) {
        end := Some(ranges[i - 1].hi);
        ranges := Without(ranges, i - 1);
        return;
      }
      i := FirstAtLeast(ranges, Point(p));
      if i < |ranges| && ranges[i].lo == p {
        end := Some(ranges[i].hi);
        ranges := Without(ranges, i);
        return;
      }
      end := None;
    }
  }
}
