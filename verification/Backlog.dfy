/** The reported backlog against the true number of unacknowledged stored messages. */
module Backlogs {
  import opened Base
  import opened Positions
  import opened RangeSets
  import opened LedgerLog
  import opened ManagedCursors

  function Total(info: Info): nat {
    if info == [] then 0 else Total(info[..|info| - 1]) + info[|info| - 1].entries
  }

  /** Entries of the ledgers below `id`. */
  function Retired(info: Info, id: nat): nat {
    if info == [] then 0
    else Retired(info[..|info| - 1], id) + if info[|info| - 1].id < id then info[|info| - 1].entries else 0
  }

  function HoleCount(holes: seq<Range>): nat {
    if holes == [] then 0
    else (if holes[0].hi.entry < holes[0].lo.entry then 0 else holes[0].hi.entry - holes[0].lo.entry)
         + 1 + HoleCount(holes[1..])
  }

  function SaturatingSub(a: nat, b: nat): nat {
    if a < b then 0 else a - b
  }

  function BacklogEntries(info: Info, st: CursorState): nat {
    match st.mark
    case None => Total(info)
    case Some(m) => SaturatingSub(Total(info), Retired(info, m.ledger) + m.entry + 1 + HoleCount(st.holes))
  }

  // ---------------------------------------------------------------- counting

  /** Entries `lo .. hi` of one ledger. */
  ghost function Segment(id: nat, lo: nat, hi: nat): set<Pos> {
    set e: nat | lo <= e < hi :: Pos(id, e)
  }

  lemma {:induction false} SegmentSize(id: nat, lo: nat, hi: nat)
    requires lo <= hi
    ensures |Segment(id, lo, hi)| == hi - lo
    decreases hi
  {
    if lo < hi {
      SegmentSize(id, lo, hi - 1);
      assert Segment(id, lo, hi) == Segment(id, lo, hi - 1) + {Pos(id, hi - 1)};
    } else {
      assert Segment(id, lo, hi) == {};
    }
  }

  ghost function Messages(info: Info): set<Pos> {
    set p | p in Log(info)
  }

  ghost function UpTo(info: Info, m: Pos): set<Pos> {
    set p | p in Log(info) && p.Le(m)
  }

  ghost function Unacked(info: Info, st: CursorState): set<Pos> {
    set p | p in Log(info) && !Acked(st, p)
  }

  ghost function HolePoints(holes: seq<Range>): set<Pos> {
    if holes == [] then {}
    else Segment(holes[0].lo.ledger, holes[0].lo.entry, holes[0].hi.entry + 1) + HolePoints(holes[1..])
  }

  function EntriesOf(info: Info, id: nat): nat {
    if info == [] then 0
    else if info[|info| - 1].id == id then info[|info| - 1].entries else EntriesOf(info[..|info| - 1], id)
  }

  lemma LogSplit(info: Info)
    requires Ascending(info) && info != []
    ensures var last := info[|info| - 1];
            Messages(info) == Messages(info[..|info| - 1]) + Segment(last.id, 0, last.entries)
            && forall p :: p in Messages(info[..|info| - 1]) ==> p.ledger < last.id
  {
    var init, last := info[..|info| - 1], info[|info| - 1];
    LogMembers(init);
    forall p | p in Messages(init) ensures p.ledger < last.id {
      var k :| 0 <= k < |init| && init[k].id == p.ledger && p.entry < init[k].entries;
      assert info[k] == init[k];
    }
    forall p ensures p in Entries(last) <==> p in Segment(last.id, 0, last.entries) {
      if p in Segment(last.id, 0, last.entries) { assert Entries(last)[p.entry] == p; }
    }
  }

  lemma {:induction false} MessageCount(info: Info)
    requires Ascending(info)
    ensures |Messages(info)| == Total(info)
  {
    if info != [] {
      var init, last := info[..|info| - 1], info[|info| - 1];
      MessageCount(init);
      LogSplit(info);
      SegmentSize(last.id, 0, last.entries);
      assert Messages(init) !! Segment(last.id, 0, last.entries);
    }
  }

  /** Messages of the last ledger at or below `m`. */
  function LastUpTo(last: LedgerInfo, m: Pos): nat {
    if last.id < m.ledger then last.entries
    else if last.id == m.ledger then Lesser(m.entry + 1, last.entries) else 0
  }

  lemma UpToSplit(info: Info, m: Pos)
    requires Ascending(info) && info != []
    ensures var last := info[|info| - 1]; var init := info[..|info| - 1];
            && UpTo(info, m) == UpTo(init, m) + Segment(last.id, 0, LastUpTo(last, m))
            && UpTo(init, m) !! Segment(last.id, 0, LastUpTo(last, m))
  {
    var init, last := info[..|info| - 1], info[|info| - 1];
    LogSplit(info);
    forall p ensures p in UpTo(info, m) <==> p in UpTo(init, m) || p in Segment(last.id, 0, LastUpTo(last, m)) {
      assert p in UpTo(info, m) <==> p in Messages(info) && p.Le(m);
      assert p in UpTo(init, m) <==> p in Messages(init) && p.Le(m);
    }
    forall p | p in UpTo(init, m) ensures p.ledger < last.id { assert p in Messages(init); }
  }

  /** Stored messages at or below `m`, whether or not `m` itself is stored. */
  lemma {:induction false} UpToCount(info: Info, m: Pos)
    requires Ascending(info)
    ensures |UpTo(info, m)| == Retired(info, m.ledger) + Lesser(m.entry + 1, EntriesOf(info, m.ledger))
  {
    if info != [] {
      var init, last := info[..|info| - 1], info[|info| - 1];
      UpToCount(init, m);
      UpToSplit(info, m);
      SegmentSize(last.id, 0, LastUpTo(last, m));
      if last.id <= m.ledger { AbsentBelow(info, m.ledger); }
    }
  }

  /** When the last ledger already reaches `id`, the earlier ones do not hold it. */
  lemma {:induction false} AbsentBelow(info: Info, id: nat)
    requires Ascending(info) && info != [] && info[|info| - 1].id <= id
    ensures EntriesOf(info[..|info| - 1], id) == 0
    decreases |info|
  {
    var init := info[..|info| - 1];
    if init != [] {
      assert init[|init| - 1].id < info[|info| - 1].id;
      AbsentBelow(init, id);
    }
  }

  lemma {:induction false} HolePointsCover(holes: seq<Range>, p: Pos)
    requires Canonical(holes) && OneLedger(holes)
    ensures p in HolePoints(holes) <==> Covers(holes, p)
    decreases |holes|
  {
    if holes != [] {
      RestAbove(holes);
      HolePointsCover(holes[1..], p);
      SegmentIsRange(holes[0], p);
    }
  }

  lemma {:induction false} HolePointCount(holes: seq<Range>)
    requires Canonical(holes) && OneLedger(holes)
    ensures |HolePoints(holes)| == HoleCount(holes)
    decreases |holes|
  {
    if holes != [] {
      RestOk(holes);
      FirstSize(holes);
      HolePointCount(holes[1..]);
    }
  }

  lemma RestOk(holes: seq<Range>)
    requires Canonical(holes) && OneLedger(holes) && holes != []
    ensures Canonical(holes[1..]) && OneLedger(holes[1..])
  {
    RestAbove(holes);
  }

  lemma FirstSize(holes: seq<Range>)
    requires Canonical(holes) && OneLedger(holes) && holes != []
    ensures |HolePoints(holes)| - |HolePoints(holes[1..])| == HoleCount(holes) - HoleCount(holes[1..])
  {
    FirstLength(holes);
    SegmentSize(holes[0].lo.ledger, holes[0].lo.entry, holes[0].hi.entry + 1);
    FirstDisjoint(holes);
  }

  lemma FirstDisjoint(holes: seq<Range>)
    requires Canonical(holes) && OneLedger(holes) && holes != []
    ensures |HolePoints(holes)| ==
              |Segment(holes[0].lo.ledger, holes[0].lo.entry, holes[0].hi.entry + 1)| + |HolePoints(holes[1..])|
  {
    forall p | p in HolePoints(holes[1..])
      ensures p !in Segment(holes[0].lo.ledger, holes[0].lo.entry, holes[0].hi.entry + 1)
    {
      FirstApart(holes, p);
    }
    UnionSize(Segment(holes[0].lo.ledger, holes[0].lo.entry, holes[0].hi.entry + 1), HolePoints(holes[1..]));
  }

  lemma UnionSize(a: set<Pos>, b: set<Pos>)
    requires forall p :: p in b ==> p !in a
    ensures |a + b| == |a| + |b|
  {
  }

  lemma FirstLength(holes: seq<Range>)
    requires Canonical(holes) && OneLedger(holes) && holes != []
    ensures holes[0].lo.entry <= holes[0].hi.entry
    ensures HoleCount(holes) == holes[0].hi.entry + 1 - holes[0].lo.entry + HoleCount(holes[1..])
  {
    assert holes[0] in holes;
  }

  lemma FirstApart(holes: seq<Range>, p: Pos)
    requires Canonical(holes) && OneLedger(holes) && holes != []
    ensures p in HolePoints(holes[1..]) ==>
              p !in Segment(holes[0].lo.ledger, holes[0].lo.entry, holes[0].hi.entry + 1)
  {
    RestAbove(holes);
    HolePointsCover(holes[1..], p);
    RestCovers(holes, p);
    SegmentIsRange(holes[0], p);
  }

  lemma SegmentIsRange(r: Range, p: Pos)
    requires r.lo.ledger == r.hi.ledger
    ensures p in Segment(r.lo.ledger, r.lo.entry, r.hi.entry + 1) <==> r.Has(p)
  {
  }

  /** Holes are stored and lie above the frontier, which itself may be any position. */
  ghost predicate Counted(info: Info, st: CursorState) {
    && WellFormed(info) && Canonical(st.holes) && OneLedger(st.holes)
    && (forall p :: Covers(st.holes, p) ==> Stored(info, p))
    && (st.mark.Some? ==> forall r :: r in st.holes ==> st.mark.value.Lt(r.lo))
  }

  ghost function MarkSet(info: Info, st: CursorState): set<Pos> {
    if st.mark.None? then {} else UpTo(info, st.mark.value)
  }

  lemma OneOfThree(info: Info, st: CursorState, p: Pos)
    requires Counted(info, st)
    ensures p in Log(info) <==> p in MarkSet(info, st) || p in HolePoints(st.holes) || p in Unacked(info, st)
    ensures p in HolePoints(st.holes) ==> p !in MarkSet(info, st)
    ensures p in Unacked(info, st) ==> p !in MarkSet(info, st) && p !in HolePoints(st.holes)
  {
    HolePointsCover(st.holes, p);
    LogMembers(info);
  }

  /** Frontier, holes and unacknowledged messages split the log into three. */
  lemma ThreeParts(info: Info, st: CursorState)
    requires Counted(info, st)
    ensures |Messages(info)| == |MarkSet(info, st)| + HoleCount(st.holes) + |Unacked(info, st)|
  {
    HolePointCount(st.holes);
    forall p
      ensures p in Messages(info) <==> p in MarkSet(info, st) || p in HolePoints(st.holes) || p in Unacked(info, st)
      ensures p in HolePoints(st.holes) ==> p !in MarkSet(info, st)
      ensures p in Unacked(info, st) ==> p !in MarkSet(info, st) && p !in HolePoints(st.holes)
    {
      OneOfThree(info, st, p);
    }
    DisjointSizes(Messages(info), MarkSet(info, st), HolePoints(st.holes), Unacked(info, st));
  }

  lemma DisjointSizes(whole: set<Pos>, a: set<Pos>, b: set<Pos>, c: set<Pos>)
    requires forall p :: p in whole <==> p in a || p in b || p in c
    requires forall p :: p in b ==> p !in a
    requires forall p :: p in c ==> p !in a && p !in b
    ensures |whole| == |a| + |b| + |c|
  {
    assert whole == a + b + c;
    assert |a + b| == |a| + |b|;
  }

  /** How far the frontier overshoots the entries its ledger really holds. */
  function Overshoot(info: Info, m: Pos): nat {
    m.entry + 1 - Lesser(m.entry + 1, EntriesOf(info, m.ledger))
  }

  /** For every frontier, the report is the true count less the overshoot, never below zero;
      with no frontier it is the true count plus the individually acknowledged messages. */
  lemma BacklogExact(info: Info, st: CursorState)
    requires Counted(info, st)
    ensures var truth := |Unacked(info, st)|;
            match st.mark
            case None => BacklogEntries(info, st) == truth + HoleCount(st.holes)
            case Some(m) => BacklogEntries(info, st) == SaturatingSub(truth, Overshoot(info, m))
  {
    ThreeParts(info, st);
    MessageCount(info);
    if st.mark.Some? { UpToCount(info, st.mark.value); }
  }

  lemma {:induction false} StoredEntries(info: Info, p: Pos)
    requires Ascending(info) && Stored(info, p)
    ensures p.entry < EntriesOf(info, p.ledger)
    decreases |info|
  {
    var k :| 0 <= k < |info| && info[k].id == p.ledger && p.entry < info[k].entries;
    if k < |info| - 1 {
      var init := info[..|info| - 1];
      assert init[k] == info[k];
      StoredEntries(init, p);
    }
  }

  /** On every cursor reached by shared acks and seeks, a set frontier makes the report exact. */
  lemma BacklogOfCursor(info: Info, st: CursorState)
    requires WellFormed(info) && Inv(info, st)
    ensures st.mark.Some? ==> BacklogEntries(info, st) == |Unacked(info, st)|
    ensures st.mark.None? ==> BacklogEntries(info, st) == |Unacked(info, st)| + HoleCount(st.holes)
    ensures st.mark.None? ==> |Messages(info)| - |Unacked(info, st)| == HoleCount(st.holes)
  {
    BacklogExact(info, st);
    ThreeParts(info, st);
    if st.mark.Some? { StoredEntries(info, st.mark.value); }
  }
}
