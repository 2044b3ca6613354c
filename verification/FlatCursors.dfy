/** The flat `u64` cursor of the in-memory runtime, and its agreement with the segmented one. */
module FlatCursors {
  import opened Base
  import opened Positions
  import opened RangeSets
  import opened LedgerLog
  import opened ManagedCursors

  datatype FlatState = FlatState(mark: Option<nat>, holes: seq<Range>)

  function Next(f: FlatState): Pos {
    Pos(0, if f.mark.None? then 0 else f.mark.value + 1)
  }

  predicate IsMessageAcknowledged(f: FlatState, e: nat) {
    (f.mark.Some? && e <= f.mark.value) || Contains(f.holes, Pos(0, e))
  }

  function AdvanceMarkDelete(f: FlatState): FlatState
    decreases |f.holes|
  {
    match TakeIndex(f.holes, Next(f))
    case None => f
    case Some(i) => AdvanceMarkDelete(FlatState(Some(f.holes[i].hi.entry), Without(f.holes, i)))
  }

  function FlatAck(f: FlatState, e: nat): FlatState {
    if IsMessageAcknowledged(f, e) then f
    else if Pos(0, e) == Next(f) then AdvanceMarkDelete(f.(mark := Some(e)))
    else if f.mark.None? || e > f.mark.value + 1 then f.(holes := Inserted(f.holes, Pos(0, e)))
    else f
  }

  // ---------------------------------------------------------------- refinement

  /** One ledger holding every `u64` entry id that has a successor. */
  const OneBigLedger: Info := [LedgerInfo(0, U64_LIMIT - 1, 0)]

  function Embed(f: FlatState): CursorState {
    CursorState(if f.mark.None? then None else Some(Pos(0, f.mark.value)), f.holes)
  }

  lemma BigLedger()
    ensures WellFormed(OneBigLedger) && FirstPosition(OneBigLedger) == Some(Pos(0, 0))
    ensures forall p :: Stored(OneBigLedger, p) <==> p.ledger == 0 && p.entry + 1 < U64_LIMIT
    ensures forall m: nat :: NextPosition(OneBigLedger, Pos(0, m)) ==
                        if m + 2 < U64_LIMIT then Some(Pos(0, m + 1)) else None
  {
    forall p ensures Stored(OneBigLedger, p) <==> p.ledger == 0 && p.entry + 1 < U64_LIMIT {
      if p.ledger == 0 && p.entry + 1 < U64_LIMIT { assert OneBigLedger[0].id == p.ledger; }
    }
  }

  /** A fully advanced cursor does not advance. */
  lemma AdvanceStable(info: Info, st: CursorState)
    requires WellFormed(info) && Inv(info, st)
    ensures Advance(info, st) == st
  {
    if st.mark.Some? && Expected(info, st).Some? {
      TakenRange(info, st);
      if i :| TakeIndex(st.holes, Expected(info, st).value) == Some(i) {
        RangeEndsStored(info, st, st.holes[i]);
        assert st.holes[i].Has(st.holes[i].lo);
      }
    }
  }

  lemma NoHolesAbove(info: Info, st: CursorState)
    requires WellFormed(info) && Shape(info, st) && st.mark.Some? && Expected(info, st).None? && !Unknown(info, st)
    ensures st.holes == []
  {
    NextIsLeast(info, st.mark.value);
    if st.holes != [] {
      RangeEndsStored(info, st, st.holes[0]);
    }
  }

  lemma {:induction false} AdvanceSimulates(f: FlatState)
    requires f.mark.Some? && Shape(OneBigLedger, Embed(f))
    ensures Embed(AdvanceMarkDelete(f)) == Advance(OneBigLedger, Embed(f))
    decreases |f.holes|
  {
    BigLedger();
    var st := Embed(f);
    if Expected(OneBigLedger, st).None? {
      assert OneBigLedger[0].id == st.mark.value.ledger;
      NoHolesAbove(OneBigLedger, st);
    } else {
      TakenRange(OneBigLedger, st);
      match TakeIndex(f.holes, Next(f))
      case None =>
      case Some(i) =>
        assert f.holes[i] in f.holes;
        RangeEndsStored(OneBigLedger, st, f.holes[i]);
        TakeStep(OneBigLedger, st, i);
        AdvanceSimulates(FlatState(Some(f.holes[i].hi.entry), Without(f.holes, i)));
    }
  }

  /** The flat ack is the segmented ack over one unbounded ledger. */
  lemma FlatAckSimulates(f: FlatState, e: nat)
    requires Inv(OneBigLedger, Embed(f)) && e + 1 < U64_LIMIT
    ensures Embed(FlatAck(f, e)) == AckShared(OneBigLedger, Embed(f), Pos(0, e))
  {
    BigLedger();
    var st := Embed(f);
    var p := Pos(0, e);
    if !IsMessageAcknowledged(f, e) {
      if p == Next(f) {
        IsAcknowledgedExact(st, p);
        RecordedMark(OneBigLedger, st, p);
        AdvanceSimulates(f.(mark := Some(e)));
      } else {
        RecordedHole(OneBigLedger, st, p);
        AdvanceStable(OneBigLedger, Recorded(OneBigLedger, st, p));
      }
    }
  }

  // ---------------------------------------------------------------- agreement

  datatype FlatEvent = Publish(info: Info) | AckAt(i: nat)

  /** Both cursors side by side, over one log. */
  datatype Pair = Pair(info: Info, segmented: CursorState, flat: FlatState)

  const Empty: Pair := Pair([], CursorState(None, []), FlatState(None, []))

  ghost predicate PairEnabled(s: Pair, e: FlatEvent) {
    match e
    case Publish(info) => Extends(s.info, info) && |Log(info)| < U64_LIMIT
    case AckAt(i) => i < |Log(s.info)|
  }

  function PairStep(s: Pair, e: FlatEvent): Pair
    requires PairEnabled(s, e)
  {
    match e
    case Publish(info) => s.(info := info)
    case AckAt(i) => s.(segmented := AckShared(s.info, s.segmented, Log(s.info)[i]), flat := FlatAck(s.flat, i))
  }

  ghost predicate PairLegal(s: Pair, run: seq<FlatEvent>)
    decreases |run|
  {
    run == [] || (PairEnabled(s, run[0]) && PairLegal(PairStep(s, run[0]), run[1..]))
  }

  ghost function PairRun(s: Pair, run: seq<FlatEvent>): Pair
    requires PairLegal(s, run)
    decreases |run|
  {
    if run == [] then s else PairRun(PairStep(s, run[0]), run[1..])
  }

  /** Both cursors acknowledge exactly the log indices in `acked`. */
  ghost predicate BothRepresent(s: Pair, acked: set<nat>) {
    && WellFormed(s.info) && |Log(s.info)| < U64_LIMIT
    && (forall i :: i in acked ==> i < |Log(s.info)|)
    && SegmentedMeans(s.info, s.segmented, acked) && FlatMeans(s.flat, acked)
  }

  ghost predicate SegmentedMeans(info: Info, st: CursorState, acked: set<nat>) {
    && Inv(info, st)
    && forall i :: 0 <= i < |Log(info)| ==> (Acked(st, Log(info)[i]) <==> i in acked)
  }

  ghost predicate FlatMeans(f: FlatState, acked: set<nat>) {
    && Inv(OneBigLedger, Embed(f))
    && forall i: nat :: i + 1 < U64_LIMIT ==> (Acked(Embed(f), Pos(0, i)) <==> i in acked)
  }

  lemma PublishKeepsBoth(s: Pair, acked: set<nat>, info: Info)
    requires BothRepresent(s, acked) && Extends(s.info, info) && |Log(info)| < U64_LIMIT
    ensures BothRepresent(s.(info := info), acked)
  {
    GrowthKeepsCursor(s.info, info, s.segmented);
    forall i | 0 <= i < |Log(info)| ensures Acked(s.segmented, Log(info)[i]) <==> i in acked {
      if i >= |Log(s.info)| {
        LogIndexStored(info, i);
        assert !Stored(s.info, Log(info)[i]) by {
          forall c | Stored(s.info, c) ensures c != Log(info)[i] { OldIsNotNew(s.info, info, c, i); }
        }
      }
    }
  }

  lemma SegmentedAckMeans(info: Info, st: CursorState, acked: set<nat>, k: nat)
    requires WellFormed(info) && SegmentedMeans(info, st, acked) && k < |Log(info)|
    ensures SegmentedMeans(info, AckShared(info, st, Log(info)[k]), acked + {k})
  {
    LogIndexStored(info, k);
    AckExact(info, st, Log(info)[k]);
    forall i | 0 <= i < |Log(info)|
      ensures Acked(AckShared(info, st, Log(info)[k]), Log(info)[i]) <==> i in acked + {k}
    {
      LogIndexStored(info, i);
      LogOrder(info, i, k);
    }
  }

  lemma FlatAckMeans(f: FlatState, acked: set<nat>, k: nat)
    requires FlatMeans(f, acked) && k + 1 < U64_LIMIT
    ensures FlatMeans(FlatAck(f, k), acked + {k})
  {
    BigLedger();
    FlatAckSimulates(f, k);
    AckExact(OneBigLedger, Embed(f), Pos(0, k));
  }

  function PairSetStep(acked: set<nat>, e: FlatEvent): set<nat> {
    if e.AckAt? then acked + {e.i} else acked
  }

  lemma PairStepRepresents(s: Pair, acked: set<nat>, e: FlatEvent)
    requires BothRepresent(s, acked) && PairEnabled(s, e)
    ensures BothRepresent(PairStep(s, e), PairSetStep(acked, e))
  {
    match e
    case Publish(info) => PublishKeepsBoth(s, acked, info);
    case AckAt(k) =>
      SegmentedAckMeans(s.info, s.segmented, acked, k);
      FlatAckMeans(s.flat, acked, k);
  }

  lemma {:induction false} PairRunRepresents(s: Pair, acked: set<nat>, run: seq<FlatEvent>) returns (final: set<nat>)
    requires BothRepresent(s, acked) && PairLegal(s, run)
    ensures BothRepresent(PairRun(s, run), final)
    decreases |run|
  {
    if run == [] {
      return acked;
    }
    PairStepRepresents(s, acked, run[0]);
    final := PairRunRepresents(PairStep(s, run[0]), PairSetStep(acked, run[0]), run[1..]);
  }

  lemma EmptyRepresents()
    ensures BothRepresent(Empty, {})
  {
    BigLedger();
  }

  /** From empty, after any interleaving of publishes and shared acks, the two cursors answer
      "acknowledged" alike for every message, although ranges split at ledger boundaries. */
  lemma CursorsAgree(run: seq<FlatEvent>, i: nat)
    requires PairLegal(Empty, run) && i < |Log(PairRun(Empty, run).info)|
    ensures var s := PairRun(Empty, run);
            IsAcknowledged(s.segmented, Log(s.info)[i]) <==> IsMessageAcknowledged(s.flat, i)
  {
    EmptyRepresents();
    var acked := PairRunRepresents(Empty, {}, run);
    var s := PairRun(Empty, run);
    IsAcknowledgedExact(s.segmented, Log(s.info)[i]);
    IsAcknowledgedExact(Embed(s.flat), Pos(0, i));
  }

  lemma MarkAt(info: Info, st: CursorState, i: nat)
    requires WellFormed(info) && Inv(info, st) && i < |Log(info)|
    ensures st.mark == Some(Log(info)[i]) <==>
              AtOrBelowMark(st, Log(info)[i]) && (i + 1 < |Log(info)| ==> !AtOrBelowMark(st, Log(info)[i + 1]))
  {
    if st.mark.Some? {
      var j := IndexOf(info, st.mark.value);
      LogOrder(info, i, j);
      if i + 1 < |Log(info)| { LogOrder(info, i + 1, j); }
    }
  }

  lemma SameMarks(s: Pair, acked: set<nat>, i: nat)
    requires BothRepresent(s, acked) && i < |Log(s.info)|
    ensures s.segmented.mark == Some(Log(s.info)[i]) <==> s.flat.mark == Some(i)
  {
    MarkAt(s.info, s.segmented, i);
    BelowBoth(s, acked, i);
    if i + 1 < |Log(s.info)| {
      BelowBoth(s, acked, i + 1);
    } else {
      FlatMarkBound(s, acked);
    }
  }

  /** Their frontiers also name the same message. */
  lemma FrontiersAgree(run: seq<FlatEvent>, i: nat)
    requires PairLegal(Empty, run) && i < |Log(PairRun(Empty, run).info)|
    ensures var s := PairRun(Empty, run);
            s.segmented.mark == Some(Log(s.info)[i]) <==> s.flat.mark == Some(i)
  {
    EmptyRepresents();
    var acked := PairRunRepresents(Empty, {}, run);
    SameMarks(PairRun(Empty, run), acked, i);
  }

  lemma FlatMarkBound(s: Pair, acked: set<nat>)
    requires BothRepresent(s, acked)
    ensures s.flat.mark.Some? ==> s.flat.mark.value < |Log(s.info)|
  {
    BigLedger();
    if s.flat.mark.Some? { assert Acked(Embed(s.flat), Pos(0, s.flat.mark.value)); }
  }

  lemma BelowBoth(s: Pair, acked: set<nat>, i: nat)
    requires BothRepresent(s, acked) && i < |Log(s.info)|
    ensures AtOrBelowMark(s.segmented, Log(s.info)[i]) <==> s.flat.mark.Some? && i <= s.flat.mark.value
  {
    SegmentedBelow(s.info, s.segmented, acked, i);
    FlatBelow(s.flat, acked, i);
  }

  lemma SegmentedBelow(info: Info, st: CursorState, acked: set<nat>, i: nat)
    requires WellFormed(info) && SegmentedMeans(info, st, acked) && i < |Log(info)|
    ensures AtOrBelowMark(st, Log(info)[i]) <==> forall j :: 0 <= j <= i ==> j in acked
  {
    InvIsKnown(info, st);
    FrontierIsLongestPrefix(info, st, i);
  }

  lemma FlatBelow(f: FlatState, acked: set<nat>, i: nat)
    requires FlatMeans(f, acked) && i + 1 < U64_LIMIT
    ensures f.mark.Some? && i <= f.mark.value <==> forall j :: 0 <= j <= i ==> j in acked
  {
    BigLedger();
    BigLog(i);
    InvIsKnown(OneBigLedger, Embed(f));
    FrontierIsLongestPrefix(OneBigLedger, Embed(f), i);
    forall j: nat | j <= i ensures Acked(Embed(f), Log(OneBigLedger)[j]) <==> j in acked { }
  }

  lemma BigLog(i: nat)
    requires i + 1 < U64_LIMIT
    ensures i < |Log(OneBigLedger)| && forall j :: 0 <= j <= i ==> Log(OneBigLedger)[j] == Pos(0, j)
  {
    assert OneBigLedger[..0] == [];
    assert Log(OneBigLedger) == Log([]) + Entries(OneBigLedger[0]);
  }

  // ---------------------------------------------------------------- the mutable flat cursor

  lemma AdvanceTaken(f: FlatState)
    ensures match TakeIndex(f.holes, Next(f))
            case None => AdvanceMarkDelete(f) == f
            case Some(i) =>
              AdvanceMarkDelete(f) == AdvanceMarkDelete(FlatState(Some(f.holes[i].hi.entry), Without(f.holes, i)))
  {
  }

  class SubscriptionCursor {
    var mark: Option<nat>
    const holes: RangeSet

    ghost function State(): FlatState
      reads this, holes
    {
      FlatState(mark, holes.ranges)
    }

    constructor ()
      ensures State() == FlatState(None, []) && fresh(holes)
    {
      mark := None;
      holes := new RangeSet();
    }

    method AdvanceMark()
      modifies this, holes
      ensures State() == AdvanceMarkDelete(old(State()))
    {
      ghost var result := AdvanceMarkDelete(State());
      while true
        invariant AdvanceMarkDelete(State()) == result
        decreases |holes.ranges|
      {
        AdvanceTaken(State());
        var end := holes.TakeCovering(Pos(0, if mark.None? then 0 else mark.value + 1));
        if end.None? {
          break;
        }
        mark := Some(end.value.entry);
      }
    }

    /** Returns the frontier and the number of stored ranges. */
    method Acknowledge(e: nat) returns (frontier: Option<nat>, ranges: nat)
      modifies this, holes
      ensures State() == FlatAck(old(State()), e)
      ensures frontier == mark && ranges == |holes.ranges|
    {
      var found := holes.Has(Pos(0, e));
      if (mark.Some? && e <= mark.value) || found {
        return mark, |holes.ranges|;
      }
      match mark {
        case None =>
          if e == 0 {
            mark := Some(0);
            AdvanceMark();
          } else {
            holes.Insert(Pos(0, e));
          }
        case Some(m) =>
          if e == m + 1 {
            mark := Some(e);
            AdvanceMark();
          } else if e > m + 1 {
            holes.Insert(Pos(0, e));
          }
      }
      return mark, |holes.ranges|;
    }
  }
}
