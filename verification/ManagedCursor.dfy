/**
 The subscription cursor of a segmented ledger: a mark-delete frontier plus coalesced
 holes above it, standing for a set of acknowledged messages.
 */
module ManagedCursors {
  import opened Base
  import opened Positions
  import opened RangeSets
  import opened LedgerLog

  datatype CursorState = CursorState(mark: Option<Pos>, holes: seq<Range>)

  predicate AtOrBelowMark(st: CursorState, p: Pos) {
    st.mark.Some? && p.Le(st.mark.value)
  }

  predicate IsAcknowledged(st: CursorState, p: Pos) {
    AtOrBelowMark(st, p) || Contains(st.holes, p)
  }

  /** The position whose acknowledgement would move the frontier. */
  function Expected(info: Info, st: CursorState): Option<Pos> {
    match st.mark
    case None => FirstPosition(info)
    case Some(m) => NextPosition(info, m)
  }

  /** The loop at the end of an ack: swallow one whole covering range per step. */
  function Advance(info: Info, st: CursorState): CursorState
    decreases |st.holes|
  {
    if st.mark.None? || NextPosition(info, st.mark.value).None? then st
    else
      match TakeIndex(st.holes, NextPosition(info, st.mark.value).value)
      case None => st
      case Some(i) => Advance(info, CursorState(Some(st.holes[i].hi), Without(st.holes, i)))
  }

  function Recorded(info: Info, st: CursorState, p: Pos): CursorState {
    if Expected(info, st) == Some(p) then st.(mark := Some(p))
    else if st.mark.None? || st.mark.value.Lt(p) then st.(holes := Inserted(st.holes, p))
    else st
  }

  function AckShared(info: Info, st: CursorState, p: Pos): CursorState {
    if IsAcknowledged(st, p) then st else Advance(info, Recorded(info, st, p))
  }

  /** `seek_cursor`: everything before the target is acknowledged, nothing else. */
  function Seek(info: Info, p: Pos): CursorState {
    CursorState(PreviousPosition(info, p), [])
  }

  // ---------------------------------------------------------------- meaning

  ghost predicate Acked(st: CursorState, p: Pos) {
    AtOrBelowMark(st, p) || Covers(st.holes, p)
  }

  /** Every condition but a fully advanced frontier. */
  ghost predicate Shape(info: Info, st: CursorState) {
    && Canonical(st.holes) && OneLedger(st.holes)
    && (forall p :: Covers(st.holes, p) ==> Stored(info, p))
    && (st.mark.Some? ==> forall r :: r in st.holes ==> st.mark.value.Lt(r.lo))
  }

  /** What every cursor keeps, wherever a seek has put its frontier. */
  ghost predicate Tidy(info: Info, st: CursorState) {
    Shape(info, st) && (Expected(info, st).Some? ==> !Covers(st.holes, Expected(info, st).value))
  }

  /** A cursor whose frontier is a stored message. */
  ghost predicate Inv(info: Info, st: CursorState) {
    Tidy(info, st) && (st.mark.Some? ==> Stored(info, st.mark.value))
  }

  /** The frontier names a ledger the log does not have. */
  ghost predicate Unknown(info: Info, st: CursorState) {
    st.mark.Some? && !Known(info, st.mark.value.ledger)
  }

  lemma InvIsKnown(info: Info, st: CursorState)
    requires Inv(info, st)
    ensures !Unknown(info, st)
  {
    if st.mark.Some? { StoredKnown(info, st.mark.value); }
  }

  lemma ExpectedIsKnown(info: Info, st: CursorState)
    requires Expected(info, st).Some?
    ensures !Unknown(info, st)
  {
    if Unknown(info, st) { NextUnknown(info, st.mark.value); }
  }

  lemma IsAcknowledgedExact(st: CursorState, p: Pos)
    requires Canonical(st.holes)
    ensures IsAcknowledged(st, p) <==> Acked(st, p)
  {
    ContainsExact(st.holes, p);
  }

  lemma RangeEndsStored(info: Info, st: CursorState, r: Range)
    requires Shape(info, st) && r in st.holes
    ensures r.lo.Le(r.hi) && Stored(info, r.lo) && Stored(info, r.hi)
  {
    assert r.Has(r.lo) && r.Has(r.hi);
  }

  lemma StoredKnown(info: Info, p: Pos)
    requires Stored(info, p)
    ensures Known(info, p.ledger)
  {
    var k :| 0 <= k < |info| && info[k].id == p.ledger && p.entry < info[k].entries;
  }

  lemma ExpectedIsLeast(info: Info, st: CursorState, x: Pos)
    requires WellFormed(info) && !Unknown(info, st) && Stored(info, x) && !AtOrBelowMark(st, x)
    ensures Expected(info, st).Some? && Stored(info, Expected(info, st).value)
    ensures Expected(info, st).value.Le(x) && !AtOrBelowMark(st, Expected(info, st).value)
  {
    match st.mark
    case None => FirstIsLeast(info);
    case Some(m) => NextIsLeast(info, m);
  }

  lemma HolesAboveExpected(info: Info, st: CursorState)
    requires WellFormed(info) && Shape(info, st) && Expected(info, st).Some?
    ensures forall r :: r in st.holes ==> Expected(info, st).value.Le(r.lo) && r.lo.Le(r.hi)
    ensures NoneBelow(st.holes, Expected(info, st).value)
  {
    ExpectedIsKnown(info, st);
    forall r | r in st.holes
      ensures Expected(info, st).value.Le(r.lo) && r.lo.Le(r.hi) && Expected(info, st).value.Le(r.hi)
    {
      RangeEndsStored(info, st, r);
      ExpectedIsLeast(info, st, r.lo);
    }
  }

  /** A taken range starts exactly at the expected position and is the lowest one. */
  lemma TakenRange(info: Info, st: CursorState)
    requires WellFormed(info) && Shape(info, st) && Expected(info, st).Some?
    ensures match TakeIndex(st.holes, Expected(info, st).value)
            case None => !Covers(st.holes, Expected(info, st).value)
            case Some(i) => st.holes[i].lo == Expected(info, st).value
                            && forall r :: r in st.holes && r != st.holes[i] ==> st.holes[i].hi.Lt(r.lo)
  {
    var n := Expected(info, st).value;
    HolesAboveExpected(info, st);
    TakeCoveringExact(st.holes, n);
    if i :| TakeIndex(st.holes, n) == Some(i) {
      assert st.holes[i] in st.holes;
      forall r | r in st.holes && r != st.holes[i] ensures st.holes[i].hi.Lt(r.lo) {
        CanonicalPair(st.holes, r, st.holes[i]);
      }
    }
  }

  lemma TakeStep(info: Info, st: CursorState, i: nat)
    requires WellFormed(info) && Shape(info, st) && st.mark.Some? && Expected(info, st).Some?
    requires TakeIndex(st.holes, Expected(info, st).value) == Some(i)
    ensures var st' := CursorState(Some(st.holes[i].hi), Without(st.holes, i));
            && Shape(info, st') && Stored(info, st'.mark.value)
            && forall q :: Stored(info, q) ==> (Acked(st', q) <==> Acked(st, q))
  {
    var x := st.holes[i];
    var st' := CursorState(Some(x.hi), Without(st.holes, i));
    assert x in st.holes;
    ExpectedIsKnown(info, st);
    TakenRange(info, st);
    RangeEndsStored(info, st, x);
    WithoutFacts(st.holes, i);
    forall q | Stored(info, q) ensures Acked(st', q) <==> Acked(st, q) {
      if !AtOrBelowMark(st, q) { ExpectedIsLeast(info, st, q); }
      assert q.Le(x.hi) <==> AtOrBelowMark(st, q) || x.Has(q);
    }
  }

  /** Advancing swallows ranges without changing which stored messages are acknowledged,
      and stops at a frontier that cannot move further. */
  lemma {:induction false} AdvanceExact(info: Info, st: CursorState)
    requires WellFormed(info) && Shape(info, st) && (st.mark.None? ==> Tidy(info, st))
    ensures Tidy(info, Advance(info, st))
    ensures Advance(info, st).mark == st.mark ||
            (Advance(info, st).mark.Some? && Stored(info, Advance(info, st).mark.value))
    ensures forall q :: Stored(info, q) ==> (Acked(Advance(info, st), q) <==> Acked(st, q))
    ensures st.mark.Some? ==> AtOrBelowMark(Advance(info, st), st.mark.value)
    decreases |st.holes|
  {
    if st.mark.Some? && Expected(info, st).Some? {
      TakenRange(info, st);
      match TakeIndex(st.holes, Expected(info, st).value)
      case None =>
      case Some(i) =>
        TakeStep(info, st, i);
        AdvanceExact(info, CursorState(Some(st.holes[i].hi), Without(st.holes, i)));
        MarkIsPrefix(Advance(info, st), st.mark.value, st.holes[i].hi);
    }
  }

  /** Whatever is at or below a position at or below the mark is itself below the mark. */
  lemma MarkIsPrefix(st: CursorState, p: Pos, q: Pos)
    requires AtOrBelowMark(st, q)
    ensures p.Le(q) ==> AtOrBelowMark(st, p)
  {
  }

  /** Moving the frontier to the expected position acknowledges exactly that position. */
  lemma RecordedMark(info: Info, st: CursorState, p: Pos)
    requires WellFormed(info) && Tidy(info, st) && Expected(info, st) == Some(p) && Stored(info, p)
    ensures var st' := st.(mark := Some(p));
            Shape(info, st') && forall q :: Stored(info, q) ==> (Acked(st', q) <==> Acked(st, q) || q == p)
  {
    var st' := st.(mark := Some(p));
    ExpectedIsKnown(info, st);
    forall r | r in st.holes ensures p.Lt(r.lo) {
      RangeEndsStored(info, st, r);
      ExpectedIsLeast(info, st, r.lo);
      assert r.Has(r.lo);
    }
    forall q | Stored(info, q) ensures Acked(st', q) <==> Acked(st, q) || q == p {
      if !AtOrBelowMark(st, q) { ExpectedIsLeast(info, st, q); }
      if st.mark.Some? { NextIsLeast(info, st.mark.value); }
    }
  }

  lemma CoveredAboveMark(info: Info, st: CursorState, p: Pos)
    requires Shape(info, st) && st.mark.Some?
    ensures Covers(st.holes, p) ==> st.mark.value.Lt(p)
  {
  }

  lemma RecordedHole(info: Info, st: CursorState, p: Pos)
    requires WellFormed(info) && Tidy(info, st) && Expected(info, st) != Some(p) && Stored(info, p)
    requires !AtOrBelowMark(st, p)
    ensures var st' := st.(holes := Inserted(st.holes, p));
            Tidy(info, st') && forall q :: Acked(st', q) <==> Acked(st, q) || q == p
  {
    var st' := st.(holes := Inserted(st.holes, p));
    StoredBound(info, p);
    InsertExact(st.holes, p);
    if st.mark.Some? {
      forall r | r in st'.holes ensures st.mark.value.Lt(r.lo) {
        InsertedStarts(st.holes, p, r);
        CoveredAboveMark(info, st, r.lo);
      }
    }
  }

  /** Every range after an insert starts at the inserted point or at a covered one. */
  lemma InsertedStarts(rs: seq<Range>, p: Pos, r: Range)
    requires Canonical(rs) && r in Inserted(rs, p)
    ensures r.lo == p || Covers(rs, r.lo)
  {
    InsertExact(rs, p);
    assert r.lo.Le(r.hi) && r.Has(r.lo);
    assert Covers(Inserted(rs, p), r.lo);
  }

  /** A shared ack of a stored message acknowledges exactly that message and keeps the
      frontier fully advanced; the frontier never moves back, and moves to stored messages only. */
  lemma AckExact(info: Info, st: CursorState, p: Pos)
    requires WellFormed(info) && Tidy(info, st) && Stored(info, p)
    ensures Tidy(info, AckShared(info, st, p))
    ensures var mark := AckShared(info, st, p).mark; mark == st.mark || (mark.Some? && Stored(info, mark.value))
    ensures forall q :: Stored(info, q) ==> (Acked(AckShared(info, st, p), q) <==> Acked(st, q) || q == p)
    ensures st.mark.Some? ==> AtOrBelowMark(AckShared(info, st, p), st.mark.value)
  {
    IsAcknowledgedExact(st, p);
    if !IsAcknowledged(st, p) {
      if Expected(info, st) == Some(p) {
        RecordedMark(info, st, p);
      } else {
        RecordedHole(info, st, p);
      }
      var st' := Recorded(info, st, p);
      AdvanceExact(info, st');
      if st.mark.Some? { MarkIsPrefix(AckShared(info, st, p), st.mark.value, st'.mark.value); }
    }
  }

  /** Appending to the log leaves a cursor valid and acknowledges nothing new. */
  lemma GrowthKeepsCursor(info: Info, info': Info, st: CursorState)
    requires WellFormed(info) && Inv(info, st) && Extends(info, info')
    ensures Inv(info', st)
    ensures forall q :: Stored(info', q) && !Stored(info, q) ==> !Acked(st, q)
  {
    forall q | Stored(info, q) ensures Stored(info', q) { StoredGrows(info, info', q); }
    forall q | Stored(info', q) && !Stored(info, q) ensures !Acked(st, q) {
      if st.mark.Some? { NewIsAbove(info, info', st.mark.value, q); }
    }
    if n :| Expected(info', st) == Some(n) {
      GrowthExpected(info, info', st);
    }
  }

  lemma ShapeGrows(info: Info, info': Info, st: CursorState)
    requires Shape(info, st) && Log(info) <= Log(info')
    ensures Shape(info', st)
  {
    forall q | Stored(info, q) ensures Stored(info', q) { StoredGrows(info, info', q); }
  }

  /** A hole at the position expected after an append was at the one expected before. */
  lemma ExpectedUncovered(info: Info, info': Info, st: CursorState, n: Pos)
    requires WellFormed(info) && Tidy(info, st) && Appends(info, info') && Expected(info', st) == Some(n)
    ensures !Covers(st.holes, n)
  {
    if Covers(st.holes, n) {
      ExpectedIsKnown(info', st);
      if st.mark.Some? {
        HoleKeepsKnown(info, info', st, n);
        CoveredAboveMark(info, st, n);
      }
      ExpectedIsLeast(info, st, n);
      AppendsExtends(info, info');
      StoredGrows(info, info', Expected(info, st).value);
      ExpectedIsLeast(info', st, Expected(info, st).value);
    }
  }

  /** Appending keeps every cursor tidy, wherever its frontier is. */
  lemma AppendKeepsTidy(info: Info, info': Info, st: CursorState)
    requires WellFormed(info) && Tidy(info, st) && Appends(info, info')
    ensures Tidy(info', st)
  {
    AppendsExtends(info, info');
    ShapeGrows(info, info', st);
    if n :| Expected(info', st) == Some(n) { ExpectedUncovered(info, info', st, n); }
  }

  /** A hole above the frontier shows that the frontier's ledger was known before, if it is now. */
  lemma HoleKeepsKnown(info: Info, info': Info, st: CursorState, n: Pos)
    requires Shape(info, st) && Appends(info, info') && st.mark.Some? && Covers(st.holes, n)
    requires Known(info', st.mark.value.ledger)
    ensures Known(info, st.mark.value.ledger)
  {
    CoveredAboveMark(info, st, n);
    if !Known(info, st.mark.value.ledger) { NewLedgerIsAbove(info, info', st.mark.value.ledger, n); }
  }

  lemma NewIsAbove(info: Info, info': Info, old_: Pos, new_: Pos)
    requires WellFormed(info) && Extends(info, info') && Stored(info, old_)
    requires Stored(info', new_) && !Stored(info, new_)
    ensures old_.Lt(new_)
  {
    var i := IndexOf(info, old_);
    var j := IndexOf(info', new_);
    if j < |Log(info)| {
      LogIndexStored(info, j);
    }
    LogOrder(info', i, j);
  }

  /** The expected position after growth is the old one, or a new position if there was none. */
  lemma GrowthExpected(info: Info, info': Info, st: CursorState)
    requires WellFormed(info) && Inv(info, st) && Extends(info, info') && Expected(info', st).Some?
    ensures !Covers(st.holes, Expected(info', st).value)
  {
    var i := 0;
    if st.mark.Some? {
      i := IndexOf(info, st.mark.value);
      i := i + 1;
      NextAt(info, i - 1);
      NextAt(info', i - 1);
    } else {
      FirstAt(info);
      FirstAt(info');
    }
    var n := Expected(info', st).value;
    assert n == Log(info')[i];
    if i >= |Log(info)| {
      forall c | Stored(info, c) ensures c != n { OldIsNotNew(info, info', c, i); }
    }
  }

  lemma OldIsNotNew(info: Info, info': Info, c: Pos, i: nat)
    requires WellFormed(info) && Extends(info, info') && Stored(info, c)
    requires |Log(info)| <= i < |Log(info')|
    ensures Log(info')[i] != c
  {
    var k := IndexOf(info, c);
    LogOrder(info', i, k);
  }

  // ---------------------------------------------------------------- the state is a function of the acked set

  /** The frontier is the longest acknowledged prefix of the log. */
  lemma FrontierIsLongestPrefix(info: Info, st: CursorState, i: nat)
    requires WellFormed(info) && Tidy(info, st) && !Unknown(info, st) && i < |Log(info)|
    ensures AtOrBelowMark(st, Log(info)[i]) <==> forall j :: 0 <= j <= i ==> Acked(st, Log(info)[j])
  {
    forall j | 0 <= j <= i ensures Log(info)[j].Le(Log(info)[i]) { LogOrder(info, j, i); }
    if !AtOrBelowMark(st, Log(info)[i]) {
      LogIndexStored(info, i);
      ExpectedIsLeast(info, st, Log(info)[i]);
      var k := IndexOf(info, Expected(info, st).value);
      LogOrder(info, i, k);
      assert !Acked(st, Log(info)[k]);
    }
  }

  lemma SameMark(info: Info, a: CursorState, b: CursorState)
    requires WellFormed(info) && Inv(info, a) && Inv(info, b)
    requires forall q :: Stored(info, q) ==> (Acked(a, q) <==> Acked(b, q))
    ensures a.mark == b.mark
  {
    InvIsKnown(info, a);
    InvIsKnown(info, b);
    forall q | Stored(info, q) ensures AtOrBelowMark(a, q) <==> AtOrBelowMark(b, q) {
      var i := IndexOf(info, q);
      forall j | 0 <= j <= i ensures Acked(a, Log(info)[j]) <==> Acked(b, Log(info)[j]) { LogIndexStored(info, j); }
      FrontierIsLongestPrefix(info, a, i);
      FrontierIsLongestPrefix(info, b, i);
    }
  }

  lemma HolesAreTheRest(info: Info, st: CursorState, p: Pos)
    requires Shape(info, st)
    ensures Covers(st.holes, p) <==> Stored(info, p) && Acked(st, p) && !AtOrBelowMark(st, p)
  {
    if st.mark.Some? { CoveredAboveMark(info, st, p); }
  }

  /** A cursor state is determined by the log and the set of acknowledged messages. */
  lemma StateUnique(info: Info, a: CursorState, b: CursorState)
    requires WellFormed(info) && Inv(info, a) && Inv(info, b)
    requires forall q :: Stored(info, q) ==> (Acked(a, q) <==> Acked(b, q))
    ensures a == b
  {
    SameMark(info, a, b);
    forall p ensures Covers(a.holes, p) <==> Covers(b.holes, p) {
      HolesAreTheRest(info, a, p);
      HolesAreTheRest(info, b, p);
    }
    CanonicalUnique(a.holes, b.holes);
  }

  // ---------------------------------------------------------------- seek

  /** After a seek to any position, stored or not, exactly the messages before it are acknowledged. */
  lemma SeekExact(info: Info, p: Pos, q: Pos)
    requires WellFormed(info) && Stored(info, q)
    ensures Acked(Seek(info, p), q) <==> q.Lt(p)
  {
    PreviousCuts(info, p);
  }

  lemma SeekInv(info: Info, p: Pos)
    requires WellFormed(info) && Stored(info, p)
    ensures Inv(info, Seek(info, p))
  {
    PreviousStored(info, p);
  }

  /** A seek leaves its frontier at a stored message, or unset, exactly when the target starts a ledger or follows a
      stored message of its own. */
  lemma SeekInvExact(info: Info, p: Pos)
    ensures Tidy(info, Seek(info, p))
    ensures Inv(info, Seek(info, p)) <==> p.entry == 0 || Stored(info, Pos(p.ledger, p.entry - 1))
  {
    if p.entry == 0 && Seek(info, p).mark.Some? {
      var k := LastNonEmpty(info, p.ledger, |info|).value;
      assert info[k].id == Seek(info, p).mark.value.ledger;
    }
  }

  /** What a seek acknowledges for good: past the start of a ledger everything before the target, stored now or ever;
      at the start of one only what is stored now. */
  lemma SeekLater(info: Info, info': Info, p: Pos, q: Pos)
    requires WellFormed(info) && Extends(info, info') && Stored(info', q)
    ensures Acked(Seek(info, p), q) <==> q.Lt(p) && (p.entry > 0 || Stored(info, q))
  {
    PreviousCuts(info, p);
    SeekInvExact(info, p);
    if p.entry == 0 && !Stored(info, q) && Seek(info, p).mark.Some? {
      NewIsAbove(info, info', Seek(info, p).mark.value, q);
    }
  }

  // ---------------------------------------------------------------- first unacked

  /** What `first_unacked_position` returns: the least stored unacknowledged position up to the
      last confirmed one, unless the frontier names a ledger the log does not have. */
  ghost predicate FirstUnackedIs(info: Info, st: CursorState, lac: Pos, r: Option<Pos>) {
    if st.mark.Some? && !Known(info, st.mark.value.ledger) then r.None?
    else match r
      case Some(p) => Stored(info, p) && p.Le(lac) && !Acked(st, p)
                      && forall q :: Stored(info, q) && q.Lt(p) ==> Acked(st, q)
      case None => forall q :: Stored(info, q) && q.Le(lac) ==> Acked(st, q)
  }

  /** The scan starts right after the stored positions the frontier covers. */
  lemma Scanned(info: Info, st: CursorState) returns (k: nat)
    requires WellFormed(info) && (st.mark.Some? ==> Known(info, st.mark.value.ledger))
    ensures k <= |Log(info)| && forall j :: 0 <= j < k ==> Acked(st, Log(info)[j])
    ensures Expected(info, st) == if k < |Log(info)| then Some(Log(info)[k]) else None
  {
    match st.mark
    case None =>
      FirstAt(info);
      k := 0;
    case Some(m) =>
      NextIsLeast(info, m);
      match NextPosition(info, m)
      case None =>
        k := |Log(info)|;
        forall j | 0 <= j < k ensures Acked(st, Log(info)[j]) { LogIndexStored(info, j); }
      case Some(q) =>
        k := IndexOf(info, q);
        forall j | 0 <= j < k ensures Acked(st, Log(info)[j]) {
          LogIndexStored(info, j);
          LogOrder(info, j, k);
        }
  }

  lemma AckedBelow(info: Info, st: CursorState, k: nat)
    requires WellFormed(info) && k <= |Log(info)| && forall j :: 0 <= j < k ==> Acked(st, Log(info)[j])
    ensures forall q :: Stored(info, q) && (k < |Log(info)| ==> q.Lt(Log(info)[k])) ==> Acked(st, q)
  {
    forall q | Stored(info, q) && (k < |Log(info)| ==> q.Lt(Log(info)[k])) ensures Acked(st, q) {
      var j := IndexOf(info, q);
      if k < |Log(info)| { LogOrder(info, j, k); }
    }
  }

  /** Loop state of the scan: everything before index `k` is acknowledged. */
  ghost predicate ScanAt(info: Info, st: CursorState, k: nat, candidate: Option<Pos>) {
    && k <= |Log(info)| && (forall j :: 0 <= j < k ==> Acked(st, Log(info)[j]))
    && candidate == if k == |Log(info)| then None else Some(Log(info)[k])
  }

  lemma ScanStep(info: Info, st: CursorState, k: nat, p: Pos)
    requires WellFormed(info) && Canonical(st.holes) && ScanAt(info, st, k, Some(p)) && IsAcknowledged(st, p)
    ensures ScanAt(info, st, k + 1, NextPosition(info, p))
  {
    IsAcknowledgedExact(st, p);
    NextAt(info, k);
  }

  lemma ScanStop(info: Info, st: CursorState, k: nat, candidate: Option<Pos>, lac: Pos)
    requires WellFormed(info) && Canonical(st.holes) && !Unknown(info, st) && ScanAt(info, st, k, candidate)
    ensures candidate.None? || lac.Lt(candidate.value) ==> FirstUnackedIs(info, st, lac, None)
    ensures candidate.Some? && candidate.value.Le(lac) && !IsAcknowledged(st, candidate.value) ==>
              FirstUnackedIs(info, st, lac, candidate)
  {
    AckedBelow(info, st, k);
    if candidate.Some? {
      LogIndexStored(info, k);
      IsAcknowledgedExact(st, candidate.value);
    }
  }

  method FirstUnacked(info: Info, st: CursorState, lac: Pos) returns (r: Option<Pos>)
    requires WellFormed(info) && Canonical(st.holes)
    ensures FirstUnackedIs(info, st, lac, r)
  {
    var candidate := Expected(info, st);
    ghost var k := 0;
    if Unknown(info, st) { NextUnknown(info, st.mark.value); } else { k := Scanned(info, st); }
    while candidate.Some?
      invariant if Unknown(info, st) then candidate.None? else ScanAt(info, st, k, candidate)
      decreases |Log(info)| - k
    {
      var p := candidate.value;
      ScanStop(info, st, k, candidate, lac);
      if lac.Lt(p) {
        return None;
      }
      if !IsAcknowledged(st, p) {
        return Some(p);
      }
      candidate := NextPosition(info, p);
      ScanStep(info, st, k, p);
      k := k + 1;
    }
    if !Unknown(info, st) { ScanStop(info, st, k, candidate, lac); }
    return None;
  }

  /** After seeking to a confirmed stored message, the first unacknowledged position is that message. */
  lemma SeekFirstUnacked(info: Info, p: Pos, lac: Pos, r: Option<Pos>)
    requires WellFormed(info) && Stored(info, p) && p.Le(lac)
    requires FirstUnackedIs(info, Seek(info, p), lac, r)
    ensures r == Some(p)
  {
    var st := Seek(info, p);
    SeekInv(info, p);
    if st.mark.Some? { StoredKnown(info, st.mark.value); }
    SeekExact(info, p, p);
    if q :| r == Some(q) { SeekExact(info, p, q); }
  }

  /** For any seek target, the answer is the least unacknowledged message if and only if the
      target names a known ledger, or starts one, or nothing confirmed lies at or above it. */
  lemma SeekFirstUnackedCondition(info: Info, p: Pos, lac: Pos, r: Option<Pos>)
    requires WellFormed(info) && FirstUnackedIs(info, Seek(info, p), lac, r)
    ensures (r.None? ==> forall q :: Stored(info, q) && q.Le(lac) ==> Acked(Seek(info, p), q)) <==>
              || p.entry == 0 || Known(info, p.ledger)
              || (forall q :: Stored(info, q) && q.Le(lac) ==> q.Lt(p))
  {
    var st := Seek(info, p);
    forall q | Stored(info, q) ensures Acked(st, q) <==> q.Lt(p) { SeekExact(info, p, q); }
    if st.mark.Some? && p.entry == 0 {
      var k := LastNonEmpty(info, p.ledger, |info|).value;
      assert info[k].id == st.mark.value.ledger;
    }
  }

  /** After a seek into an unknown ledger, past its first entry, nothing is reported although messages wait. */
  lemma SeekMissesUnacked()
    ensures var info, p, lac := [LedgerInfo(5, 3, 0)], Pos(2, 1), Pos(5, 2);
            && WellFormed(info) && FirstUnackedIs(info, Seek(info, p), lac, None)
            && Stored(info, lac) && !Acked(Seek(info, p), lac)
  {
    var info := [LedgerInfo(5, 3, 0)];
    assert info[0].id == 5;
    SeekExact(info, Pos(2, 1), Pos(5, 2));
  }

  // ---------------------------------------------------------------- the mutable cursor

  class ManagedCursor {
    var mark: Option<Pos>
    const holes: RangeSet

    ghost function State(): CursorState
      reads this, holes
    {
      CursorState(mark, holes.ranges)
    }

    constructor ()
      ensures State() == CursorState(None, []) && fresh(holes)
    {
      mark := None;
      holes := new RangeSet();
    }

    method Reset(position: Option<Pos>)
      modifies this, holes
      ensures State() == CursorState(position, [])
    {
      mark := position;
      holes.Clear();
    }

    /** `ack_managed_cursor_shared`: record the position, then advance over whole ranges. */
    method Acknowledge(info: Info, p: Pos)
      modifies this, holes
      ensures State() == AckShared(info, old(State()), p)
    {
      var found := holes.Has(p);
      if (mark.Some? && p.Le(mark.value)) || found {
        return;
      }
      match mark {
        case None =>
          if FirstPosition(info) == Some(p) { mark := Some(p); } else { holes.Insert(p); }
        case Some(m) =>
          if NextPosition(info, m) == Some(p) { mark := Some(p); } else if m.Lt(p) { holes.Insert(p); }
      }
      while mark.Some? && NextPosition(info, mark.value).Some?
        invariant Advance(info, State()) == AckShared(info, old(State()), p)
        decreases |holes.ranges|
      {
        var end := holes.TakeCovering(NextPosition(info, mark.value).value);
        if end.None? {
          break;
        }
        mark := end;
      }
    }
  }
}
