/**
 The cursor as its stored record over whole runs: every operation decodes the record, changes the cursor and
 encodes it again.
 */
module CursorRecords {
  import opened Base
  import opened Positions
  import opened LedgerLog
  import opened ManagedCursors
  import opened CursorCodec
  import opened CursorRuns
  import opened CursorSeeks

  /** Every id of the log fits a signed 64-bit integer. */
  ghost predicate SignedLog(info: Info) {
    forall l :: l in info ==> l.id < I64_LIMIT && l.entries <= I64_LIMIT
  }

  ghost predicate Persists(st: CursorState) {
    Decode(Encode(st)) == Ok(st)
  }

  /** A seek to this target can be stored. */
  predicate Encodable(p: Pos) {
    p.entry == 0 || (p.ledger < I64_LIMIT && p.entry <= I64_LIMIT)
  }

  lemma StoredIsSigned(info: Info, p: Pos)
    requires SignedLog(info) && Stored(info, p)
    ensures PosBelow(p, I64_LIMIT)
  {
    var k :| 0 <= k < |info| && info[k].id == p.ledger && p.entry < info[k].entries;
    assert info[k] in info;
  }

  /** A cursor comes back unchanged exactly when its frontier fits; otherwise reading it is an error, and never the
      "spans multiple ledgers" one. */
  lemma TidyPersists(info: Info, st: CursorState)
    requires Tidy(info, st) && SignedLog(info) && (st.mark.Some? ==> PosBelow(st.mark.value, U64_LIMIT))
    ensures Persists(st) <==> (st.mark.Some? ==> PosBelow(st.mark.value, I64_LIMIT))
    ensures !Persists(st) ==> Decode(Encode(st)) == Err(NegativeId)
  {
    forall r | r in st.holes ensures PosBelow(r.lo, I64_LIMIT) && PosBelow(r.hi, I64_LIMIT) {
      RangeEndsStored(info, st, r);
      StoredIsSigned(info, r.lo);
      StoredIsSigned(info, r.hi);
    }
    CursorRoundTrip(st);
  }

  /** Every cursor with a stored frontier persists and comes back unchanged. */
  lemma ReachableCursorPersists(info: Info, st: CursorState)
    requires Inv(info, st) && SignedLog(info)
    ensures Persists(st)
  {
    if st.mark.Some? { StoredIsSigned(info, st.mark.value); }
    TidyPersists(info, st);
  }

  lemma SeekPersists(info: Info, p: Pos)
    requires SignedLog(info) && PosBelow(p, U64_LIMIT)
    ensures Persists(Seek(info, p)) <==> Encodable(p)
    ensures !Encodable(p) ==> Decode(Encode(Seek(info, p))) == Err(NegativeId)
  {
    var st := Seek(info, p);
    SeekInvExact(info, p);
    if p.entry == 0 && st.mark.Some? { StoredIsSigned(info, st.mark.value); }
    TidyPersists(info, st);
  }

  lemma AckPersists(info: Info, st: CursorState, p: Pos)
    requires WellFormed(info) && Tidy(info, st) && SignedLog(info) && Stored(info, p) && Persists(st)
    ensures Persists(AckShared(info, st, p))
  {
    var after := AckShared(info, st, p);
    AckExact(info, st, p);
    PersistedMark(st);
    if after.mark.Some? && after.mark != st.mark { StoredIsSigned(info, after.mark.value); }
    TidyPersists(info, after);
  }

  lemma PersistedMark(st: CursorState)
    requires Persists(st)
    ensures st.mark.Some? ==> PosBelow(st.mark.value, I64_LIMIT)
  {
    assert DecodeMark(Encode(st)) == Ok(st.mark);
  }

  /** The stored record after one more event: every operation opens the cursor by decoding it. */
  function StoredStep(info: Info, c: CursorInfo, e: Event): CursorInfo {
    if e.Grow? then c
    else
      match Decode(c)
      case Err(_) => c
      case Ok(st) => Encode(Step(System(info, st), e).cursor)
  }

  function StoredRun(info: Info, c: CursorInfo, run: seq<Event>): CursorInfo
    decreases |run|
  {
    if run == [] then c
    else StoredRun(if run[0].Grow? then run[0].info else info, StoredStep(info, c, run[0]), run[1..])
  }

  /** A record that cannot be decoded stays what it is: no ack and no seek gets past it. */
  lemma {:induction false} UndecodableForGood(info: Info, c: CursorInfo, run: seq<Event>)
    requires Decode(c).Err?
    ensures StoredRun(info, c, run) == c
    decreases |run|
  {
    if run != [] { UndecodableForGood(if run[0].Grow? then run[0].info else info, c, run[1..]); }
  }

  /** The record is the cursor's encoding and gives the cursor back. */
  ghost predicate StoredAt(s: System, run: seq<Event>, n: nat) {
    n <= |run| ==>
      && StoredRun(s.info, Encode(s.cursor), run[..n]) == Encode(Run(s, run[..n]).cursor)
      && Persists(Run(s, run[..n]).cursor)
  }

  predicate EncodableAt(run: seq<Event>, n: nat) {
    n < |run| && run[n].SeekTo? ==> Encodable(run[n].p)
  }

  /** Ids are unsigned 64-bit integers and those of the log fit a signed one. */
  ghost predicate Sized(s: System, run: seq<Event>) {
    && SignedLog(s.info) && (forall n :: 0 <= n < |run| && run[n].Grow? ==> SignedLog(run[n].info))
    && forall n :: 0 <= n < |run| && run[n].SeekTo? ==> PosBelow(run[n].p, U64_LIMIT)
  }

  lemma {:induction false} StoredRunSnoc(s: System, c: CursorInfo, run: seq<Event>, n: nat)
    requires n < |run|
    ensures StoredRun(s.info, c, run[..n + 1]) ==
            StoredStep(Run(s, run[..n]).info, StoredRun(s.info, c, run[..n]), run[n])
    decreases |run|
  {
    var t, rest := Step(s, run[0]), run[1..];
    assert run[..n + 1][1..] == rest[..n];
    if n > 0 {
      assert run[..n][1..] == rest[..n - 1];
      StoredRunSnoc(t, StoredStep(s.info, c, run[0]), rest, n - 1);
    }
  }

  lemma {:induction false} RunSized(s: System, run: seq<Event>, n: nat)
    requires n <= |run| && Sized(s, run) && WellFormed(s.info) && Tidy(s.info, s.cursor) && Legal(s, run)
    ensures var t := Run(s, run[..n]); SignedLog(t.info) && WellFormed(t.info) && Tidy(t.info, t.cursor)
    decreases n
  {
    if n == 0 {
      assert run[..0] == [];
    } else {
      RunSized(s, run, n - 1);
      RunSnoc(s, {}, run, n - 1);
      StepTidy(Run(s, run[..n - 1]), run[n - 1]);
    }
  }

  lemma StepTidy(s: System, e: Event)
    requires WellFormed(s.info) && Tidy(s.info, s.cursor) && Enabled(s, e)
    ensures WellFormed(Step(s, e).info) && Tidy(Step(s, e).info, Step(s, e).cursor)
  {
    match e
    case Grow(info) => AppendKeepsTidy(s.info, info, s.cursor);
    case Ack(p) => AckExact(s.info, s.cursor, p);
    case SeekTo(p) => SeekInvExact(s.info, p);
  }

  lemma StepStored(s: System, e: Event)
    requires WellFormed(s.info) && Tidy(s.info, s.cursor) && SignedLog(s.info) && Enabled(s, e) && Persists(s.cursor)
    requires e.SeekTo? ==> PosBelow(e.p, U64_LIMIT)
    ensures StoredStep(s.info, Encode(s.cursor), e) == Encode(Step(s, e).cursor)
    ensures Persists(Step(s, e).cursor) <==> (e.SeekTo? ==> Encodable(e.p))
  {
    match e
    case Grow(_) =>
    case Ack(p) => AckPersists(s.info, s.cursor, p);
    case SeekTo(p) => SeekPersists(s.info, p);
  }

  lemma RunStepStored(s: System, run: seq<Event>, n: nat)
    requires n < |run| && Sized(s, run) && WellFormed(s.info) && Tidy(s.info, s.cursor) && Legal(s, run)
    requires StoredAt(s, run, n)
    ensures StoredAt(s, run, n + 1) <==> EncodableAt(run, n)
  {
    RunSized(s, run, n);
    RunSnoc(s, {}, run, n);
    StoredRunSnoc(s, Encode(s.cursor), run, n);
    StepStored(Run(s, run[..n]), run[n]);
  }

  /** Throughout a run the stored record is the cursor's encoding and gives the cursor back, exactly when every seek
      that is past the start of a ledger names ids below 2^63. */
  lemma StoredRunExact(s: System, run: seq<Event>)
    requires Sized(s, run) && WellFormed(s.info) && Tidy(s.info, s.cursor) && Legal(s, run) && Persists(s.cursor)
    ensures (forall n: nat :: n <= |run| ==> StoredAt(s, run, n)) <==>
            (forall n: nat :: n < |run| ==> EncodableAt(run, n))
  {
    var held := (n: nat) => StoredAt(s, run, n);
    var good := (n: nat) => EncodableAt(run, n);
    forall n: nat | n < |run| && held(n) ensures held(n + 1) <==> good(n) { RunStepStored(s, run, n); }
    assert run[..0] == [] && held(0);
    Throughout(held, good, |run|);
    assert forall n: nat :: held(n) == StoredAt(s, run, n) && good(n) == EncodableAt(run, n);
  }

  /** After a seek to the client's "earliest" id the record cannot be decoded, and no later event changes that. */
  lemma SeekEarliest(info: Info, run: seq<Event>)
    requires SignedLog(info)
    ensures Decode(StoredRun(info, Encode(Seek(info, EARLIEST)), run)) == Err(NegativeId)
  {
    SeekPersists(info, EARLIEST);
    UndecodableForGood(info, Encode(Seek(info, EARLIEST)), run);
  }
}
