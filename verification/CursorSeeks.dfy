/**
 Seeks to positions that are not stored. A client may name any ledger and entry, and only some targets keep what
 a cursor otherwise promises.
 */
module CursorSeeks {
  import opened Base
  import opened Positions
  import opened LedgerLog
  import opened ManagedCursors
  import opened CursorRuns

  // ---------------------------------------------------------------- messages still to come

  /** One more entry in the last ledger, or a new ledger up to just below `p`. */
  function GrownTo(info: Info, p: Pos): Info {
    if info != [] && info[|info| - 1].entries + 1 < U64_LIMIT then
      var last := info[|info| - 1];
      info[..|info| - 1] + [LedgerInfo(last.id, last.entries + 1, last.size)]
    else info + [LedgerInfo(p.ledger, p.entry, 0)]
  }

  /** The position `GrownTo` stores. */
  function NextUnder(info: Info, p: Pos): Pos
    requires p.entry > 0
  {
    if info != [] && info[|info| - 1].entries + 1 < U64_LIMIT then AppendPoint(info) else Pos(p.ledger, p.entry - 1)
  }

  lemma GrownToAppends(info: Info, p: Pos)
    requires WellFormed(info) && 0 < p.entry < U64_LIMIT && AppendPoint(info).Lt(p)
    ensures var info', q := GrownTo(info, p), NextUnder(info, p);
            Appends(info, info') && Stored(info', q) && !Stored(info, q) && q.Lt(p)
  {
    var info', q := GrownTo(info, p), NextUnder(info, p);
    if info != [] {
      var n := |info| - 1;
      assert info[n] in info;
      assert info'[n].id == info[n].id;
    }
    var k := if |info'| == |info| then |info| - 1 else |info|;
    assert info'[k].id == q.ledger && q.entry < info'[k].entries;
    if Stored(info, q) { StoredBelowAppendPoint(info, q); }
  }

  /** Appends acknowledge nothing, exactly when the frontier is before the append point. */
  lemma AppendSparesExact(info: Info, st: CursorState)
    requires WellFormed(info) && Tidy(info, st) && (st.mark.Some? ==> st.mark.value.entry + 1 < U64_LIMIT)
    ensures (forall info', q :: Appends(info, info') && Stored(info', q) && !Stored(info, q) ==> !Acked(st, q))
            <==> (st.mark.Some? ==> st.mark.value.Lt(AppendPoint(info)))
  {
    forall info', q | Appends(info, info') && Stored(info', q) && !Stored(info, q)
      ensures AppendPoint(info).Le(q) && (Acked(st, q) <==> AtOrBelowMark(st, q))
    {
      NewAtAppendPoint(info, info', q);
    }
    if st.mark.Some? && !st.mark.value.Lt(AppendPoint(info)) {
      GrownToAppends(info, Pos(st.mark.value.ledger, st.mark.value.entry + 1));
    }
  }

  /** No message published after a seek counts as acknowledged, exactly when the target starts a ledger or is not
      beyond the append point. */
  lemma SeekSparesFuture(info: Info, p: Pos)
    requires WellFormed(info) && p.entry < U64_LIMIT
    ensures (forall info', q :: Appends(info, info') && Stored(info', q) && !Stored(info, q) ==>
             !Acked(Seek(info, p), q))
            <==> p.entry == 0 || p.Le(AppendPoint(info))
  {
    forall info', q | Appends(info, info') && Stored(info', q) && !Stored(info, q)
      ensures AppendPoint(info).Le(q) && (Acked(Seek(info, p), q) <==> q.Lt(p) && p.entry > 0)
    {
      AppendsExtends(info, info');
      NewAtAppendPoint(info, info', q);
      SeekLater(info, info', p, q);
    }
    if p.entry > 0 && AppendPoint(info).Lt(p) { GrownToAppends(info, p); }
  }

  /** One message is stored and the subscription seeks to entry 5: entries 1 to 4 are acknowledged before they exist. */
  lemma SeekPastEnd()
    ensures var info, info' := [LedgerInfo(0, 1, 0)], [LedgerInfo(0, 3, 0)];
            && WellFormed(info) && Appends(info, info') && Stored(info', Pos(0, 2)) && !Stored(info, Pos(0, 2))
            && Acked(Seek(info, Pos(0, 5)), Pos(0, 2))
  {
    assert [LedgerInfo(0, 3, 0)][0].id == 0;
  }

  const LATEST := Pos(I64_LIMIT - 1, I64_LIMIT - 1)
  const EARLIEST := Pos(U64_LIMIT - 1, U64_LIMIT - 1)

  /** Seeking to the client's "latest" id acknowledges everything ever published to a ledger of a smaller id. */
  lemma SeekLatest(info: Info, q: Pos)
    requires q.ledger < LATEST.ledger
    ensures Acked(Seek(info, LATEST), q)
  {
  }

  // ---------------------------------------------------------------- the frontier

  /** The frontier covers exactly the longest acknowledged prefix of the log. */
  ghost predicate FrontierIsPrefix(info: Info, st: CursorState) {
    forall i :: 0 <= i < |Log(info)| ==>
      (AtOrBelowMark(st, Log(info)[i]) <==> forall j :: 0 <= j <= i ==> Acked(st, Log(info)[j]))
  }

  ghost predicate NoSeeks(run: seq<Event>) {
    forall i :: 0 <= i < |run| ==> !run[i].SeekTo?
  }

  lemma KnownPrefix(info: Info, st: CursorState)
    requires WellFormed(info) && Tidy(info, st) && !Unknown(info, st)
    ensures FrontierIsPrefix(info, st)
  {
    forall i | 0 <= i < |Log(info)|
      ensures AtOrBelowMark(st, Log(info)[i]) <==> forall j :: 0 <= j <= i ==> Acked(st, Log(info)[j])
    {
      FrontierIsLongestPrefix(info, st, i);
    }
  }

  /** A frontier in a known ledger stays in one. */
  lemma {:induction false} KnownRun(s: System, run: seq<Event>)
    requires WellFormed(s.info) && Tidy(s.info, s.cursor) && !Unknown(s.info, s.cursor) && Legal(s, run) && NoSeeks(run)
    ensures FrontierIsPrefix(Run(s, run).info, Run(s, run).cursor)
    decreases |run|
  {
    if run == [] {
      KnownPrefix(s.info, s.cursor);
    } else {
      KnownStep(s, run[0]);
      KnownRun(Step(s, run[0]), run[1..]);
    }
  }

  lemma KnownStep(s: System, e: Event)
    requires WellFormed(s.info) && Tidy(s.info, s.cursor) && !Unknown(s.info, s.cursor) && Enabled(s, e) && !e.SeekTo?
    ensures var t := Step(s, e); WellFormed(t.info) && Tidy(t.info, t.cursor) && !Unknown(t.info, t.cursor)
  {
    match e
    case Grow(info) =>
      AppendKeepsTidy(s.info, info, s.cursor);
      if s.cursor.mark.Some? { KnownStays(s.info, info, s.cursor.mark.value.ledger); }
    case Ack(p) =>
      var after := AckShared(s.info, s.cursor, p);
      AckExact(s.info, s.cursor, p);
      if after.mark.Some? && after.mark != s.cursor.mark { StoredKnown(s.info, after.mark.value); }
  }

  /** With the frontier in an unknown ledger an ack never moves it. */
  lemma UnknownStays(info: Info, st: CursorState, p: Pos)
    requires Unknown(info, st)
    ensures AckShared(info, st, p).mark == st.mark
  {
    NextUnknown(info, st.mark.value);
  }

  /** A later log with a message in a ledger above everything, the unknown one included. */
  function Beyond(info: Info, ledger: nat): Info {
    info + [LedgerInfo(1 + ledger + if info == [] then 0 else info[|info| - 1].id, 1, 0)]
  }

  lemma BeyondAppends(info: Info, m: Pos)
    requires WellFormed(info) && !Known(info, m.ledger)
    ensures Appends(info, Beyond(info, m.ledger)) && !Known(Beyond(info, m.ledger), m.ledger)
    ensures exists q :: Stored(Beyond(info, m.ledger), q) && m.Lt(q)
  {
    var info' := Beyond(info, m.ledger);
    forall i | 0 <= i < |info| ensures info[i].id < info'[|info|].id && info[i].id != m.ledger {
      IdsAt(info, i, |info| - 1);
    }
    assert Stored(info', Pos(info'[|info|].id, 0)) && m.Lt(Pos(info'[|info|].id, 0));
  }

  /** The first stored position above `m`. */
  lemma {:induction false} FirstAbove(info: Info, m: Pos, n: nat) returns (k: nat)
    requires WellFormed(info) && n < |Log(info)| && m.Lt(Log(info)[n])
    ensures k <= n && m.Lt(Log(info)[k]) && forall j :: 0 <= j < k ==> Log(info)[j].Le(m)
  {
    if n > 0 && m.Lt(Log(info)[n - 1]) {
      k := FirstAbove(info, m, n - 1);
    } else {
      k := n;
      forall j | 0 <= j < k ensures Log(info)[j].Le(m) { LogOrder(info, j, n - 1); }
    }
  }

  /** Acknowledging the first message above a frontier in an unknown ledger leaves the frontier behind. */
  lemma UnknownFallsBehind(info: Info, st: CursorState, k: nat)
    requires WellFormed(info) && Tidy(info, st) && Unknown(info, st) && k < |Log(info)|
    requires st.mark.value.Lt(Log(info)[k]) && forall j :: 0 <= j < k ==> Log(info)[j].Le(st.mark.value)
    ensures !FrontierIsPrefix(info, AckShared(info, st, Log(info)[k]))
  {
    var after := AckShared(info, st, Log(info)[k]);
    LogIndexStored(info, k);
    AckExact(info, st, Log(info)[k]);
    UnknownStays(info, st, Log(info)[k]);
    forall j | 0 <= j <= k ensures Acked(after, Log(info)[j]) { LogIndexStored(info, j); }
  }

  /** The frontier stays before an acknowledged first message: the target names ledger 2, the log has only ledger 5. */
  lemma SeekUnknownLedger()
    ensures var info := [LedgerInfo(5, 3, 0)];
            && WellFormed(info) && Stored(info, Pos(5, 0))
            && !FrontierIsPrefix(info, AckShared(info, Seek(info, Pos(2, 1)), Pos(5, 0)))
  {
    var info := [LedgerInfo(5, 3, 0)];
    assert info[0].id == 5 && info[..0] == [] && Log(info) == Log(info[..0]) + Entries(info[0]);
    assert Log(info)[0] == Pos(5, 0);
    SeekInvExact(info, Pos(2, 1));
    UnknownFallsBehind(info, Seek(info, Pos(2, 1)), 0);
  }

  lemma WaitingMessage(info: Info, p: Pos) returns (q: Pos)
    requires WellFormed(info) && p.entry > 0 && !Known(info, p.ledger)
    ensures var info' := Beyond(info, p.ledger);
            Appends(info, info') && Stored(info', q) && !FrontierIsPrefix(info', AckShared(info', Seek(info, p), q))
  {
    var st, info' := Seek(info, p), Beyond(info, p.ledger);
    BeyondAppends(info, st.mark.value);
    var x :| Stored(info', x) && st.mark.value.Lt(x);
    var n := IndexOf(info', x);
    var k := FirstAbove(info', st.mark.value, n);
    SeekInvExact(info, p);
    AppendKeepsTidy(info, info', st);
    LogIndexStored(info', k);
    UnknownFallsBehind(info', st, k);
    q := Log(info')[k];
  }

  lemma BehindAfter(s: System, info: Info, q: Pos) returns (run: seq<Event>)
    requires Appends(s.info, info) && Stored(info, q) && !FrontierIsPrefix(info, AckShared(info, s.cursor, q))
    ensures Legal(s, run) && NoSeeks(run) && !FrontierIsPrefix(Run(s, run).info, Run(s, run).cursor)
  {
    run := [Grow(info), Ack(q)];
    TwoSteps(s, info, q);
  }

  /** A run without seeks after which the frontier is behind. */
  lemma FallsBehind(info: Info, p: Pos) returns (run: seq<Event>)
    requires WellFormed(info) && p.entry > 0 && !Known(info, p.ledger)
    ensures var s := System(info, Seek(info, p));
            Legal(s, run) && NoSeeks(run) && !FrontierIsPrefix(Run(s, run).info, Run(s, run).cursor)
  {
    var q := WaitingMessage(info, p);
    run := BehindAfter(System(info, Seek(info, p)), Beyond(info, p.ledger), q);
  }

  lemma TwoSteps(s: System, info: Info, q: Pos)
    requires Appends(s.info, info) && Stored(info, q)
    ensures Legal(s, [Grow(info), Ack(q)])
    ensures Run(s, [Grow(info), Ack(q)]) == System(info, AckShared(info, s.cursor, q))
  {
    var run := [Grow(info), Ack(q)];
    var t := Step(s, run[0]);
    assert run[1..] == [Ack(q)] && run[1..][1..] == [];
    assert Legal(t, run[1..]) && Run(t, run[1..]) == Step(t, Ack(q));
  }

  /** Until the next seek the frontier stays the longest acknowledged prefix, whatever is appended and acknowledged,
      exactly when the target starts a ledger or names a known one. */
  lemma SeekKeepsFrontier(info: Info, p: Pos)
    requires WellFormed(info)
    ensures var s := System(info, Seek(info, p));
            (forall run :: Legal(s, run) && NoSeeks(run) ==> FrontierIsPrefix(Run(s, run).info, Run(s, run).cursor))
            <==> p.entry == 0 || Known(info, p.ledger)
  {
    var s := System(info, Seek(info, p));
    SeekInvExact(info, p);
    if p.entry == 0 || Known(info, p.ledger) {
      if p.entry == 0 { InvIsKnown(info, s.cursor); }
      forall run | Legal(s, run) && NoSeeks(run) ensures FrontierIsPrefix(Run(s, run).info, Run(s, run).cursor) {
        KnownRun(s, run);
      }
    } else {
      var run := FallsBehind(info, p);
    }
  }
}
