/** Whole runs of a segmented cursor: appends, shared acks and seeks to any position, in any order. */
module CursorRuns {
  import opened Base
  import opened Positions
  import opened RangeSets
  import opened LedgerLog
  import opened ManagedCursors

  datatype Event = Grow(info: Info) | Ack(p: Pos) | SeekTo(p: Pos)

  datatype System = System(info: Info, cursor: CursorState)

  /** The log grows at its end and acks name stored messages; a seek may name any position. */
  ghost predicate Enabled(s: System, e: Event) {
    match e
    case Grow(info) => Appends(s.info, info)
    case Ack(p) => Stored(s.info, p)
    case SeekTo(_) => true
  }

  function Step(s: System, e: Event): System {
    match e
    case Grow(info) => s.(info := info)
    case Ack(p) => s.(cursor := AckShared(s.info, s.cursor, p))
    case SeekTo(p) => s.(cursor := Seek(s.info, p))
  }

  ghost predicate Legal(s: System, run: seq<Event>)
    decreases |run|
  {
    run == [] || (Enabled(s, run[0]) && Legal(Step(s, run[0]), run[1..]))
  }

  function Run(s: System, run: seq<Event>): System
    decreases |run|
  {
    if run == [] then s else Run(Step(s, run[0]), run[1..])
  }

  // ---------------------------------------------------------------- what a run means

  /** Everything before `below`, stored now or ever, and the positions in `acked`. */
  datatype Meaning = Meaning(below: Option<Pos>, acked: set<Pos>) {
    predicate Has(q: Pos) {
      (below.Some? && q.Lt(below.value)) || q in acked
    }
  }

  /** The same step on the plain meaning: a seek past the start of a ledger reaches into the future. */
  function MeaningStep(info: Info, m: Meaning, e: Event): Meaning {
    match e
    case Grow(_) => m
    case Ack(p) => m.(acked := m.acked + {p})
    case SeekTo(p) => if p.entry > 0 then Meaning(Some(p), {}) else Meaning(None, set q | q in Log(info) && q.Lt(p))
  }

  function MeaningRun(s: System, m: Meaning, run: seq<Event>): Meaning
    decreases |run|
  {
    if run == [] then m else MeaningRun(Step(s, run[0]), MeaningStep(s.info, m, run[0]), run[1..])
  }

  /** Stored, or where a later message can still go. */
  ghost predicate Possible(info: Info, q: Pos) {
    Stored(info, q) || AppendPoint(info).Le(q)
  }

  /** The cursor answers as the meaning does, for every message there is or will be. */
  ghost predicate Follows(s: System, m: Meaning) {
    && WellFormed(s.info) && Tidy(s.info, s.cursor)
    && (forall q :: q in m.acked ==> Stored(s.info, q))
    && forall q :: Possible(s.info, q) ==> (Acked(s.cursor, q) <==> m.Has(q))
  }

  lemma PossibleBefore(info: Info, info': Info, q: Pos)
    requires Appends(info, info') && Possible(info', q)
    ensures Possible(info, q)
  {
    if Stored(info', q) && !Stored(info, q) {
      NewAtAppendPoint(info, info', q);
    } else if !Stored(info', q) && info != [] {
      IdsAt(info', |info| - 1, |info'| - 1);
    }
  }

  lemma FutureUncovered(info: Info, st: CursorState, q: Pos)
    requires WellFormed(info) && Shape(info, st) && AppendPoint(info).Le(q)
    ensures !Covers(st.holes, q)
  {
    if Stored(info, q) { StoredBelowAppendPoint(info, q); }
  }

  /** An ack changes nothing for messages still to come. */
  lemma AckFuture(info: Info, st: CursorState, p: Pos, q: Pos)
    requires WellFormed(info) && Tidy(info, st) && Stored(info, p) && AppendPoint(info).Le(q)
    ensures Acked(AckShared(info, st, p), q) <==> Acked(st, q)
  {
    var after := AckShared(info, st, p);
    AckExact(info, st, p);
    FutureUncovered(info, st, q);
    FutureUncovered(info, after, q);
    if after.mark != st.mark { StoredBelowAppendPoint(info, after.mark.value); }
  }

  lemma AckFollows(s: System, m: Meaning, p: Pos)
    requires Follows(s, m) && Stored(s.info, p)
    ensures Follows(Step(s, Ack(p)), MeaningStep(s.info, m, Ack(p)))
  {
    AckExact(s.info, s.cursor, p);
    forall q | Possible(s.info, q) ensures Acked(AckShared(s.info, s.cursor, p), q) <==> m.Has(q) || q == p {
      if !Stored(s.info, q) { AckFuture(s.info, s.cursor, p, q); }
    }
  }

  lemma SeekFollows(s: System, m: Meaning, p: Pos)
    requires WellFormed(s.info)
    ensures Follows(Step(s, SeekTo(p)), MeaningStep(s.info, m, SeekTo(p)))
  {
    var st := Seek(s.info, p);
    SeekInvExact(s.info, p);
    LogMembers(s.info);
    forall q | Possible(s.info, q) ensures Acked(st, q) <==> q.Lt(p) && (p.entry > 0 || Stored(s.info, q)) {
      if Stored(s.info, q) {
        SeekExact(s.info, p, q);
      } else if p.entry == 0 && st.mark.Some? {
        StoredBelowAppendPoint(s.info, st.mark.value);
      }
    }
  }

  lemma StepFollows(s: System, m: Meaning, e: Event)
    requires Follows(s, m) && Enabled(s, e)
    ensures Follows(Step(s, e), MeaningStep(s.info, m, e))
  {
    match e
    case Grow(info) =>
      AppendsExtends(s.info, info);
      AppendKeepsTidy(s.info, info, s.cursor);
      forall q | Stored(s.info, q) ensures Stored(info, q) { StoredGrows(s.info, info, q); }
      forall q | Possible(info, q) ensures Possible(s.info, q) { PossibleBefore(s.info, info, q); }
    case Ack(p) => AckFollows(s, m, p);
    case SeekTo(p) => SeekFollows(s, m, p);
  }

  /** After every run, whatever its seeks name, the cursor answers exactly as the run means. */
  lemma {:induction false} RunFollows(s: System, m: Meaning, run: seq<Event>)
    requires Follows(s, m) && Legal(s, run)
    ensures Follows(Run(s, run), MeaningRun(s, m, run))
    decreases |run|
  {
    if run != [] {
      StepFollows(s, m, run[0]);
      RunFollows(Step(s, run[0]), MeaningStep(s.info, m, run[0]), run[1..]);
    }
  }

  // ---------------------------------------------------------------- runs that mean a set of stored messages

  /** The same run on the plain set of acknowledged positions. */
  function SetStep(info: Info, acked: set<Pos>, e: Event): set<Pos> {
    match e
    case Grow(_) => acked
    case Ack(p) => acked + {p}
    case SeekTo(p) => set q | q in Log(info) && q.Lt(p)
  }

  function SetRun(s: System, acked: set<Pos>, run: seq<Event>): set<Pos>
    decreases |run|
  {
    if run == [] then acked else SetRun(Step(s, run[0]), SetStep(s.info, acked, run[0]), run[1..])
  }

  /** The cursor means exactly this set of stored messages. */
  ghost predicate Represents(s: System, acked: set<Pos>) {
    && WellFormed(s.info) && Inv(s.info, s.cursor)
    && (forall q :: q in acked ==> Stored(s.info, q))
    && forall q :: Stored(s.info, q) ==> (Acked(s.cursor, q) <==> q in acked)
  }

  /** Not a seek whose target is past the start of its ledger and follows no stored message. */
  ghost predicate Placed(s: System, e: Event) {
    e.SeekTo? ==> e.p.entry == 0 || Stored(s.info, Pos(e.p.ledger, e.p.entry - 1))
  }

  /** A step keeps the cursor a set of stored messages exactly when it is no misplaced seek. */
  lemma StepRepresents(s: System, acked: set<Pos>, e: Event)
    requires Represents(s, acked) && Enabled(s, e)
    ensures Represents(Step(s, e), SetStep(s.info, acked, e)) <==> Placed(s, e)
  {
    match e
    case Grow(info) =>
      AppendsExtends(s.info, info);
      GrowthKeepsCursor(s.info, info, s.cursor);
      forall q | Stored(s.info, q) ensures Stored(info, q) { StoredGrows(s.info, info, q); }
    case Ack(p) => AckExact(s.info, s.cursor, p);
    case SeekTo(p) =>
      SeekInvExact(s.info, p);
      LogMembers(s.info);
      forall q | Stored(s.info, q) ensures Acked(Seek(s.info, p), q) <==> q.Lt(p) { SeekExact(s.info, p, q); }
  }

  ghost predicate PlacedRun(s: System, run: seq<Event>)
    decreases |run|
  {
    run == [] || (Placed(s, run[0]) && PlacedRun(Step(s, run[0]), run[1..]))
  }

  /** After every run whose seeks are well placed the cursor means exactly the set the run acknowledges. */
  lemma {:induction false} RunRepresents(s: System, acked: set<Pos>, run: seq<Event>)
    requires Represents(s, acked) && Legal(s, run) && PlacedRun(s, run)
    ensures Represents(Run(s, run), SetRun(s, acked, run))
    decreases |run|
  {
    if run != [] {
      StepRepresents(s, acked, run[0]);
      RunRepresents(Step(s, run[0]), SetStep(s.info, acked, run[0]), run[1..]);
    }
  }

  lemma {:induction false} RunSnoc(s: System, acked: set<Pos>, run: seq<Event>, n: nat)
    requires n < |run| && Legal(s, run)
    ensures Run(s, run[..n + 1]) == Step(Run(s, run[..n]), run[n]) && Enabled(Run(s, run[..n]), run[n])
    ensures SetRun(s, acked, run[..n + 1]) == SetStep(Run(s, run[..n]).info, SetRun(s, acked, run[..n]), run[n])
    decreases |run|
  {
    var t, rest := Step(s, run[0]), run[1..];
    assert run[..n + 1][1..] == rest[..n];
    if n > 0 {
      assert run[..n][1..] == rest[..n - 1];
      RunSnoc(t, SetStep(s.info, acked, run[0]), rest, n - 1);
    }
  }

  ghost predicate RepresentsAt(s: System, acked: set<Pos>, run: seq<Event>, n: nat) {
    n <= |run| ==> Represents(Run(s, run[..n]), SetRun(s, acked, run[..n]))
  }

  ghost predicate PlacedAt(s: System, run: seq<Event>, n: nat) {
    n < |run| ==> Placed(Run(s, run[..n]), run[n])
  }

  /** Throughout a run the cursor means the set the run acknowledges exactly when every seek is well placed in the
      log it meets. */
  lemma RepresentsExact(s: System, acked: set<Pos>, run: seq<Event>)
    requires Represents(s, acked) && Legal(s, run)
    ensures (forall n: nat :: n <= |run| ==> RepresentsAt(s, acked, run, n)) <==>
            (forall n: nat :: n < |run| ==> PlacedAt(s, run, n))
  {
    var held := (n: nat) => RepresentsAt(s, acked, run, n);
    var good := (n: nat) => PlacedAt(s, run, n);
    forall n: nat | n < |run| && held(n) ensures held(n + 1) <==> good(n) { RunStepRepresents(s, acked, run, n); }
    assert run[..0] == [] && held(0);
    Throughout(held, good, |run|);
    assert forall n: nat :: held(n) == RepresentsAt(s, acked, run, n) && good(n) == PlacedAt(s, run, n);
  }

  lemma RunStepRepresents(s: System, acked: set<Pos>, run: seq<Event>, n: nat)
    requires n < |run| && Legal(s, run) && RepresentsAt(s, acked, run, n)
    ensures RepresentsAt(s, acked, run, n + 1) <==> PlacedAt(s, run, n)
  {
    RunSnoc(s, acked, run, n);
    StepRepresents(Run(s, run[..n]), SetRun(s, acked, run[..n]), run[n]);
  }

  /** Any two such runs over the same log that acknowledge the same messages, in whatever order and
      with whatever appends in between, end in the same frontier and the same ranges. */
  lemma RunsConverge(s: System, acked: set<Pos>, a: seq<Event>, b: seq<Event>)
    requires Represents(s, acked) && Legal(s, a) && Legal(s, b) && PlacedRun(s, a) && PlacedRun(s, b)
    requires Run(s, a).info == Run(s, b).info && SetRun(s, acked, a) == SetRun(s, acked, b)
    ensures Run(s, a).cursor == Run(s, b).cursor
  {
    RunRepresents(s, acked, a);
    RunRepresents(s, acked, b);
    StateUnique(Run(s, a).info, Run(s, a).cursor, Run(s, b).cursor);
  }

  function Acks(ps: seq<Pos>): seq<Event> {
    seq(|ps|, i requires 0 <= i < |ps| => Ack(ps[i]))
  }

  lemma {:induction false} AcksRun(s: System, acked: set<Pos>, ps: seq<Pos>)
    requires forall p :: p in ps ==> Stored(s.info, p)
    ensures Legal(s, Acks(ps)) && PlacedRun(s, Acks(ps)) && Run(s, Acks(ps)).info == s.info
    ensures SetRun(s, acked, Acks(ps)) == acked + set p | p in ps
    decreases |ps|
  {
    if ps != [] {
      assert Acks(ps)[0] == Ack(ps[0]) && Acks(ps)[1..] == Acks(ps[1..]);
      AcksRun(Step(s, Ack(ps[0])), acked + {ps[0]}, ps[1..]);
      assert ps == [ps[0]] + ps[1..];
    }
  }

  /** Acknowledging the same messages, in any order and any number of times each, gives the same cursor. */
  lemma AckOrderIrrelevant(s: System, acked: set<Pos>, ps: seq<Pos>, qs: seq<Pos>)
    requires Represents(s, acked) && forall p :: p in ps <==> p in qs
    requires forall p :: p in ps ==> Stored(s.info, p)
    ensures Run(s, Acks(ps)).cursor == Run(s, Acks(qs)).cursor
  {
    AcksRun(s, acked, ps);
    AcksRun(s, acked, qs);
    RunsConverge(s, acked, Acks(ps), Acks(qs));
  }

  lemma StepMonotone(s: System, e: Event)
    requires WellFormed(s.info) && Tidy(s.info, s.cursor) && Enabled(s, e) && !e.SeekTo? && s.cursor.mark.Some?
    ensures AtOrBelowMark(Step(s, e).cursor, s.cursor.mark.value)
    ensures WellFormed(Step(s, e).info) && Tidy(Step(s, e).info, Step(s, e).cursor)
  {
    match e
    case Grow(info) => AppendKeepsTidy(s.info, info, s.cursor);
    case Ack(p) => AckExact(s.info, s.cursor, p);
  }

  /** Between seeks the frontier never moves back, wherever the last seek has put it. */
  lemma {:induction false} FrontierMonotone(s: System, run: seq<Event>)
    requires WellFormed(s.info) && Tidy(s.info, s.cursor) && Legal(s, run)
    requires s.cursor.mark.Some? && forall i :: 0 <= i < |run| ==> !run[i].SeekTo?
    ensures AtOrBelowMark(Run(s, run).cursor, s.cursor.mark.value)
    decreases |run|
  {
    if run != [] {
      var t := Step(s, run[0]);
      StepMonotone(s, run[0]);
      FrontierMonotone(t, run[1..]);
      MarkIsPrefix(Run(t, run[1..]).cursor, s.cursor.mark.value, t.cursor.mark.value);
    }
  }
}
