/**
 A reader beside the writer: the writer commits a batch, then publishes metadata, then the last
 confirmed position; the reader loads the last confirmed position, then metadata, then entries one
 at a time. Every interleaving of these steps is allowed.
 */
module ConcurrentReads {
  import opened Base
  import opened Positions
  import opened LedgerLog
  import opened ManagedLedgers

  datatype Phase = Idle | Committed(cur: Runtime, last: MessageId) | InfoStored(last: MessageId)

  datatype Reader =
    | Fresh
    | HasLac(lac: MessageId)
    | Reading(lac: MessageId, info: Info, at: Option<Pos>, out: seq<Message>)
    | Nothing
    | Done(lac: MessageId, info: Info, out: seq<Message>)

  datatype System = System(l: Ledger, phase: Phase, reader: Reader)

  datatype Query = Query(from: MessageId, limit: nat)

  datatype Event = Commit(items: seq<Message>) | Fail(items: seq<Message>, ids: nat) | StoreInfo | StoreLac | Read

  // ---------------------------------------------------------------- steps

  function CommitStep(l: Ledger, items: seq<Message>): Ledger
    requires l.info != []
  {
    var d := Assign(Start(l), l.max, items, |items|);
    l.(entries := PutAll(l.entries, d.positions, items, |items|), durable := d.info, nextId := d.nextId)
  }

  predicate Visible(info: Info, p: Pos) {
    exists k :: 0 <= k < |info| && info[k].id == p.ledger && info[k].entries > p.entry
  }

  /** One shared-memory access of `read_entries_from`. */
  function ReadStep(q: Query, l: Ledger, r: Reader): Reader {
    match r
    case Fresh =>
      if q.limit == 0 || l.lac.None? || q.from.Gt(l.lac.value) then Nothing else HasLac(l.lac.value)
    case HasLac(lac) => Reading(lac, l.info, Some(q.from.pos), [])
    case Reading(lac, info, at, out) =>
      if at.None? || |out| >= q.limit || MessageId(at.value, q.from.partition).Gt(lac) then Done(lac, info, out)
      else
        var p := at.value;
        Reading(lac, info, NextPosition(info, p),
                if Visible(info, p) && p in l.entries then out + [l.entries[p]] else out)
    case Nothing => r
    case Done(_, _, _) => r
  }

  predicate Next(q: Query, s: System, e: Event, t: System) {
    match e
    case Commit(items) =>
      && s.phase.Idle? && items != [] && s.l.info != []
      && var d := Assign(Start(s.l), s.l.max, items, |items|);
         var last := MessageId(d.positions[|items| - 1], items[|items| - 1].partition);
         t == s.(l := CommitStep(s.l, items), phase := Committed(d.cur, last))
    case Fail(items, ids) =>
      s.phase.Idle? && s.l.info != [] && t == s.(l := AppendFailed(s.l, items, ids))
    case StoreInfo =>
      s.phase.Committed?
      && t == s.(l := s.l.(info := s.l.durable, cur := s.phase.cur), phase := InfoStored(s.phase.last))
    case StoreLac =>
      s.phase.InfoStored? && t == s.(l := s.l.(lac := Some(s.phase.last)), phase := Idle)
    case Read => t == s.(reader := ReadStep(q, s.l, s.reader))
  }

  // ---------------------------------------------------------------- the promised slice

  /** Index of the first position not below `p`. */
  function LowerBound(log: seq<Pos>, p: Pos, from: nat := 0): (i: nat)
    requires from <= |log|
    ensures from <= i <= |log|
    ensures forall k :: from <= k < i ==> log[k].Lt(p)
    ensures i < |log| ==> !log[i].Lt(p)
    decreases |log| - from
  {
    if from < |log| && log[from].Lt(p) then LowerBound(log, p, from + 1) else from
  }

  /** The confirmed entry itself counts unless the query carries a larger partition. */
  function End(log: seq<Pos>, lac: MessageId, partition: int): nat {
    LowerBound(log, lac.pos) + if partition <= lac.partition then 1 else 0
  }

  /** From the start position up to the last confirmed one, at most `limit` entries. */
  ghost function Slice(log: seq<Pos>, q: Query, lac: MessageId): seq<Pos>
    requires lac.pos in log
  {
    var i := LowerBound(log, q.from.pos);
    var j := Lesser(End(log, lac, q.from.partition), i + q.limit);
    Part(log, i, j)
  }

  function Part<T>(s: seq<T>, i: nat, j: nat): seq<T> {
    if i < j <= |s| then s[i..j] else []
  }

  lemma LowerBoundUnique(info: Info, p: Pos, k: nat)
    requires WellFormed(info) && k <= |Log(info)|
    requires (k < |Log(info)| ==> !Log(info)[k].Lt(p)) && (k > 0 ==> Log(info)[k - 1].Lt(p))
    ensures LowerBound(Log(info), p) == k
  {
    var i := LowerBound(Log(info), p);
    if i < k { LogOrder(info, i, k - 1); }
  }

  lemma LowerBoundAt(info: Info, k: nat)
    requires WellFormed(info) && k < |Log(info)|
    ensures LowerBound(Log(info), Log(info)[k]) == k
  {
    if k > 0 { LogOrder(info, k - 1, k); }
    LowerBoundUnique(info, Log(info)[k], k);
  }

  lemma LowerBoundMonotone(info: Info, p: Pos, q: Pos)
    requires WellFormed(info) && p.Le(q)
    ensures LowerBound(Log(info), p) <= LowerBound(Log(info), q)
  {
  }

  // ---------------------------------------------------------------- invariants

  /** The committed log contains the published one, and the last confirmed position lies in it. */
  ghost predicate WriterInv(l: Ledger, phase: Phase) {
    && 1 <= l.max < U64_LIMIT && WellFormed(l.info) && WellFormed(l.durable) && Holds(l.entries, Log(l.durable))
    && Log(l.info) <= Log(l.durable) && (l.lac.Some? ==> l.lac.value.pos in Log(l.info))
    && match phase
       case Idle => LedgerInv(l)
       case Committed(cur, last) =>
         Consistent(l.durable, cur, l.nextId) && cur.entries < l.max && Some(last) == LastId(l.entries, Log(l.durable))
       case InfoStored(last) =>
         && l.info == l.durable && Consistent(l.info, l.cur, l.nextId) && l.cur.entries < l.max
         && Some(last) == LastId(l.entries, Log(l.durable))
  }

  /** `out` is what the log holds from index `i` on. */
  ghost predicate Taken(entries: map<Pos, Message>, log: seq<Pos>, i: nat, out: seq<Message>) {
    && i + |out| <= |log| && Holds(entries, log)
    && forall k :: 0 <= k < |out| ==> out[k] == entries[log[i + k]]
  }

  /** The next position to visit is at or just before index `k`. */
  ghost predicate PointsAt(info: Info, at: Option<Pos>, k: nat) {
    match at
    case None => k == |Log(info)|
    case Some(p) => Known(info, p.ledger) && LowerBound(Log(info), p) == k
  }

  /** How far a reading reader is: it has taken the `|out|` entries from its start position on. */
  ghost predicate Progress(q: Query, entries: map<Pos, Message>, info: Info, lac: MessageId,
                           at: Option<Pos>, out: seq<Message>) {
    var i := LowerBound(Log(info), q.from.pos);
    && Taken(entries, Log(info), i, out) && |out| <= q.limit
    && (|out| > 0 ==> i + |out| <= End(Log(info), lac, q.from.partition))
    && PointsAt(info, at, i + |out|)
  }

  ghost predicate ReaderInv(q: Query, l: Ledger, r: Reader) {
    match r
    case Fresh => true
    case HasLac(lac) => lac.pos in Log(l.info) && !q.from.Gt(lac)
    case Reading(lac, info, at, out) =>
      && WellFormed(info) && Log(info) <= Log(l.durable) && lac.pos in Log(info) && !q.from.Gt(lac)
      && (Known(info, q.from.pos.ledger) ==> Progress(q, l.entries, info, lac, at, out))
      && (!Known(info, q.from.pos.ledger) ==> out == [] && (at.None? || at == Some(q.from.pos)))
    case Nothing => true
    case Done(lac, info, out) =>
      && WellFormed(info) && Log(info) <= Log(l.durable) && lac.pos in Log(info) && !q.from.Gt(lac)
      && (Known(info, q.from.pos.ledger) ==> Matches(l.entries, Slice(Log(info), q, lac), out))
      && (!Known(info, q.from.pos.ledger) ==> out == [])
  }

  /** The messages stored at these positions, in this order. */
  ghost predicate Matches(entries: map<Pos, Message>, ps: seq<Pos>, out: seq<Message>) {
    |out| == |ps| && forall k :: 0 <= k < |ps| ==> ps[k] in entries && out[k] == entries[ps[k]]
  }

  // ---------------------------------------------------------------- writer steps

  /** Nothing committed is ever changed or taken back. */
  ghost predicate Grew(l: Ledger, l': Ledger) {
    && Log(l.info) <= Log(l'.info) && Log(l.durable) <= Log(l'.durable)
    && forall p :: p in Log(l.durable) && p in l.entries ==> p in l'.entries && l'.entries[p] == l.entries[p]
  }

  lemma {:induction false} CommitKeepsInv(l: Ledger, items: seq<Message>)
    requires LedgerInv(l) && items != []
    ensures var d := Assign(Start(l), l.max, items, |items|);
            var last := MessageId(d.positions[|items| - 1], items[|items| - 1].partition);
            WriterInv(CommitStep(l, items), Committed(d.cur, last))
    ensures Grew(l, CommitStep(l, items))
  {
    var ps := AssignExact(Start(l), l.max, items, |items|);
    var d := Assign(Start(l), l.max, items, |items|);
    assert d.positions == ps;
    CommitExact(l.entries, l.info, d.info, ps, items);
    assert l.lac.Some? ==> l.lac.value.pos in Log(l.info);
  }

  lemma {:induction false} FailKeepsInv(l: Ledger, items: seq<Message>, ids: nat)
    requires WriterInv(l, Idle)
    ensures WriterInv(AppendFailed(l, items, ids), Idle) && Grew(l, AppendFailed(l, items, ids))
  {
    AppendFailedExact(l, items, ids);
  }

  lemma {:induction false} StoreInfoKeepsInv(l: Ledger, cur: Runtime, last: MessageId)
    requires WriterInv(l, Committed(cur, last))
    ensures var l' := l.(info := l.durable, cur := cur); WriterInv(l', InfoStored(last)) && Grew(l, l')
  {
  }

  lemma {:induction false} StoreLacKeepsInv(l: Ledger, last: MessageId)
    requires WriterInv(l, InfoStored(last))
    ensures WriterInv(l.(lac := Some(last)), Idle) && Grew(l, l.(lac := Some(last)))
  {
  }

  lemma {:induction false} WriterStep(q: Query, s: System, e: Event, t: System)
    requires WriterInv(s.l, s.phase) && Next(q, s, e, t)
    ensures WriterInv(t.l, t.phase) && Grew(s.l, t.l)
  {
    match e
    case Commit(items) => CommitKeepsInv(s.l, items);
    case Fail(items, ids) => FailKeepsInv(s.l, items, ids);
    case StoreInfo => StoreInfoKeepsInv(s.l, s.phase.cur, s.phase.last);
    case StoreLac => StoreLacKeepsInv(s.l, s.phase.last);
    case Read =>
  }

  // ---------------------------------------------------------------- reader steps

  lemma {:induction false} ProgressStable(q: Query, l: Ledger, l': Ledger, info: Info, lac: MessageId,
                                          at: Option<Pos>, out: seq<Message>)
    requires Progress(q, l.entries, info, lac, at, out) && Log(info) <= Log(l.durable) && Grew(l, l')
    ensures Progress(q, l'.entries, info, lac, at, out)
  {
    var log := Log(info);
    forall k | 0 <= k < |log| ensures log[k] in l'.entries && l'.entries[log[k]] == l.entries[log[k]] {
      assert log[k] == Log(l.durable)[k];
    }
  }

  /** What the reader learned stays true while the writer moves on. */
  lemma {:induction false} ReaderStable(q: Query, l: Ledger, l': Ledger, r: Reader)
    requires ReaderInv(q, l, r) && Grew(l, l')
    ensures ReaderInv(q, l', r)
  {
    if r.Reading? && Known(r.info, q.from.pos.ledger) {
      ProgressStable(q, l, l', r.info, r.lac, r.at, r.out);
    }
    if r.Done? && Known(r.info, q.from.pos.ledger) {
      MatchesStable(q, l, l', r.info, r.lac, r.out);
    }
  }

  lemma {:induction false} MatchesStable(q: Query, l: Ledger, l': Ledger, info: Info, lac: MessageId, out: seq<Message>)
    requires lac.pos in Log(info) && Matches(l.entries, Slice(Log(info), q, lac), out)
    requires Log(info) <= Log(l.durable) && Grew(l, l')
    ensures Matches(l'.entries, Slice(Log(info), q, lac), out)
  {
    var i := LowerBound(Log(info), q.from.pos);
    PartWithin(Log(info), Log(l.durable), i, Lesser(End(Log(info), lac, q.from.partition), i + q.limit));
    MatchesKept(l.entries, l'.entries, Slice(Log(info), q, lac), out);
  }

  lemma PartWithin<T>(s: seq<T>, t: seq<T>, i: nat, j: nat)
    requires s <= t
    ensures forall x :: x in Part(s, i, j) ==> x in t
  {
    forall k | 0 <= k < |Part(s, i, j)| ensures Part(s, i, j)[k] in t {
      assert Part(s, i, j)[k] == s[i + k] == t[i + k];
    }
  }

  lemma MatchesKept(entries: map<Pos, Message>, entries': map<Pos, Message>, ps: seq<Pos>, out: seq<Message>)
    requires Matches(entries, ps, out)
    requires forall p :: p in ps && p in entries ==> p in entries' && entries'[p] == entries[p]
    ensures Matches(entries', ps, out)
  {
  }

  lemma EndAfter(info: Info, k: nat, lac: MessageId, partition: int)
    requires WellFormed(info) && k < |Log(info)| && lac.pos in Log(info)
    requires !MessageId(Log(info)[k], partition).Gt(lac)
    ensures k + 1 <= End(Log(info), lac, partition)
  {
    var x :| 0 <= x < |Log(info)| && Log(info)[x] == lac.pos;
    LowerBoundAt(info, x);
    LogOrder(info, k, x);
  }

  /** Reading a stored entry appends it. */
  lemma {:induction false} ReadStored(q: Query, entries: map<Pos, Message>, info: Info, lac: MessageId,
                                      p: Pos, out: seq<Message>)
    requires WellFormed(info) && lac.pos in Log(info) && Stored(info, p) && |out| < q.limit
    requires !MessageId(p, q.from.partition).Gt(lac) && Progress(q, entries, info, lac, Some(p), out)
    ensures p in entries && Progress(q, entries, info, lac, NextPosition(info, p), out + [entries[p]])
  {
    var k := LowerBound(Log(info), q.from.pos) + |out|;
    var x := IndexOf(info, p);
    LowerBoundAt(info, x);
    EndAfter(info, k, lac, q.from.partition);
    NextAt(info, k);
    AfterStored(info, k);
    TakenMore(entries, Log(info), LowerBound(Log(info), q.from.pos), out);
  }

  lemma TakenMore(entries: map<Pos, Message>, log: seq<Pos>, i: nat, out: seq<Message>)
    requires Taken(entries, log, i, out) && i + |out| < |log|
    ensures Taken(entries, log, i, out + [entries[log[i + |out|]]])
  {
  }

  /** Skipping an unstored start appends nothing. */
  lemma {:induction false} ReadSkipped(q: Query, entries: map<Pos, Message>, info: Info, lac: MessageId,
                                       p: Pos, out: seq<Message>)
    requires WellFormed(info) && !Stored(info, p) && Progress(q, entries, info, lac, Some(p), out)
    ensures Progress(q, entries, info, lac, NextPosition(info, p), out)
  {
    AfterUnstored(info, p);
  }

  lemma AfterStored(info: Info, k: nat)
    requires WellFormed(info) && k < |Log(info)|
    ensures k + 1 < |Log(info)| ==>
            LowerBound(Log(info), Log(info)[k + 1]) == k + 1 && Known(info, Log(info)[k + 1].ledger)
  {
    if k + 1 < |Log(info)| {
      LowerBoundAt(info, k + 1);
      LogIndexStored(info, k + 1);
    }
  }

  lemma AfterUnstored(info: Info, p: Pos)
    requires WellFormed(info) && Known(info, p.ledger) && !Stored(info, p)
    ensures match NextPosition(info, p)
            case None => LowerBound(Log(info), p) == |Log(info)|
            case Some(n) => Known(info, n.ledger) && LowerBound(Log(info), n) == LowerBound(Log(info), p)
  {
    var log, k := Log(info), LowerBound(Log(info), p);
    NextIsLeast(info, p);
    if k < |log| {
      LogIndexStored(info, k);
      var n := NextPosition(info, p).value;
      var m := IndexOf(info, n);
      LogIndexStored(info, m);
      LogOrder(info, m, k);
      LowerBoundAt(info, m);
    }
    if n :| NextPosition(info, p) == Some(n) {
      var m := IndexOf(info, n);
      assert m < |log| && p.Lt(log[m]);
    }
  }

  /** A reader that stops has taken exactly the slice of its snapshot. */
  lemma {:induction false} StopExact(q: Query, entries: map<Pos, Message>, info: Info, lac: MessageId,
                                     at: Option<Pos>, out: seq<Message>)
    requires WellFormed(info) && lac.pos in Log(info) && Progress(q, entries, info, lac, at, out)
    requires at.None? || |out| >= q.limit || MessageId(at.value, q.from.partition).Gt(lac)
    ensures Matches(entries, Slice(Log(info), q, lac), out)
  {
    var log := Log(info);
    var i := LowerBound(log, q.from.pos);
    var x :| 0 <= x < |log| && log[x] == lac.pos;
    LowerBoundAt(info, x);
    if at.Some? && MessageId(at.value, q.from.partition).Gt(lac) {
      PastEnd(info, at.value, lac, q.from.partition, x);
    }
    TakenPart(entries, log, i, Lesser(End(log, lac, q.from.partition), i + q.limit), out);
  }

  lemma TakenPart(entries: map<Pos, Message>, log: seq<Pos>, i: nat, j: nat, out: seq<Message>)
    requires Taken(entries, log, i, out) && j <= |log| && (if out == [] then j <= i else j == i + |out|)
    ensures Matches(entries, Part(log, i, j), out)
  {
  }

  lemma PastEnd(info: Info, p: Pos, lac: MessageId, partition: int, x: nat)
    requires WellFormed(info) && x < |Log(info)| && Log(info)[x] == lac.pos
    requires MessageId(p, partition).Gt(lac)
    ensures LowerBound(Log(info), p) >= End(Log(info), lac, partition)
  {
    LowerBoundAt(info, x);
    LowerBoundMonotone(info, lac.pos, p);
  }

  lemma {:induction false} ReadKeepsInv(q: Query, l: Ledger, phase: Phase, r: Reader)
    requires WriterInv(l, phase) && ReaderInv(q, l, r)
    ensures ReaderInv(q, l, ReadStep(q, l, r))
  {
    match r
    case Fresh =>
    case HasLac(lac) => if Known(l.info, q.from.pos.ledger) { StartExact(q, l, lac); }
    case Reading(lac, info, at, out) =>
      if !Known(info, q.from.pos.ledger) {
        NextUnknown(info, q.from.pos);
        UnknownInvisible(info, q.from.pos);
      } else if at.None? || |out| >= q.limit || MessageId(at.value, q.from.partition).Gt(lac) {
        StopExact(q, l.entries, info, lac, at, out);
      } else {
        VisibleIsStored(info, at.value);
        if Stored(info, at.value) {
          ReadStored(q, l.entries, info, lac, at.value, out);
        } else {
          ReadSkipped(q, l.entries, info, lac, at.value, out);
        }
      }
    case Nothing =>
    case Done(_, _, _) =>
  }

  lemma {:induction false} StartExact(q: Query, l: Ledger, lac: MessageId)
    requires Holds(l.entries, Log(l.durable)) && Log(l.info) <= Log(l.durable)
    requires Known(l.info, q.from.pos.ledger)
    ensures Progress(q, l.entries, l.info, lac, Some(q.from.pos), [])
  {
    forall k | 0 <= k < |Log(l.info)| ensures Log(l.info)[k] in l.entries {
      assert Log(l.info)[k] == Log(l.durable)[k];
    }
  }

  lemma VisibleIsStored(info: Info, p: Pos)
    ensures Visible(info, p) <==> Stored(info, p)
  {
  }

  lemma UnknownInvisible(info: Info, p: Pos)
    requires !Known(info, p.ledger)
    ensures !Visible(info, p)
  {
  }

  // ---------------------------------------------------------------- whole runs

  ghost predicate Inv(q: Query, s: System) {
    WriterInv(s.l, s.phase) && ReaderInv(q, s.l, s.reader)
  }

  lemma {:induction false} StepKeepsInv(q: Query, s: System, e: Event, t: System)
    requires Inv(q, s) && Next(q, s, e, t)
    ensures Inv(q, t)
  {
    WriterStep(q, s, e, t);
    if e.Read? {
      ReadKeepsInv(q, s.l, s.phase, s.reader);
    } else {
      ReaderStable(q, s.l, t.l, s.reader);
    }
  }

  predicate StepAt(q: Query, states: seq<System>, events: seq<Event>, i: nat)
    requires i < |events| && |states| == |events| + 1
  {
    Next(q, states[i], events[i], states[i + 1])
  }

  /** One read beside any number of appends: it starts on an idle ledger and steps interleave freely. */
  ghost predicate IsRun(q: Query, states: seq<System>, events: seq<Event>) {
    && |states| == |events| + 1
    && states[0].phase.Idle? && LedgerInv(states[0].l) && states[0].reader.Fresh?
    && forall i: nat :: i < |events| ==> StepAt(q, states, events, i)
  }

  /** Step `m` is the first of the read, which loads the last confirmed position. */
  predicate LoadsLac(states: seq<System>, m: nat)
    requires m + 1 < |states|
  {
    states[m].reader.Fresh? && !states[m + 1].reader.Fresh?
  }

  /** Step `m` is the second of the read, which loads the metadata. */
  predicate LoadsInfo(states: seq<System>, m: nat)
    requires m + 1 < |states|
  {
    states[m].reader.HasLac? && states[m + 1].reader.Reading?
  }

  ghost predicate LacWas(states: seq<System>, n: nat, lac: MessageId)
    requires n < |states|
  {
    exists m: nat :: m < n && LoadsLac(states, m) && states[m].l.lac == Some(lac)
  }

  ghost predicate InfoWas(states: seq<System>, n: nat, info: Info)
    requires n < |states|
  {
    exists m: nat :: m < n && LoadsInfo(states, m) && states[m].l.info == info
  }

  /** Nothing was asked for, or nothing was confirmed at the start position when the read began. */
  ghost predicate NothingWas(q: Query, states: seq<System>, n: nat)
    requires n < |states|
  {
    q.limit == 0 ||
    exists m: nat :: m < n && LoadsLac(states, m) && (states[m].l.lac.None? || q.from.Gt(states[m].l.lac.value))
  }

  /** Whatever the reader holds was published when the read loaded it. */
  ghost predicate Witnessed(q: Query, states: seq<System>, n: nat)
    requires n < |states|
  {
    match states[n].reader
    case Fresh => true
    case HasLac(lac) => LacWas(states, n, lac)
    case Reading(lac, info, _, _) => LacWas(states, n, lac) && InfoWas(states, n, info)
    case Nothing => NothingWas(q, states, n)
    case Done(lac, info, _) => LacWas(states, n, lac) && InfoWas(states, n, info)
  }

  lemma WitnessedNext(q: Query, states: seq<System>, n: nat, e: Event)
    requires n + 1 < |states| && Witnessed(q, states, n) && Next(q, states[n], e, states[n + 1])
    ensures Witnessed(q, states, n + 1)
  {
    var s, t := states[n], states[n + 1];
    assert t.reader == if e.Read? then ReadStep(q, s.l, s.reader) else s.reader;
    assert s.reader.Fresh? && !t.reader.Fresh? ==> LoadsLac(states, n);
    assert s.reader.HasLac? && t.reader.Reading? ==> LoadsInfo(states, n);
  }

  lemma {:induction false} RunInv(q: Query, states: seq<System>, events: seq<Event>, n: nat)
    requires IsRun(q, states, events) && n < |states|
    ensures Inv(q, states[n]) && Witnessed(q, states, n)
  {
    if n > 0 {
      RunInv(q, states, events, n - 1);
      assert StepAt(q, states, events, n - 1);
      StepKeepsInv(q, states[n - 1], events[n - 1], states[n]);
      WitnessedNext(q, states, n - 1, events[n - 1]);
    }
  }

  /** Entries after the last confirmed one do not change what a reader is promised. */
  lemma {:induction false} SlicePrefix(info: Info, info': Info, q: Query, lac: MessageId)
    requires WellFormed(info) && WellFormed(info') && Log(info) <= Log(info')
    requires lac.pos in Log(info) && !q.from.Gt(lac)
    ensures lac.pos in Log(info') && Slice(Log(info), q, lac) == Slice(Log(info'), q, lac)
  {
    var x: nat :| x < |Log(info)| && Log(info)[x] == lac.pos;
    assert Log(info')[x] == lac.pos;
    BoundPrefix(info, info', lac.pos, x);
    BoundPrefix(info, info', q.from.pos, x);
    SliceSame(Log(info), Log(info'), q, lac);
  }

  lemma {:induction false} SliceSame(log: seq<Pos>, log': seq<Pos>, q: Query, lac: MessageId)
    requires log <= log' && lac.pos in log && lac.pos in log'
    requires LowerBound(log, q.from.pos) == LowerBound(log', q.from.pos)
    requires LowerBound(log, lac.pos) == LowerBound(log', lac.pos) < |log|
    ensures Slice(log, q, lac) == Slice(log', q, lac)
  {
    var i := LowerBound(log, q.from.pos);
    SamePart(log, log', i, Lesser(End(log, lac, q.from.partition), i + q.limit));
  }

  lemma SamePart<T>(s: seq<T>, t: seq<T>, i: nat, j: nat)
    requires s <= t && j <= |s|
    ensures Part(s, i, j) == Part(t, i, j)
  {
  }

  lemma BoundPrefix(info: Info, info': Info, p: Pos, x: nat)
    requires WellFormed(info) && WellFormed(info') && Log(info) <= Log(info')
    requires x < |Log(info)| && p.Le(Log(info)[x])
    ensures LowerBound(Log(info), p) == LowerBound(Log(info'), p) <= x
  {
    var i := LowerBound(Log(info), p);
    assert i <= x;
    assert Log(info')[i] == Log(info)[i] && (i > 0 ==> Log(info')[i - 1] == Log(info)[i - 1]);
    LowerBoundUnique(info', p, i);
  }

  /** A finished read returned exactly the committed messages from its start up to the position that was the
      last confirmed one when the read began, whatever the writer did meanwhile. */
  lemma {:induction false} ReadReturnsLogSlice(q: Query, states: seq<System>, events: seq<Event>)
    requires IsRun(q, states, events)
    ensures var n := |events|; var l := states[n].l;
            match states[n].reader
            case Done(lac, info, out) =>
              && LacWas(states, n, lac) && InfoWas(states, n, info) && lac.pos in Log(l.durable)
              && (Known(info, q.from.pos.ledger) ==> Matches(l.entries, Slice(Log(l.durable), q, lac), out))
              && (!Known(info, q.from.pos.ledger) ==> out == [])
            case Nothing => NothingWas(q, states, n)
            case _ => true
  {
    var n := |events|;
    RunInv(q, states, events, n);
    var s := states[n];
    if s.reader.Done? {
      SlicePrefix(s.reader.info, s.l.durable, q, s.reader.lac);
    }
  }

  // ---------------------------------------------------------------- the reading loop

  /** How many more positions the loop can visit. */
  ghost function Remaining(info: Info, at: Option<Pos>): nat {
    match at
    case None => 0
    case Some(p) => 1 + |Log(info)| - LowerBound(Log(info), p) + if Stored(info, p) then 0 else 1
  }

  lemma {:induction false} RemainingDrops(info: Info, p: Pos)
    requires WellFormed(info)
    ensures Remaining(info, NextPosition(info, p)) < Remaining(info, Some(p))
  {
    if !Known(info, p.ledger) {
      NextUnknown(info, p);
    } else if Stored(info, p) {
      var k := IndexOf(info, p);
      LowerBoundAt(info, k);
      NextAt(info, k);
      AfterStored(info, k);
      if k + 1 < |Log(info)| { LogIndexStored(info, k + 1); }
    } else {
      NextIsLeast(info, p);
      AfterUnstored(info, p);
    }
  }

  /** `read_entries_from` with the writer at rest: exactly the promised slice. */
  method ReadEntries(l: Ledger, q: Query) returns (out: seq<Message>)
    requires LedgerInv(l)
    ensures q.limit == 0 || l.lac.None? || q.from.Gt(l.lac.value) || !Known(l.info, q.from.pos.ledger) ==> out == []
    ensures q.limit > 0 && l.lac.Some? && !q.from.Gt(l.lac.value) && Known(l.info, q.from.pos.ledger) ==>
              l.lac.value.pos in Log(l.info) && Matches(l.entries, Slice(Log(l.info), q, l.lac.value), out)
  {
    out := [];
    if q.limit == 0 || l.lac.None? || q.from.Gt(l.lac.value) { return; }
    var lac := l.lac.value;
    var current := Some(q.from.pos);
    assert ReaderInv(q, l, Reading(lac, l.info, current, out)) by {
      ReadKeepsInv(q, l, Idle, Fresh);
      ReadKeepsInv(q, l, Idle, HasLac(lac));
    }
    while current.Some? && |out| < q.limit && !MessageId(current.value, q.from.partition).Gt(lac)
      invariant ReaderInv(q, l, Reading(lac, l.info, current, out))
      decreases Remaining(l.info, current)
    {
      var p := current.value;
      RemainingDrops(l.info, p);
      ReadKeepsInv(q, l, Idle, Reading(lac, l.info, current, out));
      if Visible(l.info, p) && p in l.entries {
        out := out + [l.entries[p]];
      }
      current := NextPosition(l.info, p);
    }
    ReadKeepsInv(q, l, Idle, Reading(lac, l.info, current, out));
  }
}
