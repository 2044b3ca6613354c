/**
 The rolled-over ledger: batched appends over ledgers of bounded length, published
 metadata and last confirmed position, and reopening from the database.
 */
module ManagedLedgers {
  import opened Base
  import opened Positions
  import opened LedgerLog

  datatype Message = Message(partition: int, metadata: seq<byte>, payload: seq<byte>)

  /** A position with the partition it was stored under; ordered by all three fields. */
  datatype MessageId = MessageId(pos: Pos, partition: int) {
    predicate Gt(other: MessageId) {
      other.pos.Lt(pos) || (pos == other.pos && other.partition < partition)
    }
  }

  /** Assignment cursor of the active ledger. */
  datatype Runtime = Runtime(id: nat, entries: nat, size: nat)

  /** What a batch is about to publish. */
  datatype Draft = Draft(info: Info, cur: Runtime, nextId: nat, positions: seq<Pos>)

  /** `entries`, `durable` and `nextId` live in the database; the rest is published in memory. */
  datatype Ledger = Ledger(max: nat, entries: map<Pos, Message>, durable: Info, nextId: nat,
                           info: Info, lac: Option<MessageId>, cur: Runtime)

  function RollOver(d: Draft): Draft {
    d.(info := d.info + [LedgerInfo(d.nextId, 0, 0)], cur := Runtime(d.nextId, 0, 0), nextId := d.nextId + 1)
  }

  function RollIfFull(d: Draft, max: nat): Draft {
    if d.cur.entries >= max then RollOver(d) else d
  }

  function Size(m: Message): nat {
    |m.metadata| + |m.payload|
  }

  function Grown(info: Info, size: nat): Info
    requires info != []
  {
    var last := info[|info| - 1];
    info[..|info| - 1] + [LedgerInfo(last.id, last.entries + 1, last.size + size)]
  }

  /** Take the next position of the active ledger. */
  function Take(d: Draft, m: Message): Draft
    requires d.info != []
  {
    d.(info := Grown(d.info, Size(m)),
       cur := Runtime(d.cur.id, d.cur.entries + 1, d.cur.size + Size(m)),
       positions := d.positions + [Pos(d.cur.id, d.cur.entries)])
  }

  function AssignOne(d: Draft, max: nat, m: Message): Draft
    requires d.info != []
  {
    RollIfFull(Take(RollIfFull(d, max), m), max)
  }

  /** The draft after the first `n` items of the batch. */
  function Assign(d: Draft, max: nat, items: seq<Message>, n: nat): (r: Draft)
    requires d.info != [] && n <= |items|
    ensures r.info != [] && |r.positions| == |d.positions| + n
  {
    if n == 0 then d else AssignOne(Assign(d, max, items, n - 1), max, items[n - 1])
  }

  function Start(l: Ledger): Draft {
    Draft(l.info, l.cur, l.nextId, [])
  }

  /** The first `n` puts of the write batch. */
  function PutAll(entries: map<Pos, Message>, positions: seq<Pos>, items: seq<Message>, n: nat): map<Pos, Message>
    requires n <= |positions| && n <= |items|
  {
    if n == 0 then entries else PutAll(entries, positions, items, n - 1)[positions[n - 1] := items[n - 1]]
  }

  /** A batch that was written: entries and metadata go to the database in one step, then
      metadata and last confirmed position are published. */
  function Append(l: Ledger, items: seq<Message>): Ledger
    requires l.info != []
  {
    if items == [] then l
    else
      var d := Assign(Start(l), l.max, items, |items|);
      l.(entries := PutAll(l.entries, d.positions, items, |items|), durable := d.info, nextId := d.nextId,
         info := d.info, cur := d.cur,
         lac := Some(MessageId(d.positions[|items| - 1], items[|items| - 1].partition)))
  }

  /** The ledger ids a batch has to allocate. */
  function Needed(l: Ledger, items: seq<Message>): nat
    requires l.info != []
  {
    AssignMonotone(Start(l), l.max, items, 0, |items|);
    Assign(Start(l), l.max, items, |items|).nextId - l.nextId
  }

  /** A batch that failed: at the allocation after `ids` successful ones, or in its entry log or database write
      after all of them. Only allocated ledger ids are gone. */
  function AppendFailed(l: Ledger, items: seq<Message>, ids: nat): Ledger
    requires l.info != []
  {
    l.(nextId := l.nextId + Lesser(ids, Needed(l, items)))
  }

  lemma {:induction false} AssignMonotone(d: Draft, max: nat, items: seq<Message>, m: nat, n: nat)
    requires d.info != [] && m <= n <= |items|
    ensures Assign(d, max, items, m).nextId <= Assign(d, max, items, n).nextId
    decreases n
  {
    if m < n { AssignMonotone(d, max, items, m, n - 1); }
  }

  /** Among the first `n` ledgers, the last non-empty one. */
  function LastWithEntries(info: Info, n: nat): (k: Option<nat>)
    requires n <= |info|
    ensures k.Some? ==> k.value < n && info[k.value].entries > 0
  {
    if n == 0 then None
    else if info[n - 1].entries > 0 then Some(n - 1) else LastWithEntries(info, n - 1)
  }

  function LacFrom(info: Info, entries: map<Pos, Message>): Option<MessageId> {
    match LastWithEntries(info, |info|)
    case None => None
    case Some(k) =>
      var p := Pos(info[k].id, info[k].entries - 1);
      if p in entries then Some(MessageId(p, entries[p].partition)) else None
  }

  function Reload(info: Option<Info>, nextId: nat): (Info, nat) {
    if info.None? || info.value == [] then ([LedgerInfo(nextId, 0, 0)], nextId + 1) else (info.value, nextId)
  }

  function OpenInfo(info: Option<Info>, nextId: nat, max: nat): Draft {
    var (i, n) := Reload(info, nextId);
    var last := i[|i| - 1];
    RollIfFull(Draft(i, Runtime(last.id, last.entries, last.size), n, []), max)
  }

  /** `open_with_config` on what the database holds. */
  function Open(entries: map<Pos, Message>, durable: Option<Info>, nextId: nat, max: nat): Ledger {
    var d := OpenInfo(durable, nextId, max);
    Ledger(max, entries, d.info, d.nextId, d.info, LacFrom(d.info, entries), d.cur)
  }

  // ---------------------------------------------------------------- a draft extends the log

  /** Counters name the last ledger, ids ascend and stay below the allocator. */
  ghost predicate Consistent(info: Info, cur: Runtime, nextId: nat) {
    && WellFormed(info) && info != []
    && info[|info| - 1] == LedgerInfo(cur.id, cur.entries, cur.size)
    && forall l :: l in info ==> l.id < nextId
  }

  lemma {:induction false} RollOverKeepsLog(d: Draft)
    requires Consistent(d.info, d.cur, d.nextId)
    ensures var r := RollOver(d); Consistent(r.info, r.cur, r.nextId) && Log(r.info) == Log(d.info)
  {
    var r := RollOver(d);
    assert r.info[..|r.info| - 1] == d.info;
    assert Entries(r.info[|r.info| - 1]) == [];
    assert forall i :: 0 <= i < |d.info| ==> d.info[i] in d.info;
  }

  lemma {:induction false} GrownLog(info: Info, size: nat)
    requires info != []
    ensures Log(Grown(info, size)) == Log(info) + [Pos(info[|info| - 1].id, info[|info| - 1].entries)]
  {
    var g := Grown(info, size);
    var last := info[|info| - 1];
    assert g[..|g| - 1] == info[..|info| - 1];
    assert Entries(g[|g| - 1]) == Entries(last) + [Pos(last.id, last.entries)];
  }

  lemma {:induction false} GrownConsistent(info: Info, cur: Runtime, nextId: nat, size: nat)
    requires Consistent(info, cur, nextId) && cur.entries + 1 < U64_LIMIT
    ensures Consistent(Grown(info, size), Runtime(cur.id, cur.entries + 1, cur.size + size), nextId)
  {
    var g := Grown(info, size);
    forall i | 0 <= i < |g| ensures g[i].id == info[i].id && g[i].id < nextId && g[i].entries < U64_LIMIT {
      assert info[i] in info;
    }
  }

  ghost predicate Ready(d: Draft) {
    Consistent(d.info, d.cur, d.nextId)
  }

  lemma {:induction false} RollIfFullExact(d: Draft, max: nat)
    requires Ready(d) && 1 <= max
    ensures var r := RollIfFull(d, max);
            Ready(r) && Log(r.info) == Log(d.info) && r.positions == d.positions && r.cur.entries < max
  {
    if d.cur.entries >= max { RollOverKeepsLog(d); }
  }

  /** `r` continues `d` by exactly these positions. */
  ghost predicate Continues(d: Draft, r: Draft, ps: seq<Pos>) {
    && Consistent(r.info, r.cur, r.nextId)
    && r.positions == d.positions + ps && Log(r.info) == Log(d.info) + ps
  }

  /** One assignment appends one position to the log and leaves room in the active ledger. */
  lemma {:induction false} AssignOneExact(d: Draft, max: nat, m: Message) returns (p: Pos)
    requires Ready(d) && 1 <= max < U64_LIMIT
    ensures Continues(d, AssignOne(d, max, m), [p]) && AssignOne(d, max, m).cur.entries < max
  {
    RollIfFullExact(d, max);
    var a := RollIfFull(d, max);
    GrownLog(a.info, Size(m));
    GrownConsistent(a.info, a.cur, a.nextId, Size(m));
    RollIfFullExact(Take(a, m), max);
    p := Pos(a.cur.id, a.cur.entries);
  }

  lemma {:induction false} ContinuesAgain(d: Draft, e: Draft, r: Draft, ps: seq<Pos>, qs: seq<Pos>)
    requires Continues(d, e, ps) && Continues(e, r, qs)
    ensures Continues(d, r, ps + qs)
  {
    assert d.positions + ps + qs == d.positions + (ps + qs);
    assert Log(d.info) + ps + qs == Log(d.info) + (ps + qs);
  }

  /** A whole batch appends its positions to the log, in order. */
  lemma {:induction false} AssignExact(d: Draft, max: nat, items: seq<Message>, n: nat) returns (ps: seq<Pos>)
    requires Ready(d) && 1 <= max < U64_LIMIT && n <= |items|
    ensures Continues(d, Assign(d, max, items, n), ps) && |ps| == n
    ensures n > 0 ==> Assign(d, max, items, n).cur.entries < max
    decreases n
  {
    if n == 0 {
      return [];
    }
    var qs := AssignExact(d, max, items, n - 1);
    var e := Assign(d, max, items, n - 1);
    var p := AssignOneExact(e, max, items[n - 1]);
    ContinuesAgain(d, e, AssignOne(e, max, items[n - 1]), qs, [p]);
    ps := qs + [p];
  }

  // ---------------------------------------------------------------- growth at the end

  lemma RollIfFullAppends(d: Draft, max: nat)
    requires Ready(d) && 1 <= max
    ensures Appends(d.info, RollIfFull(d, max).info)
  {
    RollIfFullExact(d, max);
  }

  lemma GrownAppends(d: Draft, m: Message)
    requires Ready(d) && d.cur.entries + 1 < U64_LIMIT
    ensures Appends(d.info, Take(d, m).info) && Ready(Take(d, m))
  {
    GrownConsistent(d.info, d.cur, d.nextId, Size(m));
  }

  lemma AssignOneAppends(d: Draft, max: nat, m: Message)
    requires Ready(d) && 1 <= max < U64_LIMIT
    ensures Appends(d.info, AssignOne(d, max, m).info)
  {
    var a := RollIfFull(d, max);
    RollIfFullExact(d, max);
    RollIfFullAppends(d, max);
    GrownAppends(a, m);
    RollIfFullAppends(Take(a, m), max);
    AppendsAgain(d.info, a.info, Take(a, m).info);
    AppendsAgain(d.info, Take(a, m).info, AssignOne(d, max, m).info);
  }

  lemma OneMoreAppends(info: Info, e: Draft, max: nat, m: Message)
    requires Appends(info, e.info) && Ready(e) && 1 <= max < U64_LIMIT
    ensures Appends(info, AssignOne(e, max, m).info) && Ready(AssignOne(e, max, m))
  {
    AssignOneAppends(e, max, m);
    AppendsAgain(info, e.info, AssignOne(e, max, m).info);
    var p := AssignOneExact(e, max, m);
  }

  /** What every assignment keeps a batch keeps. */
  lemma {:induction false} AssignInduct(d: Draft, max: nat, items: seq<Message>, n: nat, keeps: Draft -> bool)
    requires d.info != [] && n <= |items| && keeps(d)
    requires forall e, m | keeps(e) && e.info != [] :: keeps(AssignOne(e, max, m))
    ensures keeps(Assign(d, max, items, n))
    decreases n
  {
    if n > 0 { AssignInduct(d, max, items, n - 1, keeps); }
  }

  lemma AssignAppends(d: Draft, max: nat, items: seq<Message>, n: nat)
    requires Ready(d) && 1 <= max < U64_LIMIT && n <= |items|
    ensures Appends(d.info, Assign(d, max, items, n).info)
  {
    var keeps := (e: Draft) => Ready(e) && Appends(d.info, e.info);
    forall e, m | keeps(e) && e.info != [] ensures keeps(AssignOne(e, max, m)) { OneMoreAppends(d.info, e, max, m); }
    AssignInduct(d, max, items, n, keeps);
    assert keeps(Assign(d, max, items, n));
  }

  // ---------------------------------------------------------------- the flat log of messages

  ghost predicate Holds(entries: map<Pos, Message>, log: seq<Pos>) {
    forall i :: 0 <= i < |log| ==> log[i] in entries
  }

  /** The messages of a log, in order. */
  ghost function Contents(entries: map<Pos, Message>, log: seq<Pos>): seq<Message>
    requires Holds(entries, log)
  {
    seq(|log|, i requires 0 <= i < |log| => entries[log[i]])
  }

  ghost function LastId(entries: map<Pos, Message>, log: seq<Pos>): Option<MessageId>
    requires Holds(entries, log)
  {
    if log == [] then None else Some(MessageId(log[|log| - 1], entries[log[|log| - 1]].partition))
  }

  /** Published and durable metadata agree, the counters name the last ledger, which has room,
      every logged position is in the database, and the last confirmed position is the log's last. */
  ghost predicate LedgerInv(l: Ledger) {
    && 1 <= l.max < U64_LIMIT && Consistent(l.info, l.cur, l.nextId) && l.cur.entries < l.max
    && l.durable == l.info && Holds(l.entries, Log(l.info)) && l.lac == LastId(l.entries, Log(l.info))
  }

  lemma {:induction false} PutAllLookup(entries: map<Pos, Message>, ps: seq<Pos>, items: seq<Message>, n: nat)
    requires n <= |ps| && n <= |items| && forall i, j :: 0 <= i < j < |ps| ==> ps[i] != ps[j]
    ensures forall i :: 0 <= i < n ==> ps[i] in PutAll(entries, ps, items, n)
                                       && PutAll(entries, ps, items, n)[ps[i]] == items[i]
    ensures forall q :: q in entries && q !in ps ==> q in PutAll(entries, ps, items, n)
                                                     && PutAll(entries, ps, items, n)[q] == entries[q]
    decreases n
  {
    if n > 0 { PutAllLookup(entries, ps, items, n - 1); }
  }

  lemma {:induction false} NewPositions(info: Info, info': Info, ps: seq<Pos>)
    requires WellFormed(info') && Log(info') == Log(info) + ps
    ensures forall i, j :: 0 <= i < j < |ps| ==> ps[i] != ps[j]
    ensures forall i :: 0 <= i < |Log(info)| ==> Log(info)[i] !in ps
  {
    var n := |Log(info)|;
    forall i, j | 0 <= i < j < |ps| ensures ps[i] != ps[j] { LogOrder(info', n + i, n + j); }
    forall i, j | 0 <= i < n && 0 <= j < |ps| ensures Log(info)[i] != ps[j] { LogOrder(info', i, n + j); }
  }

  lemma {:induction false} ContentsAppend(entries: map<Pos, Message>, entries': map<Pos, Message>,
                                          log: seq<Pos>, ps: seq<Pos>, items: seq<Message>)
    requires Holds(entries, log) && |ps| == |items|
    requires forall i :: 0 <= i < |ps| ==> ps[i] in entries' && entries'[ps[i]] == items[i]
    requires forall i :: 0 <= i < |log| ==> log[i] in entries' && entries'[log[i]] == entries[log[i]]
    ensures Holds(entries', log + ps)
    ensures Contents(entries', log + ps) == Contents(entries, log) + items
  {
  }

  /** Writing a batch at new positions keeps the old messages and adds the batch after them. */
  lemma {:induction false} CommitExact(entries: map<Pos, Message>, info: Info, info': Info,
                                       ps: seq<Pos>, items: seq<Message>)
    requires Holds(entries, Log(info)) && WellFormed(info') && Log(info') == Log(info) + ps && |ps| == |items|
    ensures var entries' := PutAll(entries, ps, items, |items|);
            && Holds(entries', Log(info'))
            && Contents(entries', Log(info')) == Contents(entries, Log(info)) + items
            && (forall q :: q in Log(info) ==> q in entries' && entries'[q] == entries[q])
            && (items != [] ==>
                  LastId(entries', Log(info')) == Some(MessageId(ps[|items| - 1], items[|items| - 1].partition)))
  {
    NewPositions(info, info', ps);
    PutAllLookup(entries, ps, items, |items|);
    ContentsAppend(entries, PutAll(entries, ps, items, |items|), Log(info), ps, items);
  }

  lemma {:induction false} AppendSome(l: Ledger, items: seq<Message>, ps: seq<Pos>)
    requires LedgerInv(l) && items != [] && |ps| == |items| &&
             Assign(Start(l), l.max, items, |items|).cur.entries < l.max
    requires Continues(Start(l), Assign(Start(l), l.max, items, |items|), ps)
    ensures LedgerInv(Append(l, items)) && Log(Append(l, items).info) == Log(l.info) + ps
    ensures Contents(Append(l, items).entries, Log(Append(l, items).info)) == Contents(l.entries, Log(l.info)) + items
  {
    var d := Assign(Start(l), l.max, items, |items|);
    assert d.positions == ps;
    CommitExact(l.entries, l.info, d.info, ps, items);
    AppendInv(l, d, items);
  }

  /** A successful batch appends exactly its messages to the flat log, at the positions it returns. */
  lemma {:induction false} AppendExact(l: Ledger, items: seq<Message>) returns (ps: seq<Pos>)
    requires LedgerInv(l)
    ensures LedgerInv(Append(l, items)) && |ps| == |items|
    ensures Log(Append(l, items).info) == Log(l.info) + ps
    ensures ps == Assign(Start(l), l.max, items, |items|).positions
    ensures Contents(Append(l, items).entries, Log(Append(l, items).info)) ==
              Contents(l.entries, Log(l.info)) + items
  {
    ps := AssignExact(Start(l), l.max, items, |items|);
    assert [] + ps == ps;
    if items == [] {
      assert Log(l.info) + ps == Log(l.info);
      assert Contents(l.entries, Log(l.info)) + items == Contents(l.entries, Log(l.info));
    } else {
      AppendSome(l, items, ps);
    }
  }

  lemma {:induction false} AppendInv(l: Ledger, d: Draft, items: seq<Message>)
    requires LedgerInv(l) && items != [] && d == Assign(Start(l), l.max, items, |items|)
    requires Ready(d) && d.cur.entries < l.max && |d.positions| == |items|
    requires var entries := PutAll(l.entries, d.positions, items, |items|);
             && Holds(entries, Log(d.info))
             && LastId(entries, Log(d.info)) ==
                Some(MessageId(d.positions[|items| - 1], items[|items| - 1].partition))
    ensures LedgerInv(Append(l, items))
    ensures Append(l, items).info == d.info
    ensures Append(l, items).entries == PutAll(l.entries, d.positions, items, |items|)
  {
  }

  /** A failed batch changes nothing but the id allocator, by at most the ids it needed. */
  lemma {:induction false} AppendFailedExact(l: Ledger, items: seq<Message>, ids: nat)
    requires LedgerInv(l)
    ensures LedgerInv(AppendFailed(l, items, ids))
    ensures AppendFailed(l, items, ids) == l.(nextId := AppendFailed(l, items, ids).nextId)
    ensures l.nextId <= AppendFailed(l, items, ids).nextId <= Assign(Start(l), l.max, items, |items|).nextId
  {
  }

  // ---------------------------------------------------------------- reopening

  lemma {:induction false} LastWithEntriesExact(info: Info, n: nat)
    requires n <= |info|
    ensures match LastWithEntries(info, n)
            case None => Log(info[..n]) == []
            case Some(k) => var log := Log(info[..n]);
                            log != [] && log[|log| - 1] == Pos(info[k].id, info[k].entries - 1)
    decreases n
  {
    if n > 0 {
      assert info[..n][..n - 1] == info[..n - 1];
      if info[n - 1].entries == 0 {
        assert Entries(info[n - 1]) == [];
        LastWithEntriesExact(info, n - 1);
      }
    }
  }

  /** What a database must hold for reopening to make sense: every state a batch can leave behind. */
  ghost predicate DurableOk(entries: map<Pos, Message>, durable: Option<Info>, nextId: nat) {
    durable.Some? ==> && WellFormed(durable.value) && (forall l :: l in durable.value ==> l.id < nextId)
                      && Holds(entries, Log(durable.value))
  }

  lemma {:induction false} ReloadExact(durable: Option<Info>, nextId: nat)
    requires durable.Some? ==> WellFormed(durable.value) && forall l :: l in durable.value ==> l.id < nextId
    ensures var (i, n) := Reload(durable, nextId); var last := i[|i| - 1];
            && Consistent(i, Runtime(last.id, last.entries, last.size), n)
            && Log(i) == if durable.None? then [] else Log(durable.value)
  {
    if durable.None? || durable.value == [] {
      var i := Reload(durable, nextId).0;
      assert i[..0] == [] && Entries(i[0]) == [] && Log(i) == [];
    }
  }

  lemma {:induction false} LacExact(info: Info, entries: map<Pos, Message>)
    requires Holds(entries, Log(info))
    ensures LacFrom(info, entries) == LastId(entries, Log(info))
  {
    LastWithEntriesExact(info, |info|);
    assert info[..|info|] == info;
  }

  /** Opening any durable state, with any ledger size, yields the same log of messages and the last
      confirmed position, partition included, of that log. */
  lemma {:induction false} OpenExact(entries: map<Pos, Message>, durable: Option<Info>, nextId: nat, max: nat)
    requires DurableOk(entries, durable, nextId) && 1 <= max < U64_LIMIT
    ensures var l := Open(entries, durable, nextId, max);
            LedgerInv(l) && l.entries == entries && Log(l.info) == if durable.None? then [] else Log(durable.value)
  {
    ReloadExact(durable, nextId);
    var (i, n) := Reload(durable, nextId);
    var last := i[|i| - 1];
    RollIfFullExact(Draft(i, Runtime(last.id, last.entries, last.size), n, []), max);
    LacExact(OpenInfo(durable, nextId, max).info, entries);
  }

  lemma ReopenKeepsEverything(l: Ledger, max: nat)
    requires LedgerInv(l) && 1 <= max < U64_LIMIT
    ensures var r := Open(l.entries, Some(l.durable), l.nextId, max);
            LedgerInv(r) && r.entries == l.entries && Log(r.info) == Log(l.info) && r.lac == l.lac
  {
    OpenExact(l.entries, Some(l.durable), l.nextId, max);
  }

  // ---------------------------------------------------------------- whole runs

  /** Batches that succeed or fail, restarts with any ledger size, and ids taken by other topics. */
  datatype Op = Batch(items: seq<Message>, failed: Option<nat>) | Reopen(max: nat) | Foreign(ids: nat)

  predicate Next(l: Ledger, op: Op, r: Ledger) {
    match op
    case Batch(items, failed) =>
      l.info != [] && r == if failed.None? then Append(l, items) else AppendFailed(l, items, failed.value)
    case Reopen(max) => 1 <= max < U64_LIMIT && r == Open(l.entries, Some(l.durable), l.nextId, max)
    case Foreign(ids) => r == l.(nextId := l.nextId + ids)
  }

  /** Whatever a step does, the ledgers grow only at their end. */
  lemma {:induction false} StepAppends(l: Ledger, op: Op, r: Ledger)
    requires LedgerInv(l) && Next(l, op, r)
    ensures Appends(l.info, r.info)
  {
    match op
    case Batch(items, failed) => if failed.None? { BatchAppends(l, items); }
    case Reopen(max) => ReopenAppends(l, max);
    case Foreign(_) =>
  }

  lemma BatchAppends(l: Ledger, items: seq<Message>)
    requires LedgerInv(l)
    ensures Appends(l.info, Append(l, items).info)
  {
    AssignAppends(Start(l), l.max, items, |items|);
  }

  lemma ReopenAppends(l: Ledger, max: nat)
    requires LedgerInv(l) && 1 <= max < U64_LIMIT
    ensures Appends(l.info, Open(l.entries, Some(l.durable), l.nextId, max).info)
  {
    var last := l.durable[|l.durable| - 1];
    RollIfFullAppends(Draft(l.durable, Runtime(last.id, last.entries, last.size), l.nextId, []), max);
  }

  predicate StepAt(states: seq<Ledger>, ops: seq<Op>, i: nat)
    requires |states| == |ops| + 1 && i < |ops|
  {
    Next(states[i], ops[i], states[i + 1])
  }

  ghost predicate IsRun(states: seq<Ledger>, ops: seq<Op>) {
    |states| == |ops| + 1 && forall i: nat :: i < |ops| ==> StepAt(states, ops, i)
  }

  /** The positions one step returns to its callers. */
  function Returned(l: Ledger, op: Op): seq<Pos> {
    match op
    case Batch(items, failed) =>
      if failed.None? && l.info != [] then Assign(Start(l), l.max, items, |items|).positions else []
    case Reopen(_) => []
    case Foreign(_) => []
  }

  function Accepted(op: Op): seq<Message> {
    if op.Batch? && op.failed.None? then op.items else []
  }

  function AllReturned(states: seq<Ledger>, ops: seq<Op>, n: nat): seq<Pos>
    requires n <= |ops| && n <= |states|
  {
    if n == 0 then [] else AllReturned(states, ops, n - 1) + Returned(states[n - 1], ops[n - 1])
  }

  function AllAccepted(ops: seq<Op>, n: nat): seq<Message>
    requires n <= |ops|
  {
    if n == 0 then [] else AllAccepted(ops, n - 1) + Accepted(ops[n - 1])
  }

  /** `r` continues `l`: same history, then these positions holding these messages. */
  ghost predicate Extended(l: Ledger, r: Ledger, ps: seq<Pos>, items: seq<Message>) {
    && LedgerInv(l) && LedgerInv(r) && Log(r.info) == Log(l.info) + ps
    && Contents(r.entries, Log(r.info)) == Contents(l.entries, Log(l.info)) + items
  }

  lemma {:induction false} StepExtends(l: Ledger, op: Op, r: Ledger)
    requires LedgerInv(l) && Next(l, op, r)
    ensures Extended(l, r, Returned(l, op), Accepted(op))
  {
    match op
    case Batch(items, failed) =>
      if failed.None? { var ps := AppendExact(l, items); } else { AppendFailedExact(l, items, failed.value); }
    case Reopen(max) => ReopenKeepsEverything(l, max);
    case Foreign(ids) =>
  }

  lemma {:induction false} ExtendedAgain(l: Ledger, m: Ledger, r: Ledger, ps: seq<Pos>, items: seq<Message>,
                                         qs: seq<Pos>, more: seq<Message>)
    requires Extended(l, m, ps, items) && Extended(m, r, qs, more)
    ensures Extended(l, r, ps + qs, items + more)
  {
    assert Log(l.info) + ps + qs == Log(l.info) + (ps + qs);
    assert Contents(l.entries, Log(l.info)) + items + more == Contents(l.entries, Log(l.info)) + (items + more);
  }

  lemma {:induction false} ExtendedByNothing(l: Ledger)
    requires LedgerInv(l)
    ensures Extended(l, l, [], [])
  {
    assert Log(l.info) + [] == Log(l.info);
    assert Contents(l.entries, Log(l.info)) + [] == Contents(l.entries, Log(l.info));
  }

  lemma {:induction false} ExtendedByStep(l: Ledger, m: Ledger, op: Op, r: Ledger, ps: seq<Pos>, items: seq<Message>)
    requires Extended(l, m, ps, items) && Next(m, op, r)
    ensures Extended(l, r, ps + Returned(m, op), items + Accepted(op))
  {
    StepExtends(m, op, r);
    ExtendedAgain(l, m, r, ps, items, Returned(m, op), Accepted(op));
  }

  /** What a step adds to before holds after it, so it holds of a whole run. */
  lemma {:induction false} RunInduct(states: seq<Ledger>, ops: seq<Op>, n: nat,
                                     holds: (Ledger, seq<Pos>, seq<Message>) -> bool)
    requires IsRun(states, ops) && n <= |ops| && holds(states[0], [], [])
    requires forall m, op, r, ps, items | holds(m, ps, items) && Next(m, op, r) ::
               holds(r, ps + Returned(m, op), items + Accepted(op))
    ensures holds(states[n], AllReturned(states, ops, n), AllAccepted(ops, n))
    decreases n
  {
    if n > 0 {
      RunInduct(states, ops, n - 1, holds);
      assert StepAt(states, ops, n - 1);
    }
  }

  lemma RunExtends(states: seq<Ledger>, ops: seq<Op>, n: nat)
    requires IsRun(states, ops) && n <= |ops| && LedgerInv(states[0])
    ensures Extended(states[0], states[n], AllReturned(states, ops, n), AllAccepted(ops, n))
  {
    var holds := (m: Ledger, ps: seq<Pos>, items: seq<Message>) => Extended(states[0], m, ps, items);
    ExtendedByNothing(states[0]);
    forall m, op, r, ps, items | holds(m, ps, items) && Next(m, op, r)
      ensures holds(r, ps + Returned(m, op), items + Accepted(op))
    {
      ExtendedByStep(states[0], m, op, r, ps, items);
    }
    RunInduct(states, ops, n, holds);
  }

  /** Over any run from a fresh database, the segmented ledger is one flat append-only log: the
      positions ever returned, in order, are the log; they strictly increase; and it holds exactly
      the messages of the batches that succeeded. */
  lemma {:induction false} LedgerRefinesFlatLog(max: nat, states: seq<Ledger>, ops: seq<Op>)
    requires 1 <= max < U64_LIMIT && IsRun(states, ops) && states[0] == Open(map[], None, 0, max)
    ensures var final := states[|ops|];
            && LedgerInv(final) && Log(final.info) == AllReturned(states, ops, |ops|)
            && Contents(final.entries, Log(final.info)) == AllAccepted(ops, |ops|)
    ensures forall i, j :: 0 <= i < j < |AllReturned(states, ops, |ops|)| ==>
              AllReturned(states, ops, |ops|)[i].Lt(AllReturned(states, ops, |ops|)[j])
  {
    OpenExact(map[], None, 0, max);
    RunExtends(states, ops, |ops|);
    var final := states[|ops|];
    assert Contents(states[0].entries, Log(states[0].info)) == [];
    forall i, j | 0 <= i < j < |Log(final.info)| ensures Log(final.info)[i].Lt(Log(final.info)[j]) {
      LogAscending(final.info, i, j);
    }
  }

  // ---------------------------------------------------------------- the mutable ledger

  class ManagedLedger {
    const max: nat
    var entries: map<Pos, Message>
    var durable: Info
    var nextId: nat
    var info: Info
    var lac: Option<MessageId>
    var cur: Runtime

    ghost function State(): Ledger
      reads this
    {
      Ledger(max, entries, durable, nextId, info, lac, cur)
    }

    constructor (entries: map<Pos, Message>, durable: Option<Info>, nextId: nat, max: nat)
      ensures State() == Open(entries, durable, nextId, max)
    {
      var d := OpenInfo(durable, nextId, max);
      this.max := max;
      this.entries := entries;
      this.durable := d.info;
      this.nextId := d.nextId;
      this.info := d.info;
      this.lac := LacFrom(d.info, entries);
      this.cur := d.cur;
    }

    /** Rolls over unless that needs a ledger id and none can be allocated. */
    method RollWhenFull(d: Draft, ids: nat) returns (r: Option<Draft>)
      requires d.nextId == nextId
      modifies this`nextId
      ensures r.None? <==> d.cur.entries >= max && ids == 0
      ensures nextId == if r.None? then old(nextId) else r.value.nextId
      ensures r.Some? ==> r.value == RollIfFull(d, max)
    {
      if d.cur.entries < max {
        return Some(d);
      }
      if ids == 0 {
        return None;
      }
      r := Some(d.(info := d.info + [LedgerInfo(nextId, 0, 0)], cur := Runtime(nextId, 0, 0), nextId := nextId + 1));
      nextId := nextId + 1;
    }

    /** One item of a batch: roll over before it or behind it as the ledger fills. */
    method AssignItem(d: Draft, m: Message, ids: nat) returns (r: Option<Draft>)
      requires d.info != [] && d.nextId == nextId
      modifies this`nextId
      ensures r.Some? ==> r.value == AssignOne(d, max, m) && nextId == r.value.nextId
      ensures old(nextId) <= nextId <= old(nextId) + ids
      ensures r.None? ==> nextId == old(nextId) + ids < AssignOne(d, max, m).nextId
    {
      var first := nextId;
      var rolled := RollWhenFull(d, ids);
      if rolled.None? {
        return None;
      }
      var taken := Take(rolled.value, m);
      r := RollWhenFull(taken, first + ids - nextId);
    }

    /** Positions for the whole batch, rolling ledgers over as they fill; `ids` allocations succeed. */
    method AssignBatch(items: seq<Message>, ids: nat) returns (r: Option<Draft>)
      requires info != []
      modifies this`nextId
      ensures r.Some? <==> Needed(old(State()), items) <= ids
      ensures r.Some? ==> r.value == Assign(Start(old(State())), max, items, |items|)
      ensures nextId == old(nextId) + Lesser(ids, Needed(old(State()), items))
    {
      ghost var start := Start(State());
      var first := nextId;
      var d := Draft(info, cur, nextId, []);
      var i := 0;
      while i < |items|
        invariant i <= |items| && d == Assign(start, max, items, i) && nextId == d.nextId
        invariant first <= nextId <= first + ids
      {
        var next := AssignItem(d, items[i], first + ids - nextId);
        if next.None? {
          AssignMonotone(start, max, items, i + 1, |items|);
          return None;
        }
        d := next.value;
        i := i + 1;
      }
      return Some(d);
    }

    /** The entries and the metadata go to the database, then the metadata and the last confirmed position out. */
    method Publish(items: seq<Message>, d: Draft)
      requires |d.positions| == |items| > 0 && nextId == d.nextId
      modifies this
      ensures State() == Ledger(max, PutAll(old(entries), d.positions, items, |items|), d.info, d.nextId, d.info,
                                Some(MessageId(d.positions[|items| - 1], items[|items| - 1].partition)), d.cur)
    {
      entries := PutAll(entries, d.positions, items, |items|);
      durable := d.info;
      info := d.info;
      cur := d.cur;
      lac := Some(MessageId(d.positions[|items| - 1], items[|items| - 1].partition));
    }

    /** `add_entries`: assign positions, write, then publish metadata and last confirmed position. `ids` allocations
        of a ledger id succeed; `written` is whether the entry log and database writes do. */
    method AddEntries(items: seq<Message>, ids: nat, written: bool) returns (positions: Option<seq<Pos>>)
      requires info != []
      modifies this
      ensures positions.Some? <==> items == [] || (Needed(old(State()), items) <= ids && written)
      ensures positions.Some? ==> positions.value == Assign(Start(old(State())), max, items, |items|).positions
      ensures State() == if positions.Some? then Append(old(State()), items) else AppendFailed(old(State()), items, ids)
    {
      if items == [] {
        return Some([]);
      }
      var draft := AssignBatch(items, ids);
      if draft.None? || !written {
        return None;
      }
      Publish(items, draft.value);
      return Some(draft.value.positions);
    }
  }
}
