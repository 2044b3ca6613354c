/**
 When the rolled-over ledger starts another ledger, and what it counts.
 */
module LedgerRolls {
  import opened Arithmetic
  import opened Base
  import opened Positions
  import opened LedgerLog
  import opened ManagedLedgers

  // ---------------------------------------------------------------- one batch

  /** The place of entry `t`, counted from the start of the active ledger, when the next ids are `nextId` and up. */
  function PlaceOf(id: nat, nextId: nat, max: nat, t: nat): Pos
    requires max > 0
  {
    Pos(if t / max == 0 then id else nextId + t / max - 1, t % max)
  }

  /** Where the active ledger stands after `n` more entries. */
  ghost predicate Counts(d: Draft, r: Draft, max: nat, n: nat) {
    max > 0 &&
    var t := d.cur.entries + n;
    Pos(r.cur.id, r.cur.entries) == PlaceOf(d.cur.id, d.nextId, max, t) && r.nextId == d.nextId + t / max
  }

  lemma {:induction false} OneCounts(d: Draft, e: Draft, max: nat, n: nat, m: Message)
    requires e.info != [] && Counts(d, e, max, n) && e.cur.entries < max
    ensures Counts(d, AssignOne(e, max, m), max, n + 1) && AssignOne(e, max, m).cur.entries < max
  {
    NextRound(d.cur.entries + n, max);
  }

  /** Every ledger takes exactly `max` entries before the next id is allocated. */
  lemma {:induction false} AssignCounts(d: Draft, max: nat, items: seq<Message>, n: nat)
    requires d.info != [] && d.cur.entries < max && n <= |items|
    ensures var r := Assign(d, max, items, n); Counts(d, r, max, n) && r.cur.entries < max
    decreases n
  {
    if n == 0 {
      QuotientIs(d.cur.entries, max, 0, d.cur.entries);
    } else {
      AssignCounts(d, max, items, n - 1);
      OneCounts(d, Assign(d, max, items, n - 1), max, n - 1, items[n - 1]);
    }
  }

  /** With room in the active ledger a message goes to its end. */
  lemma {:induction false} PositionAt(d: Draft, max: nat, items: seq<Message>, n: nat, k: nat, e: Draft)
    requires d.info != [] && d.cur.entries < max && k < n <= |items|
    requires e == Assign(d, max, items, k) && e.cur.entries < max
    ensures Assign(d, max, items, n).positions[|d.positions| + k] == Pos(e.cur.id, e.cur.entries)
    decreases n
  {
    if k < n - 1 { PositionAt(d, max, items, n - 1, k, e); }
  }

  lemma {:induction false} EndAfter(d: Draft, max: nat, items: seq<Message>, k: nat, place: Pos) returns (e: Draft)
    requires d.info != [] && d.cur.entries < max && k <= |items|
    requires place == PlaceOf(d.cur.id, d.nextId, max, d.cur.entries + k)
    ensures e == Assign(d, max, items, k) && e.cur.entries < max && Pos(e.cur.id, e.cur.entries) == place
  {
    e := Assign(d, max, items, k);
    AssignCounts(d, max, items, k);
  }

  /** The `k`th message of a batch goes to the place this gives it, `k` places after the end of the active ledger. */
  lemma {:induction false} AppendPlaces(l: Ledger, items: seq<Message>, k: nat, p: Pos)
    requires l.info != [] && l.cur.entries < l.max && k < |items|
    requires p == Assign(Start(l), l.max, items, |items|).positions[k]
    ensures p == PlaceOf(l.cur.id, l.nextId, l.max, l.cur.entries + k)
  {
    var place := PlaceOf(l.cur.id, l.nextId, l.max, l.cur.entries + k);
    var e := EndAfter(Start(l), l.max, items, k, place);
    assert p == place by { PositionAt(Start(l), l.max, items, |items|, k, e); }
  }

  /** A batch needs an id for each ledger that it fills up. */
  lemma {:induction false} NeededExact(l: Ledger, items: seq<Message>)
    requires l.info != [] && l.cur.entries < l.max
    ensures Needed(l, items) == (l.cur.entries + |items|) / l.max
  {
    AssignCounts(Start(l), l.max, items, |items|);
  }

  /** A failed batch has used up the ids it got before it failed, and no more than it needed. */
  lemma {:induction false} FailedIds(l: Ledger, items: seq<Message>, ids: nat)
    requires l.info != [] && l.cur.entries < l.max
    ensures var needed := (l.cur.entries + |items|) / l.max;
            AppendFailed(l, items, ids).nextId == l.nextId + if ids < needed then ids else needed
  {
    NeededExact(l, items);
  }

  /** Opening starts a new ledger exactly when there is none or the last one is full. */
  lemma OpenPlaces(entries: map<Pos, Message>, durable: Option<Info>, nextId: nat, max: nat)
    requires max > 0
    ensures var l := Open(entries, durable, nextId, max);
            if durable.Some? && durable.value != [] && durable.value[|durable.value| - 1].entries < max then
              var last := durable.value[|durable.value| - 1];
              l.info == durable.value && l.nextId == nextId && l.cur == Runtime(last.id, last.entries, last.size)
            else
              l.cur == Runtime(nextId, 0, 0) && l.nextId == nextId + 1 &&
              l.info == (if durable.Some? then durable.value else []) + [LedgerInfo(nextId, 0, 0)]
  {
  }

  // ---------------------------------------------------------------- sizes

  function Bytes(info: Info): nat {
    if info == [] then 0 else Bytes(info[..|info| - 1]) + info[|info| - 1].size
  }

  function Sizes(items: seq<Message>, n: nat): nat
    requires n <= |items|
  {
    if n == 0 then 0 else Sizes(items, n - 1) + |items[n - 1].metadata| + |items[n - 1].payload|
  }

  lemma RollBytes(d: Draft, max: nat)
    ensures Bytes(RollIfFull(d, max).info) == Bytes(d.info)
  {
    var r := RollIfFull(d, max);
    if d.cur.entries >= max { assert r.info[..|r.info| - 1] == d.info; }
  }

  lemma TakeBytes(d: Draft, m: Message)
    requires d.info != []
    ensures Bytes(Take(d, m).info) == Bytes(d.info) + |m.metadata| + |m.payload|
  {
    assert Take(d, m).info[..|d.info| - 1] == d.info[..|d.info| - 1];
  }

  /** The sizes kept for the ledgers grow by the metadata and payload bytes of the batch. */
  lemma {:induction false} AssignBytes(d: Draft, max: nat, items: seq<Message>, n: nat)
    requires d.info != [] && n <= |items|
    ensures Bytes(Assign(d, max, items, n).info) == Bytes(d.info) + Sizes(items, n)
    decreases n
  {
    if n > 0 {
      var e := Assign(d, max, items, n - 1);
      AssignBytes(d, max, items, n - 1);
      RollBytes(e, max);
      TakeBytes(RollIfFull(e, max), items[n - 1]);
      RollBytes(Take(RollIfFull(e, max), items[n - 1]), max);
    }
  }
}
