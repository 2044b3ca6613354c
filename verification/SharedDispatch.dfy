/**
 The Shared dispatcher: unread tail, redelivery queue and per-consumer pending acks.

 Messages are named by their index in the topic's log, so the read position is the index of the
 first entry not yet read. A store keeps each entry's client-visible message count and the set of
 acknowledged messages.
 */
module SharedDispatch {
  import opened Base
  import opened RoundRobin

  const MAX_ROUND_ROBIN_BATCH := 20
  const MAX_UNACKED_PER_CONSUMER := 50_000

  /** `pending` maps each delivered, unacknowledged message to its redelivery count. */
  datatype Consumer = Consumer(priority: int, permits: int, pending: map<nat, nat>)

  /** A stored entry carries a batch of client-visible messages under one sticky key. */
  datatype LogEntry = LogEntry(messages: nat, hash: int)

  datatype Store = Store(log: seq<LogEntry>, acked: set<nat>)

  /** `queue` maps each message awaiting redelivery to its redelivery count. */
  datatype Hub = Hub(consumers: map<nat, Consumer>, order: seq<nat>, rr: nat, total: int,
                     read: Option<nat>, queue: map<nat, nat>)

  // ---------------------------------------------------------------- helpers

  function SlotOf(consumers: map<nat, Consumer>, c: nat): Slot {
    if c in consumers then Slot(c, consumers[c].priority, consumers[c].permits) else Slot(c, 0, 0)
  }

  function Slots(h: Hub): (s: seq<Slot>)
    ensures |s| == |h.order|
  {
    seq(|h.order|, i requires 0 <= i < |h.order| => SlotOf(h.consumers, h.order[i]))
  }

  lemma {:induction false} LeastExists(keys: set<nat>, lo: nat, hi: nat)
    requires lo <= hi && hi in keys && forall y :: y in keys ==> lo <= y
    ensures exists x :: x in keys && forall y :: y in keys ==> x <= y
    decreases hi - lo
  {
    if lo !in keys { LeastExists(keys, lo + 1, hi); }
  }

  function Least(keys: set<nat>): (x: nat)
    requires keys != {}
    ensures x in keys && forall y :: y in keys ==> x <= y
  {
    assert exists x :: x in keys && forall y :: y in keys ==> x <= y by {
      var hi :| hi in keys;
      LeastExists(keys, 0, hi);
    }
    var x :| x in keys && forall y :: y in keys ==> x <= y;
    x
  }

  predicate Owned(consumers: map<nat, Consumer>, m: nat) {
    exists c :: c in consumers && m in consumers[c].pending
  }

  /** The first unacknowledged index at or after `r`, or the end of the log. */
  function SkipAcked(st: Store, r: nat): (m: nat)
    ensures m == r || r < m <= |st.log|
    ensures forall k :: r <= k < m ==> k in st.acked
    ensures m < |st.log| ==> m !in st.acked
    decreases |st.log| - r
  {
    if r < |st.log| && r in st.acked then SkipAcked(st, r + 1) else r
  }

  function FirstUnacked(st: Store): Option<nat> {
    var m := SkipAcked(st, 0);
    if m < |st.log| then Some(m) else None
  }

  /** The first index at or after `r` that is neither acknowledged nor pending, or the end of the log. */
  function SkipBusy(st: Store, consumers: map<nat, Consumer>, r: nat): (m: nat)
    ensures m == r || r < m <= |st.log|
    ensures forall k :: r <= k < m ==> k in st.acked || Owned(consumers, k)
    ensures m < |st.log| ==> m !in st.acked && !Owned(consumers, m)
    decreases |st.log| - r
  {
    if r < |st.log| && (r in st.acked || Owned(consumers, r)) then SkipBusy(st, consumers, r + 1) else r
  }

  // ---------------------------------------------------------------- one dispatch pass

  /** `sent` counts towards the pass; without `go` the pass stops here. */
  datatype Turn = Turn(hub: Hub, sent: bool, go: bool)

  /** The chosen consumer pays `n` permits and now owns `m`. */
  function Deliver(h: Hub, c: nat, m: nat, count: nat, n: nat): Hub
    requires c in h.consumers
  {
    var k := h.consumers[c];
    h.(consumers := h.consumers[c := Consumer(k.priority, k.permits - n, k.pending[m := count])], total := h.total - n)
  }

  function Redeliver(st: Store, h: Hub, c: nat, ok: bool): Turn
    requires c in h.consumers && h.queue != map[]
  {
    var m := Least(h.queue.Keys);
    var count := h.queue[m];
    var popped := h.(queue := h.queue - {m});
    if m in st.acked || m >= |st.log| then Turn(popped, false, true)
    else if ok then Turn(Deliver(popped, c, m, count, st.log[m].messages), true, true)
    else Turn(h.(queue := h.queue[m := count + 1]), false, false)
  }

  /** Where reading starts: an unset read position stands for the first unacknowledged message. */
  function ReadFrom(st: Store, read: Option<nat>): Option<nat> {
    if read.Some? then read else FirstUnacked(st)
  }

  function SendFresh(st: Store, h: Hub, c: nat, ok: bool): Turn
    requires c in h.consumers
  {
    match ReadFrom(st, h.read)
    case None => Turn(h, false, false)
    case Some(r) =>
      var m := SkipBusy(st, h.consumers, r);
      var at := h.(read := Some(m));
      if m < |st.log| then SendRead(st, at, c, m, ok) else Turn(at, false, false)
  }

  function SendRead(st: Store, h: Hub, c: nat, m: nat, ok: bool): Turn
    requires c in h.consumers && m < |st.log|
  {
    if ok then Turn(Deliver(h, c, m, 0, st.log[m].messages).(read := Some(m + 1)), true, true)
    else Turn(h.(queue := h.queue[m := 1], read := Some(m + 1)), false, false)
  }

  /** One iteration of the batch loop; `ok` is whether the connection takes the message. */
  function Iterate(st: Store, h: Hub, ok: bool): Turn {
    match Pick(Slots(h), h.rr)
    case None => Turn(h, false, false)
    case Some(i) =>
      var c := h.order[i];
      var next := h.(rr := After(Slots(h), i));
      if |h.consumers[c].pending| >= MAX_UNACKED_PER_CONSUMER then Turn(next, false, false)
      else if h.queue != map[] then Redeliver(st, next, c, ok)
      else SendFresh(st, next, c, ok)
  }

  predicate Taken(sends: seq<bool>, i: nat) {
    i < |sends| && sends[i]
  }

  /** Iterations `i..n` of a pass that has sent `k` messages so far. */
  function Batch(st: Store, h: Hub, k: nat, i: nat, n: nat, sends: seq<bool>): (Hub, nat)
    decreases n - i
  {
    if i >= n then (h, k)
    else
      var t := Iterate(st, h, Taken(sends, i));
      if t.go then Batch(st, t.hub, if t.sent then k + 1 else k, i + 1, n, sends) else (t.hub, k)
  }

  function BatchSize(total: int): nat {
    if total <= 0 then 0 else if total < MAX_ROUND_ROBIN_BATCH then total else MAX_ROUND_ROBIN_BATCH
  }

  function Dispatch(st: Store, h: Hub, sends: seq<bool>): (Hub, nat) {
    Batch(st, h, 0, 0, BatchSize(h.total), sends)
  }

  // ---------------------------------------------------------------- the other steps

  function Joined(h: Hub, c: nat, priority: int): Hub {
    if c in h.consumers then h
    else
      var i := InsertAt(Slots(h), priority);
      h.(consumers := h.consumers[c := Consumer(priority, 0, map[])], order := Inserted(h.order, i, c))
  }

  function Flowed(h: Hub, c: nat, n: nat): Hub {
    if c !in h.consumers then h
    else
      var k := h.consumers[c];
      h.(consumers := h.consumers[c := k.(permits := k.permits + n)], total := h.total + n)
  }

  function Max(a: int, b: int): int {
    if a < b then b else a
  }

  /** Queue the messages of `ids`, each with one more redelivery than its owner recorded. */
  function Requeued(queue: map<nat, nat>, pending: map<nat, nat>, ids: set<nat>): map<nat, nat>
    requires ids <= pending.Keys
  {
    map m | m in queue.Keys + ids ::
      if m !in ids then queue[m]
      else if m in queue && queue[m] > pending[m] + 1 then queue[m]
      else pending[m] + 1
  }

  /** Disconnect: the leaver's permits and place go, its pending messages are queued. */
  function Left(h: Hub, c: nat): Hub {
    if c !in h.consumers then h
    else
      var k := h.consumers[c];
      var i := IndexIn(h.order, c);
      var g := h.(consumers := h.consumers - {c}, total := h.total - Max(k.permits, 0),
                  queue := Requeued(h.queue, k.pending, k.pending.Keys));
      if i < |h.order| then g.(order := Removed(h.order, i), rr := Shifted(|h.order|, i, h.rr)) else g
  }

  function IndexIn(order: seq<nat>, c: nat): (i: nat)
    ensures i <= |order| && (i < |order| ==> order[i] == c) && c !in order[..i]
  {
    if order == [] || order[0] == c then 0 else 1 + IndexIn(order[1..], c)
  }

  /** A consumer hands back some of its pending messages; acknowledged ones are just dropped. */
  function Nacked(st: Store, h: Hub, c: nat, ids: set<nat>): Hub {
    if c !in h.consumers then h
    else
      var k := h.consumers[c];
      var back := ids * k.pending.Keys;
      h.(consumers := h.consumers[c := k.(pending := k.pending - back)],
         queue := Requeued(h.queue, k.pending, back - st.acked))
  }

  function DropAll(consumers: map<nat, Consumer>, ids: set<nat>): map<nat, Consumer> {
    map c | c in consumers :: consumers[c].(pending := consumers[c].pending - ids)
  }

  function ReadAfterAck(st: Store, read: Option<nat>): Option<nat> {
    match (read, FirstUnacked(st))
    case (Some(r), Some(f)) => if r < f then Some(f) else read
    case (Some(_), None) => None
    case (None, _) => None
  }

  function OwnedAmong(consumers: map<nat, Consumer>, ids: set<nat>): set<nat> {
    set m | m in ids && Owned(consumers, m)
  }

  /** Only pending messages can be acknowledged, whoever owns them. */
  function AckedStore(st: Store, h: Hub, ids: set<nat>): Store {
    st.(acked := st.acked + OwnedAmong(h.consumers, ids))
  }

  function Acked(st: Store, h: Hub, ids: set<nat>): Hub {
    var owned := OwnedAmong(h.consumers, ids);
    if owned == {} then h
    else
      var after := AckedStore(st, h, ids);
      h.(consumers := DropAll(h.consumers, owned), queue := h.queue - after.acked,
         read := ReadAfterAck(after, h.read))
  }

  function Below(n: nat): (s: set<nat>)
    ensures forall m: nat :: m in s <==> m < n
  {
    if n == 0 then {} else Below(n - 1) + {n - 1}
  }

  function SoughtStore(st: Store, to: nat): Store {
    st.(acked := Below(if to < |st.log| then to else |st.log|))
  }

  function Drained(consumers: map<nat, Consumer>, kept: set<nat>): map<nat, Consumer> {
    map c | c in consumers :: if c in kept then consumers[c] else consumers[c].(pending := map[])
  }

  /** Seek clears the queue and the pending acks of every consumer outside `kept`. */
  function Sought(st: Store, h: Hub, to: nat, kept: set<nat>): Hub {
    h.(consumers := Drained(h.consumers, kept), queue := map[], read := FirstUnacked(SoughtStore(st, to)))
  }

  // ---------------------------------------------------------------- invariants

  /** No message has two owners, and none is both owned and queued. */
  ghost predicate SingleOwner(h: Hub) {
    && (forall c, d, m | c in h.consumers && d in h.consumers && m in h.consumers[c].pending ::
          m in h.consumers[d].pending ==> c == d)
    && forall m :: m in h.queue ==> !Owned(h.consumers, m)
  }

  /** Whatever is owned or queued is stored, and reading has not passed the end. */
  ghost predicate Stored(st: Store, h: Hub) {
    && (forall c, m :: c in h.consumers && m in h.consumers[c].pending ==> m < |st.log|)
    && (forall m :: m in h.queue ==> m < |st.log|)
    && (h.read.Some? ==> h.read.value <= |st.log|)
  }

  /** Everything before the read position is acknowledged, owned or queued. */
  ghost predicate Covered(st: Store, h: Hub) {
    h.read.Some? ==> forall m: nat :: m < h.read.value ==> m in st.acked || m in h.queue || Owned(h.consumers, m)
  }

  ghost predicate Inv(st: Store, h: Hub) {
    SingleOwner(h) && Stored(st, h) && Covered(st, h)
  }

  /** Every stored unacknowledged message is still to be read, owned by a consumer, or queued. */
  ghost predicate NoLoss(st: Store, h: Hub) {
    forall m: nat :: m < |st.log| && m !in st.acked ==>
      || (ReadFrom(st, h.read).Some? && m >= ReadFrom(st, h.read).value)
      || m in h.queue
      || Owned(h.consumers, m)
  }

  lemma CoveredIsNoLoss(st: Store, h: Hub)
    requires Covered(st, h)
    ensures NoLoss(st, h)
  {
  }

  /** Owned messages after one consumer's pending set changes. */
  ghost predicate Transferred(h: Hub, g: Hub, c: nat, gained: set<nat>, lost: set<nat>) {
    && c in h.consumers && g.consumers.Keys == h.consumers.Keys
    && (forall d :: d in h.consumers && d != c ==> g.consumers[d].pending == h.consumers[d].pending)
    && g.consumers[c].pending.Keys == h.consumers[c].pending.Keys + gained - lost
  }

  lemma TransferOwned(h: Hub, g: Hub, c: nat, gained: set<nat>, lost: set<nat>, m: nat)
    requires Transferred(h, g, c, gained, lost) && SingleOwner(h) && lost <= h.consumers[c].pending.Keys
    ensures Owned(g.consumers, m) <==> (Owned(h.consumers, m) || m in gained) && m !in lost
  {
    if d :| d in g.consumers && m in g.consumers[d].pending {
      if d != c {
        assert m in h.consumers[d].pending;
      } else if m in h.consumers[c].pending {
        assert Owned(h.consumers, m);
      }
    }
    if (Owned(h.consumers, m) || m in gained) && m !in lost {
      if d :| d in h.consumers && m in h.consumers[d].pending {
        assert m in g.consumers[d].pending;
      } else {
        assert m in g.consumers[c].pending;
      }
    }
  }

  // ---------------------------------------------------------------- dispatch keeps them

  lemma DeliverOwner(h: Hub, c: nat, m: nat, count: nat, n: nat)
    requires c in h.consumers && SingleOwner(h) && !Owned(h.consumers, m) && m !in h.queue
    ensures SingleOwner(Deliver(h, c, m, count, n))
    ensures forall x :: Owned(Deliver(h, c, m, count, n).consumers, x) <==> Owned(h.consumers, x) || x == m
  {
    var g := Deliver(h, c, m, count, n);
    forall x ensures Owned(g.consumers, x) <==> Owned(h.consumers, x) || x == m {
      TransferOwned(h, g, c, {m}, {}, x);
    }
    DeliverSingle(h, c, m, count, n);
  }

  lemma DeliverSingle(h: Hub, c: nat, m: nat, count: nat, n: nat)
    requires c in h.consumers && !Owned(h.consumers, m)
    requires forall a, b, x | a in h.consumers && b in h.consumers && x in h.consumers[a].pending ::
               x in h.consumers[b].pending ==> a == b
    ensures var g := Deliver(h, c, m, count, n);
            forall a, b, x | a in g.consumers && b in g.consumers && x in g.consumers[a].pending ::
              x in g.consumers[b].pending ==> a == b
  {
    forall d | d in h.consumers ensures m !in h.consumers[d].pending {
      assert m in h.consumers[d].pending ==> Owned(h.consumers, m);
    }
  }

  lemma DeliverKeepsInv(st: Store, h: Hub, c: nat, m: nat, count: nat)
    requires c in h.consumers && Inv(st, h) && m < |st.log| && !Owned(h.consumers, m) && m !in h.queue
    ensures Inv(st, Deliver(h, c, m, count, st.log[m].messages))
    ensures Owned(Deliver(h, c, m, count, st.log[m].messages).consumers, m)
  {
    DeliverOwner(h, c, m, count, st.log[m].messages);
  }

  lemma QueueKeepsInv(st: Store, h: Hub, m: nat, count: nat)
    requires Inv(st, h) && m < |st.log| && !Owned(h.consumers, m)
    ensures Inv(st, h.(queue := h.queue[m := count]))
  {
  }

  /** Moving the queued `m` to a consumer. */
  lemma MoveKeepsInv(st: Store, h: Hub, c: nat, m: nat, count: nat)
    requires c in h.consumers && m in h.queue && Inv(st, h)
    ensures Inv(st, Deliver(h.(queue := h.queue - {m}), c, m, count, st.log[m].messages))
  {
    DeliverOwner(h.(queue := h.queue - {m}), c, m, count, st.log[m].messages);
  }

  lemma UnqueueKeepsInv(st: Store, h: Hub, m: nat)
    requires m in st.acked && Inv(st, h)
    ensures Inv(st, h.(queue := h.queue - {m}))
  {
  }

  lemma RedeliverKeepsInv(st: Store, h: Hub, c: nat, ok: bool)
    requires c in h.consumers && h.queue != map[] && Inv(st, h)
    ensures Inv(st, Redeliver(st, h, c, ok).hub)
  {
    var m := Least(h.queue.Keys);
    if m in st.acked {
      UnqueueKeepsInv(st, h, m);
    } else if ok {
      MoveKeepsInv(st, h, c, m, h.queue[m]);
    } else {
      QueueKeepsInv(st, h, m, h.queue[m] + 1);
    }
  }

  lemma ReadFromCovered(st: Store, h: Hub)
    requires Inv(st, h) && ReadFrom(st, h.read).Some?
    ensures Inv(st, h.(read := ReadFrom(st, h.read)))
  {
  }

  lemma SkipBusyCovered(st: Store, h: Hub, r: nat)
    requires Inv(st, h) && h.read == Some(r)
    ensures Inv(st, h.(read := Some(SkipBusy(st, h.consumers, r))))
  {
  }

  /** `m` has an owner or a place in the queue, so reading may pass it. */
  lemma ReadPast(st: Store, h: Hub, m: nat)
    requires Inv(st, h) && h.read == Some(m) && m < |st.log| && (m in h.queue || Owned(h.consumers, m))
    ensures Inv(st, h.(read := Some(m + 1)))
  {
  }

  lemma SendReadKeepsInv(st: Store, h: Hub, c: nat, m: nat, ok: bool)
    requires c in h.consumers && h.queue == map[] && Inv(st, h) && h.read == Some(m)
    requires m < |st.log| && !Owned(h.consumers, m)
    ensures Inv(st, SendRead(st, h, c, m, ok).hub)
  {
    if ok {
      DeliverKeepsInv(st, h, c, m, 0);
      ReadPast(st, Deliver(h, c, m, 0, st.log[m].messages), m);
    } else {
      QueueKeepsInv(st, h, m, 1);
      ReadPast(st, h.(queue := h.queue[m := 1]), m);
    }
  }

  lemma SendFreshKeepsInv(st: Store, h: Hub, c: nat, ok: bool)
    requires c in h.consumers && h.queue == map[] && Inv(st, h)
    ensures Inv(st, SendFresh(st, h, c, ok).hub)
  {
    var from := ReadFrom(st, h.read);
    if from.Some? {
      var m := SkipBusy(st, h.consumers, from.value);
      ReadFromCovered(st, h);
      SkipBusyCovered(st, h.(read := from), from.value);
      if m < |st.log| {
        SendReadKeepsInv(st, h.(read := Some(m)), c, m, ok);
      }
    }
  }

  lemma IterateKeepsInv(st: Store, h: Hub, ok: bool)
    requires Inv(st, h)
    ensures Inv(st, Iterate(st, h, ok).hub)
  {
    var p := Pick(Slots(h), h.rr);
    if p.Some? {
      var c := h.order[p.value];
      var next := h.(rr := After(Slots(h), p.value));
      if h.queue != map[] { RedeliverKeepsInv(st, next, c, ok); } else { SendFreshKeepsInv(st, next, c, ok); }
    }
  }

  lemma {:induction false} BatchKeepsInv(st: Store, h: Hub, k: nat, i: nat, n: nat, sends: seq<bool>)
    requires Inv(st, h)
    ensures Inv(st, Batch(st, h, k, i, n, sends).0)
    decreases n - i
  {
    if i < n {
      var t := Iterate(st, h, Taken(sends, i));
      IterateKeepsInv(st, h, Taken(sends, i));
      BatchKeepsInv(st, t.hub, if t.sent then k + 1 else k, i + 1, n, sends);
    }
  }

  // ---------------------------------------------------------------- the other steps keep them

  ghost predicate SamePending(h: Hub, g: Hub) {
    && g.queue == h.queue && g.read == h.read && h.consumers.Keys <= g.consumers.Keys
    && (forall c :: c in h.consumers ==> g.consumers[c].pending == h.consumers[c].pending)
    && forall c :: c in g.consumers && c !in h.consumers ==> g.consumers[c].pending == map[]
  }

  lemma SamePendingKeepsInv(st: Store, h: Hub, g: Hub)
    requires Inv(st, h) && SamePending(h, g)
    ensures Inv(st, g)
  {
    forall m ensures Owned(g.consumers, m) <==> Owned(h.consumers, m) {
      if c :| c in g.consumers && m in g.consumers[c].pending {
        assert c in h.consumers && m in h.consumers[c].pending;
      }
      if c :| c in h.consumers && m in h.consumers[c].pending {
        assert c in g.consumers && m in g.consumers[c].pending;
      }
    }
  }

  /** Redelivery counts do not matter for safety. */
  lemma CountsKeepInv(st: Store, h: Hub, queue: map<nat, nat>)
    requires Inv(st, h) && queue.Keys == h.queue.Keys
    ensures Inv(st, h.(queue := queue))
  {
    forall m ensures m in queue <==> m in h.queue {
      assert m in queue <==> m in queue.Keys;
    }
  }

  lemma PublishKeepsInv(st: Store, h: Hub, e: LogEntry)
    requires Inv(st, h)
    ensures Inv(st.(log := st.log + [e]), h)
  {
  }

  lemma LeftOwned(h: Hub, c: nat, m: nat)
    requires c in h.consumers && SingleOwner(h)
    ensures Owned(h.consumers - {c}, m) <==> Owned(h.consumers, m) && m !in h.consumers[c].pending
  {
    if d :| d in h.consumers - {c} && m in (h.consumers - {c})[d].pending {
      assert d in h.consumers && m in h.consumers[d].pending;
    }
    if m !in h.consumers[c].pending {
      if d :| d in h.consumers && m in h.consumers[d].pending {
        assert d in h.consumers - {c} && m in (h.consumers - {c})[d].pending;
      }
    }
  }

  lemma LeftKeepsInv(st: Store, h: Hub, c: nat)
    requires Inv(st, h)
    ensures Inv(st, Left(h, c))
  {
    if c in h.consumers {
      forall m ensures Owned(h.consumers - {c}, m) <==> Owned(h.consumers, m) && m !in h.consumers[c].pending {
        LeftOwned(h, c, m);
      }
    }
  }

  lemma NackedKeepsInv(st: Store, h: Hub, c: nat, ids: set<nat>)
    requires Inv(st, h)
    ensures Inv(st, Nacked(st, h, c, ids))
  {
    if c in h.consumers {
      var g := Nacked(st, h, c, ids);
      var back := ids * h.consumers[c].pending.Keys;
      forall m ensures Owned(g.consumers, m) <==> Owned(h.consumers, m) && m !in back {
        TransferOwned(h, g, c, {}, back, m);
      }
    }
  }

  lemma DropAllOwned(consumers: map<nat, Consumer>, ids: set<nat>, m: nat)
    ensures Owned(DropAll(consumers, ids), m) <==> Owned(consumers, m) && m !in ids
  {
    var after := DropAll(consumers, ids);
    if c :| c in after && m in after[c].pending {
      assert c in consumers && m in consumers[c].pending;
    }
    if m !in ids {
      if c :| c in consumers && m in consumers[c].pending {
        assert c in after && m in after[c].pending;
      }
    }
  }

  lemma ReadAfterAckCovered(st: Store, read: Option<nat>, m: nat)
    requires ReadAfterAck(st, read).Some? && m < ReadAfterAck(st, read).value
    ensures m in st.acked || (read.Some? && m < read.value)
  {
  }

  lemma AckedKeepsInv(st: Store, h: Hub, ids: set<nat>)
    requires Inv(st, h)
    ensures Inv(AckedStore(st, h, ids), Acked(st, h, ids))
  {
    var owned := OwnedAmong(h.consumers, ids);
    var after := AckedStore(st, h, ids);
    var g := Acked(st, h, ids);
    if owned != {} {
      forall m ensures Owned(g.consumers, m) <==> Owned(h.consumers, m) && m !in owned {
        DropAllOwned(h.consumers, owned, m);
      }
      forall m: nat | g.read.Some? && m < g.read.value
        ensures m in after.acked || m in g.queue || Owned(g.consumers, m)
      {
        ReadAfterAckCovered(after, h.read, m);
      }
    }
  }

  lemma SoughtKeepsInv(st: Store, h: Hub, to: nat, kept: set<nat>)
    requires Inv(st, h)
    ensures Inv(SoughtStore(st, to), Sought(st, h, to, kept))
  {
  }
}
