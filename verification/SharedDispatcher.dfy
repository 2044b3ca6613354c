/**
 The Shared dispatcher object: the loops and in-place updates, each tied to its step function.
 */
module SharedDispatchers {
  import opened Base
  import opened RoundRobin
  import opened SharedDispatch
  import opened SharedRuns

  lemma SkipBusyAcked(st: Store, consumers: map<nat, Consumer>, r: nat)
    ensures SkipBusy(st, consumers, r) == SkipBusy(st, consumers, SkipAcked(st, r))
    decreases |st.log| - r
  {
  }

  lemma {:induction false} SkipOne(st: Store, consumers: map<nat, Consumer>, r: nat)
    requires r < |st.log| && r !in st.acked
    ensures SkipBusy(st, consumers, r)
            == if Owned(consumers, r) then SkipBusy(st, consumers, SkipAcked(st, r + 1)) else r
  {
    SkipBusyAcked(st, consumers, r + 1);
  }

  lemma RedeliverKeepsStored(st: Store, h: Hub, c: nat, ok: bool)
    requires c in h.consumers && h.queue != map[] && Stored(st, h)
    ensures Stored(st, Redeliver(st, h, c, ok).hub)
  {
  }

  lemma SendFreshKeepsStored(st: Store, h: Hub, c: nat, ok: bool)
    requires c in h.consumers && Stored(st, h)
    ensures Stored(st, SendFresh(st, h, c, ok).hub)
  {
  }

  lemma IterateKeepsStored(st: Store, h: Hub, ok: bool)
    requires Stored(st, h)
    ensures Stored(st, Iterate(st, h, ok).hub)
  {
    var p := Pick(Slots(h), h.rr);
    if p.Some? {
      var next := h.(rr := After(Slots(h), p.value));
      if h.queue != map[] {
        RedeliverKeepsStored(st, next, h.order[p.value], ok);
      } else {
        SendFreshKeepsStored(st, next, h.order[p.value], ok);
      }
    }
  }

  /** The owned messages among the first `n`. */
  ghost function OwnedUpTo(consumers: map<nat, Consumer>, ids: seq<nat>, n: nat): set<nat>
    requires n <= |ids|
  {
    if n == 0 then {}
    else OwnedUpTo(consumers, ids, n - 1) + if Owned(consumers, ids[n - 1]) then {ids[n - 1]} else {}
  }

  lemma {:induction false} OwnedUpToExact(consumers: map<nat, Consumer>, ids: seq<nat>, n: nat)
    requires n <= |ids|
    ensures OwnedUpTo(consumers, ids, n) == OwnedAmong(consumers, set m | m in ids[..n])
  {
    if n > 0 {
      OwnedUpToExact(consumers, ids, n - 1);
      assert ids[..n] == ids[..n - 1] + [ids[n - 1]];
    }
  }

  lemma DropNothing(consumers: map<nat, Consumer>)
    ensures DropAll(consumers, {}) == consumers
  {
    forall c | c in consumers ensures DropAll(consumers, {})[c] == consumers[c] {
      assert consumers[c].pending - {} == consumers[c].pending;
    }
  }

  /** Taking `m` from its only owner takes it from everyone. */
  lemma DropOne(h: Hub, gone: set<nat>, c: nat, m: nat)
    requires SingleOwner(h) && c in h.consumers && m in h.consumers[c].pending
    ensures var left := DropAll(h.consumers, gone);
            left[c := left[c].(pending := left[c].pending - {m})] == DropAll(h.consumers, gone + {m})
  {
    var left := DropAll(h.consumers, gone);
    var after := DropAll(h.consumers, gone + {m});
    forall d | d in h.consumers
      ensures after[d] == if d == c then left[c].(pending := left[c].pending - {m}) else left[d]
    {
      assert d == c || m !in h.consumers[d].pending;
      assert after[d].pending == if d == c then left[c].pending - {m} else left[d].pending;
    }
  }

  class SharedDispatcher {
    var consumers: map<nat, Consumer>
    var order: seq<nat>
    var rr: nat
    var total: int
    var read: Option<nat>
    var queue: map<nat, nat>

    function View(): Hub
      reads this
    {
      Hub(consumers, order, rr, total, read, queue)
    }

    constructor ()
      ensures View() == Init(Store([], {})).hub
    {
      consumers, order, rr, total, read, queue := map[], [], 0, 0, None, map[];
    }

    method GetNextAvailableConsumer() returns (chosen: Option<nat>)
      requires Ordered(View())
      modifies this`rr
      ensures match Pick(Slots(old(View())), old(rr))
              case None => chosen == None && rr == old(rr)
              case Some(i) => chosen == Some(order[i]) && rr == After(Slots(old(View())), i)
    {
      if order == [] { return None; }
      var slots := Slots(View());
      var index := Choose(slots, rr % |slots|);
      if index.None? { return None; }
      rr := (index.value + 1) % |slots|;
      return Some(order[index.value]);
    }

    method InsertConsumerOrder(c: nat, priority: int)
      modifies this`order
      ensures order == Inserted(old(order), InsertAt(Slots(old(View())), priority), c)
    {
      var slots := Slots(View());
      var i := 0;
      while i < |slots| && slots[i].priority <= priority
        invariant i <= |slots|
        invariant InsertAt(slots, priority) == i + InsertAt(slots[i..], priority)
      {
        assert slots[i..][1..] == slots[i + 1..];
        i := i + 1;
      }
      order := order[..i] + [c] + order[i..];
    }

    method AddConsumer(c: nat, priority: int) returns (added: bool)
      modifies this`consumers, this`order
      ensures added == (c !in old(consumers)) && View() == Joined(old(View()), c, priority)
    {
      if c in consumers { return false; }
      InsertConsumerOrder(c, priority);
      consumers := consumers[c := Consumer(priority, 0, map[])];
      return true;
    }

    /** A Flow command: the consumer's own balance, then the aggregate. */
    method ConsumerFlow(c: nat, n: nat)
      modifies this`consumers, this`total
      ensures View() == Flowed(old(View()), c, n)
    {
      if c !in consumers { return; }
      consumers := consumers[c := consumers[c].(permits := consumers[c].permits + n)];
      total := total + n;
    }

    method RemoveConsumerOrder(c: nat)
      modifies this`order, this`rr
      ensures var i := IndexIn(old(order), c);
              if i < |old(order)| then order == Removed(old(order), i) && rr == Shifted(|old(order)|, i, old(rr))
              else order == old(order) && rr == old(rr)
    {
      var i := 0;
      while i < |order| && order[i] != c
        invariant i <= |order| && IndexIn(order, c) == i + IndexIn(order[i..], c)
      {
        assert order[i..][1..] == order[i + 1..];
        i := i + 1;
      }
      if i < |order| {
        order := order[..i] + order[i + 1..];
        if order == [] {
          rr := 0;
        } else if rr > i {
          rr := rr - 1;
        } else if rr >= |order| {
          rr := rr % |order|;
        }
      }
    }

    /** Queue each message with one more redelivery; a message already queued keeps the larger count. */
    method AddToRedeliveryQueue(pending: map<nat, nat>, ids: set<nat>)
      requires ids <= pending.Keys
      modifies this`queue
      ensures queue == Requeued(old(queue), pending, ids)
    {
      var left := ids;
      while left != {}
        invariant left <= ids && queue == Requeued(old(queue), pending, ids - left)
        decreases left
      {
        var m :| m in left;
        var count := pending[m] + 1;
        queue := queue[m := if m in queue && queue[m] > count then queue[m] else count];
        assert ids - (left - {m}) == (ids - left) + {m};
        left := left - {m};
      }
      assert ids - {} == ids;
    }

    method RemoveConsumerWithRecovery(c: nat)
      modifies this
      ensures View() == Left(old(View()), c)
    {
      if c !in consumers { return; }
      var k := consumers[c];
      consumers := consumers - {c};
      RemoveConsumerOrder(c);
      total := total - Max(k.permits, 0);
      AddToRedeliveryQueue(k.pending, k.pending.Keys);
    }

    method RedeliverUnacknowledged(st: Store, c: nat, ids: set<nat>)
      modifies this`consumers, this`queue
      ensures View() == Nacked(st, old(View()), c, ids)
    {
      if c !in consumers { return; }
      var pending := consumers[c].pending;
      var back := ids * pending.Keys;
      consumers := consumers[c := consumers[c].(pending := pending - back)];
      AddToRedeliveryQueue(pending, back - st.acked);
    }

    /** After the cursor moved: drop acknowledged redeliveries and let reading catch up. */
    method OnAckStateUpdated(st: Store)
      modifies this`queue, this`read
      ensures queue == old(queue) - st.acked && read == ReadAfterAck(st, old(read))
    {
      queue := queue - st.acked;
      var first := FirstUnacked(st);
      if read.Some? && first.Some? && read.value < first.value {
        read := first;
      } else if read.Some? && first.None? {
        read := None;
      }
    }

    method ResolveOwner(m: nat) returns (owner: Option<nat>)
      requires Lists(order, consumers.Keys)
      ensures match owner
              case Some(c) => c in consumers && m in consumers[c].pending
              case None => !Owned(consumers, m)
    {
      var i := 0;
      while i < |order|
        invariant i <= |order| && forall k :: 0 <= k < i ==> m !in consumers[order[k]].pending
      {
        assert order[i] in order;
        if m in consumers[order[i]].pending { return Some(order[i]); }
        i := i + 1;
      }
      return None;
    }

    /** Take a message from its owner, if it has one; `gone` was already taken from the owners `before`. */
    method TakePending(m: nat, ghost before: Hub, ghost gone: set<nat>) returns (taken: bool)
      requires SingleOwner(before) && Lists(order, before.consumers.Keys) &&
               consumers == DropAll(before.consumers, gone)
      modifies this`consumers
      ensures taken == (Owned(before.consumers, m) && m !in gone)
      ensures consumers == DropAll(before.consumers, if taken then gone + {m} else gone)
    {
      DropAllOwned(before.consumers, gone, m);
      var owner := ResolveOwner(m);
      if owner.None? { return false; }
      var c := owner.value;
      DropOne(before, gone, c, m);
      consumers := consumers[c := consumers[c].(pending := consumers[c].pending - {m})];
      return true;
    }

    /** Take each message from its owner; messages nobody owns are ignored. */
    method TakeOwned(ids: seq<nat>) returns (tracked: set<nat>)
      requires Lists(order, consumers.Keys) && SingleOwner(View())
      modifies this`consumers
      ensures tracked == OwnedUpTo(old(consumers), ids, |ids|) && consumers == DropAll(old(consumers), tracked)
    {
      ghost var before := View();
      tracked := {};
      DropNothing(consumers);
      var i := 0;
      while i < |ids|
        invariant i <= |ids| && tracked == OwnedUpTo(before.consumers, ids, i)
        invariant consumers == DropAll(before.consumers, tracked)
      {
        var taken := TakePending(ids[i], before, tracked);
        assert !taken && Owned(before.consumers, ids[i]) ==> tracked + {ids[i]} == tracked;
        if taken { tracked := tracked + {ids[i]}; }
        i := i + 1;
      }
    }

    /** Whoever asks, exactly the owned messages among `ids` become acknowledged. */
    method MessageAcked(st: Store, ids: seq<nat>) returns (after: Store)
      requires Lists(order, consumers.Keys) && SingleOwner(View())
      modifies this`consumers, this`queue, this`read
      ensures var all := set m | m in ids;
              after == AckedStore(st, old(View()), all) && View() == Acked(st, old(View()), all)
    {
      ghost var before := consumers;
      var tracked := TakeOwned(ids);
      OwnedUpToExact(before, ids, |ids|);
      assert ids[..|ids|] == ids;
      after := st.(acked := st.acked + tracked);
      if tracked != {} {
        OnAckStateUpdated(after);
      } else {
        DropNothing(before);
      }
    }

    method ResetAfterSeek(position: Option<nat>)
      modifies this`read, this`queue
      ensures read == position && queue == map[]
    {
      read := position;
      queue := map[];
    }

    /** Seek: move the cursor, restart reading there, drop the queue and drain every consumer. */
    method SeekTo(st: Store, to: nat) returns (after: Store)
      requires Lists(order, consumers.Keys)
      modifies this`consumers, this`queue, this`read
      ensures after == SoughtStore(st, to) && View() == Sought(st, old(View()), to, {})
    {
      after := SoughtStore(st, to);
      ResetAfterSeek(FirstUnacked(after));
      var i := 0;
      while i < |order|
        invariant i <= |order| && consumers.Keys == old(consumers).Keys && queue == map[] && read == FirstUnacked(after)
        invariant forall c :: c in consumers ==>
                    consumers[c] == if c in order[..i] then old(consumers)[c].(pending := map[]) else old(consumers)[c]
      {
        assert order[i] in order && order[..i + 1] == order[..i] + [order[i]];
        consumers := consumers[order[i] := consumers[order[i]].(pending := map[])];
        i := i + 1;
      }
      assert order[..i] == order;
      assert consumers == Drained(old(consumers), {});
    }

    /** The next unacknowledged message at the read position, which moves past acknowledged ones. */
    method NextUnackedCandidate(st: Store) returns (m: Option<nat>)
      requires read.Some? ==> read.value <= |st.log|
      modifies this`read
      ensures match ReadFrom(st, old(read))
              case None => m == None && read == None
              case Some(r) =>
                read == Some(SkipAcked(st, r)) && m == if SkipAcked(st, r) < |st.log| then read else None
    {
      if read.None? {
        read := FirstUnacked(st);
        if read.None? { return None; }
      }
      ghost var r := read.value;
      while read.value < |st.log| && read.value in st.acked
        invariant read.Some? && SkipAcked(st, r) == SkipAcked(st, read.value)
        decreases |st.log| - read.value
      {
        read := Some(read.value + 1);
      }
      return if read.value < |st.log| then read else None;
    }

    method IsMessagePending(m: nat) returns (pending: bool)
      requires Lists(order, consumers.Keys)
      ensures pending == Owned(consumers, m)
    {
      var i := 0;
      while i < |order|
        invariant i <= |order| && forall k :: 0 <= k < i ==> m !in consumers[order[k]].pending
      {
        assert order[i] in order;
        if m in consumers[order[i]].pending { return true; }
        i := i + 1;
      }
      return false;
    }

    /** The next unread message that is neither acknowledged nor pending on anyone. */
    method GetNextDispatchable(st: Store) returns (m: Option<nat>)
      requires Lists(order, consumers.Keys) && (read.Some? ==> read.value <= |st.log|)
      modifies this`read
      ensures match ReadFrom(st, old(read))
              case None => m == None && read == None
              case Some(r) =>
                var busy := SkipBusy(st, consumers, r);
                read == Some(busy) && m == if busy < |st.log| then read else None
    {
      m := NextUnackedCandidate(st);
      if read.None? { return; }
      ghost var r := ReadFrom(st, old(read)).value;
      SkipBusyAcked(st, consumers, r);
      m := PassPending(st, m, SkipBusy(st, consumers, r));
    }

    /** Move on from an unacknowledged message while someone owns it. */
    method PassPending(st: Store, first: Option<nat>, ghost target: nat) returns (m: Option<nat>)
      requires Lists(order, consumers.Keys) && read.Some? && read.value <= |st.log|
      requires SkipBusy(st, consumers, read.value) == target && first == if read.value < |st.log| then read else None
      requires first.Some? ==> first.value !in st.acked
      modifies this`read
      ensures read == Some(target) && m == if target < |st.log| then read else None
    {
      ghost var owners := consumers;
      m := first;
      while m.Some?
        invariant read.Some? && read.value <= |st.log| && SkipBusy(st, owners, read.value) == target
        invariant m == if read.value < |st.log| then read else None
        invariant m.Some? ==> m.value !in st.acked
        decreases |st.log| - read.value
      {
        SkipOne(st, owners, m.value);
        var pending := IsMessagePending(m.value);
        if !pending { return; }
        read := Some(m.value + 1);
        m := NextUnackedCandidate(st);
      }
    }

    /** Charge a consumer, then either hand it the message or give the permits back. */
    method SendMessage(c: nat, m: nat, count: nat, n: nat, ok: bool) returns (sent: bool)
      requires c in consumers
      modifies this`consumers, this`total
      ensures sent == ok && View() == if ok then Deliver(old(View()), c, m, count, n) else old(View())
    {
      ghost var before := consumers;
      var k := consumers[c];
      total := total - n;
      if ok {
        consumers := consumers[c := Consumer(k.priority, k.permits - n, k.pending[m := count])];
      } else {
        consumers := consumers[c := k.(permits := k.permits - n)];
        consumers := consumers[c := consumers[c].(permits := consumers[c].permits + n)];
        total := total + n;
        assert consumers == before;
      }
      return ok;
    }

    method SendRedelivery(st: Store, c: nat, ok: bool) returns (sent: bool, go: bool)
      requires c in consumers && queue != map[] && Stored(st, View())
      modifies this`consumers, this`total, this`queue
      ensures Turn(View(), sent, go) == Redeliver(st, old(View()), c, ok)
    {
      var m := Least(queue.Keys);
      var count := queue[m];
      queue := queue - {m};
      if m in st.acked { return false, true; }
      sent := SendMessage(c, m, count, st.log[m].messages, ok);
      if !sent {
        queue := queue[m := count + 1];
        assert queue == old(queue)[m := count + 1];
      }
      go := sent;
    }

    method SendUnread(st: Store, c: nat, ok: bool) returns (sent: bool, go: bool)
      requires c in consumers && queue == map[] && Lists(order, consumers.Keys) && Stored(st, View())
      modifies this`consumers, this`total, this`queue, this`read
      ensures Turn(View(), sent, go) == SendFresh(st, old(View()), c, ok)
    {
      var candidate := GetNextDispatchable(st);
      if candidate.None? { return false, false; }
      var m := candidate.value;
      sent := SendMessage(c, m, 0, st.log[m].messages, ok);
      if !sent {
        queue := queue[m := 1];
      }
      read := Some(m + 1);
      go := sent;
    }

    method SendNext(st: Store, ok: bool) returns (sent: bool, go: bool)
      requires Ordered(View()) && Stored(st, View())
      modifies this
      ensures Turn(View(), sent, go) == Iterate(st, old(View()), ok)
    {
      var chosen := GetNextAvailableConsumer();
      if chosen.None? { return false, false; }
      var c := chosen.value;
      if |consumers[c].pending| >= MAX_UNACKED_PER_CONSUMER { return false, false; }
      if queue != map[] {
        sent, go := SendRedelivery(st, c, ok);
      } else {
        sent, go := SendUnread(st, c, ok);
      }
    }

    /** One pass: at most as many messages as there are permits, and never more than a batch. */
    method DispatchBatch(st: Store, sends: seq<bool>) returns (dispatched: nat)
      requires Ordered(View()) && Stored(st, View())
      modifies this
      ensures (View(), dispatched) == Dispatch(st, old(View()), sends)
    {
      if total <= 0 { return 0; }
      dispatched := SendUpTo(st, sends, if total < MAX_ROUND_ROBIN_BATCH then total else MAX_ROUND_ROBIN_BATCH);
    }

    method SendUpTo(st: Store, sends: seq<bool>, n: nat) returns (dispatched: nat)
      requires Ordered(View()) && Stored(st, View())
      modifies this
      ensures (View(), dispatched) == Batch(st, old(View()), 0, 0, n, sends)
    {
      ghost var result := Batch(st, View(), 0, 0, n, sends);
      dispatched := 0;
      var i := 0;
      while i < n
        invariant i <= n && Ordered(View()) && Stored(st, View())
        invariant result == Batch(st, View(), dispatched, i, n, sends)
      {
        var sent, go := SendOne(st, sends, dispatched, i, n);
        if !go { return; }
        if sent { dispatched := dispatched + 1; }
        i := i + 1;
      }
    }

    /** Iteration `i` of a pass of `n`. */
    method SendOne(st: Store, sends: seq<bool>, ghost k: nat, i: nat, ghost n: nat) returns (sent: bool, go: bool)
      requires Ordered(View()) && Stored(st, View()) && i < n
      modifies this
      ensures Ordered(View()) && Stored(st, View())
      ensures Batch(st, old(View()), k, i, n, sends)
              == if go then Batch(st, View(), if sent then k + 1 else k, i + 1, n, sends) else (View(), k)
    {
      IterateKeepsOrdered(st, View(), Taken(sends, i));
      IterateKeepsStored(st, View(), Taken(sends, i));
      sent, go := SendNext(st, Taken(sends, i));
    }
  }
}
