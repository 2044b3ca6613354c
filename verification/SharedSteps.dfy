/**
 What every other step of the Shared dispatcher changes, and what it leaves alone.
 */
module SharedSteps {
  import opened Base
  import opened RoundRobin
  import opened SharedDispatch
  import opened SharedRuns
  import opened SharedHistory

  /** Nobody joined or left, and everyone but `c` is as before; permits and turns are too. */
  ghost predicate OnlyPending(h: Hub, g: Hub, c: nat) {
    && c in h.consumers && g.consumers.Keys == h.consumers.Keys
    && (forall d :: d in h.consumers && d != c ==> g.consumers[d] == h.consumers[d])
    && g.consumers[c].priority == h.consumers[c].priority && g.consumers[c].permits == h.consumers[c].permits
    && g.order == h.order && g.rr == h.rr && g.total == h.total
  }

  /** A nack takes back exactly the named messages that the consumer holds, and queues those of them that are not
      acknowledged. */
  lemma NackedExact(st: Store, h: Hub, c: nat, ids: set<nat>)
    requires c in h.consumers
    ensures var g := Nacked(st, h, c, ids);
            var before, after := h.consumers[c].pending, g.consumers[c].pending;
            && OnlyPending(h, g, c) && g.read == h.read
            && (forall m: nat :: m in after <==> m in before && m !in ids)
            && (forall m: nat :: m in after ==> after[m] == before[m])
            && (forall m: nat :: m in g.queue <==> m in h.queue || (m in ids && m in before && m !in st.acked))
            && (forall m: nat :: m in h.queue && !(m in ids && m in before) ==> g.queue[m] == h.queue[m])
  {
  }

  /** A nack of messages the consumer does not hold, or of an unknown consumer, changes nothing. */
  lemma NackedNothing(st: Store, h: Hub, c: nat, ids: set<nat>)
    requires c in h.consumers ==> forall m: nat :: m in ids ==> m !in h.consumers[c].pending
    ensures Nacked(st, h, c, ids) == h
  {
    if c in h.consumers {
      var k, g := h.consumers[c], Nacked(st, h, c, ids);
      assert ids * k.pending.Keys == {};
      assert g.consumers[c].pending == k.pending && g.queue == h.queue;
      assert g.consumers == h.consumers;
    }
  }

  /** A nacked message is queued and free again, ahead of everything unread: with nothing else queued the lowest one
      is the next to be sent. */
  lemma NackedIsNext(st: Store, h: Hub, c: nat, ids: set<nat>, m: nat)
    requires SingleOwner(h) && c in h.consumers && h.queue == map[]
    requires m in ids && m in h.consumers[c].pending && m !in st.acked
    requires forall x: nat :: x in ids && x in h.consumers[c].pending && x !in st.acked ==> m <= x
    ensures var g := Nacked(st, h, c, ids); !Owned(g.consumers, m) && Candidate(st, g) == Some(m)
  {
    var g := Nacked(st, h, c, ids);
    NackedExact(st, h, c, ids);
    assert m in g.queue.Keys;
    forall d | d in h.consumers ensures m !in g.consumers[d].pending { }
  }

  /** A message handed back that is queued already keeps the larger of the two redelivery counts. */
  lemma RequeuedExact(queue: map<nat, nat>, pending: map<nat, nat>, ids: set<nat>, m: nat)
    requires ids <= pending.Keys && m in ids
    ensures m in Requeued(queue, pending, ids)
    ensures var count := Requeued(queue, pending, ids)[m];
            count == if m in queue then Max(queue[m], pending[m] + 1) else pending[m] + 1
  {
  }

  // ---------------------------------------------------------------- seek

  /** A seek drains exactly the consumers outside `kept`; permits, order and turn stay. */
  lemma SoughtDrains(st: Store, h: Hub, to: nat, kept: set<nat>)
    ensures var g := Sought(st, h, to, kept);
            && g.consumers.Keys == h.consumers.Keys && g.order == h.order && g.rr == h.rr && g.total == h.total
            && (forall c :: c in h.consumers && c in kept ==> g.consumers[c] == h.consumers[c])
            && forall c :: c in h.consumers && c !in kept ==>
                 g.consumers[c] == Consumer(h.consumers[c].priority, h.consumers[c].permits, map[])
  {
  }

  /** After a seek that drains everyone nothing is owned or queued, and the target is the next message to be sent. */
  lemma SeekReplays(st: Store, h: Hub, to: nat)
    requires to < |st.log|
    ensures var g, after := Sought(st, h, to, {}), SoughtStore(st, to);
            && (forall m: nat :: !Owned(g.consumers, m)) && g.queue == map[] && Candidate(after, g) == Some(to)
            && forall m: nat :: m < |st.log| ==> (m in after.acked <==> m < to)
  {
    SoughtDrains(st, h, to, {});
    SoughtExact(st, h, to, {});
    StopsAtFree(SoughtStore(st, to), Sought(st, h, to, {}).consumers, to);
  }

  lemma StopsAtFree(st: Store, consumers: map<nat, Consumer>, m: nat)
    requires m < |st.log| && m !in st.acked && !Owned(consumers, m)
    ensures SkipBusy(st, consumers, m) == m
  {
  }

  // ---------------------------------------------------------------- flow, join and leave

  /** Permits and the aggregate grow by what is granted. */
  lemma FlowedExact(h: Hub, c: nat, n: nat)
    ensures var g := Flowed(h, c, n);
            if c !in h.consumers then g == h
            else
              && g == h.(consumers := g.consumers, total := h.total + n) && g.consumers.Keys == h.consumers.Keys
              && (forall d :: d in h.consumers && d != c ==> g.consumers[d] == h.consumers[d])
              && g.consumers[c].permits == h.consumers[c].permits + n
              && g.consumers[c].priority == h.consumers[c].priority && g.consumers[c].pending == h.consumers[c].pending
  {
  }

  /** Two grants are one grant of their sum. */
  lemma FlowedTwice(h: Hub, c: nat, a: nat, b: nat)
    ensures Flowed(Flowed(h, c, a), c, b) == Flowed(h, c, a + b)
  {
    if c in h.consumers {
      assert Flowed(Flowed(h, c, a), c, b).consumers == Flowed(h, c, a + b).consumers;
    }
  }

  /** A consumer joins without permits or messages, behind everyone of its priority and before every lower one;
      everyone else keeps permits, messages and place in line. */
  lemma JoinedExact(h: Hub, c: nat, priority: int) returns (i: nat)
    requires Ordered(h) && c !in h.consumers
    ensures var g := Joined(h, c, priority);
            && g.consumers == h.consumers[c := Consumer(priority, 0, map[])]
            && g.rr == h.rr && g.total == h.total && g.read == h.read && g.queue == h.queue
            && i <= |h.order| && g.order == h.order[..i] + [c] + h.order[i..]
            && (forall k :: 0 <= k < i ==> h.consumers[h.order[k]].priority <= priority)
            && (forall k :: i <= k < |h.order| ==> h.consumers[h.order[k]].priority > priority)
  {
    i := InsertAt(Slots(h), priority);
    InsertedExact(Slots(h), Slot(c, priority, 0));
    forall k | 0 <= k < |h.order| ensures h.order[k] in h.consumers { assert h.order[k] in h.order; }
    forall k | 0 <= k < |h.order| ensures Slots(h)[k].priority == h.consumers[h.order[k]].priority { }
  }

  /** A leaver's permits go, unless it owes, and its messages are queued; everyone else keeps permits and messages. */
  lemma LeftExact(h: Hub, c: nat)
    requires c in h.consumers
    ensures var g := Left(h, c);
            var permits, pending := h.consumers[c].permits, h.consumers[c].pending;
            && g.consumers == h.consumers - {c} && g.read == h.read
            && g.total == h.total - (if permits > 0 then permits else 0)
            && (forall m: nat :: m in g.queue <==> m in h.queue || m in pending)
            && (forall m: nat :: m in h.queue && m !in pending ==> g.queue[m] == h.queue[m])
  {
  }

  /** Everyone else keeps their place in line. The turn stays with whoever has it, and passes from a leaver to the
      next in line. */
  lemma LeftTurn(h: Hub, c: nat) returns (i: nat)
    requires Ordered(h) && c in h.consumers
    ensures var g := Left(h, c);
            && i < |h.order| && h.order[i] == c && g.order == h.order[..i] + h.order[i + 1..]
            && if |h.order| == 1 then g.rr == 0
               else
                 && g.rr < |g.order|
                 && g.order[g.rr] ==
                      if h.rr != i then h.order[h.rr] else h.order[if i + 1 == |h.order| then 0 else i + 1]
  {
    IndexInExact(h.order, c);
    i := IndexIn(h.order, c);
    if |h.order| > 1 { ShiftedExact(|h.order|, i, h.rr); }
  }

  // ---------------------------------------------------------------- acknowledgement

  /** An acknowledgement takes exactly the named messages that somebody holds, from everyone who holds them; permits,
      order and turn stay. */
  lemma AckedExact(st: Store, h: Hub, ids: set<nat>)
    ensures var g, after := Acked(st, h, ids), AckedStore(st, h, ids);
            && after.log == st.log
            && (forall m: nat :: m in after.acked <==> m in st.acked || (m in ids && Owned(h.consumers, m)))
            && g.consumers.Keys == h.consumers.Keys && g.order == h.order && g.rr == h.rr && g.total == h.total
            && (forall c :: c in h.consumers ==>
                  g.consumers[c].priority == h.consumers[c].priority &&
                      g.consumers[c].permits == h.consumers[c].permits)
            && (forall c, m: nat :: c in h.consumers ==>
                  (m in g.consumers[c].pending <==> m in h.consumers[c].pending && m !in ids))
            && (forall c, m: nat :: c in h.consumers && m in g.consumers[c].pending ==>
                  g.consumers[c].pending[m] == h.consumers[c].pending[m])
  {
    var g := Acked(st, h, ids);
    forall c, m: nat | c in h.consumers
      ensures m in g.consumers[c].pending <==> m in h.consumers[c].pending && m !in ids
    {
      if m in h.consumers[c].pending && m in ids { assert m in OwnedAmong(h.consumers, ids); }
    }
  }

  /** Reading stays where it is, jumps to the first unacknowledged message when everything up to it is acknowledged,
      and is unset when everything is. */
  lemma AckedRead(st: Store, h: Hub, ids: set<nat>, r: nat)
    requires OwnedAmong(h.consumers, ids) != {} && h.read == Some(r)
    ensures var read, acked := Acked(st, h, ids).read, AckedStore(st, h, ids).acked;
            match read
            case None => forall x: nat :: x < |st.log| ==> x in acked
            case Some(s) =>
              && (exists x: nat :: x < |st.log| && x !in acked)
              && (s == r || (r < s < |st.log| && s !in acked && forall x: nat :: x < s ==> x in acked))
              && (s == r ==> exists x: nat :: x <= r && x < |st.log| && x !in acked)
  {
    var after := AckedStore(st, h, ids);
    var f := SkipAcked(after, 0);
    if f < |st.log| { assert f !in after.acked; }
  }

  // ---------------------------------------------------------------- one iteration

  /** Every iteration that selects a consumer moves the turn on to the one after, whatever becomes of the message. */
  lemma IterateTurns(st: Store, h: Hub, ok: bool)
    ensures var g := Iterate(st, h, ok).hub;
            match Pick(Slots(h), h.rr)
            case None => g == h
            case Some(i) => g.order == h.order && g.rr == if i + 1 == |h.order| then 0 else i + 1
  {
  }
}
