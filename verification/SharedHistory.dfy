/**
 What a Shared run remembers: redelivery counts are the number of earlier attempts, and between
 seeks reading only moves forward, so every message is read at most once.
 */
module SharedHistory {
  import opened Base
  import opened RoundRobin
  import opened SharedDispatch
  import opened SharedRuns

  // ---------------------------------------------------------------- attempts

  /** The message an iteration tries to send, whether or not the connection takes it. */
  function Attempt(st: Store, h: Hub): Option<nat> {
    match Pick(Slots(h), h.rr)
    case None => None
    case Some(i) =>
      if |h.consumers[h.order[i]].pending| >= MAX_UNACKED_PER_CONSUMER then None
      else if h.queue != map[] && Least(h.queue.Keys) in st.acked then None
      else Candidate(st, h)
  }

  function TriesOf(tries: map<nat, nat>, m: nat): nat {
    if m in tries then tries[m] else 0
  }

  /** Attempts per message since it was last read from the log. */
  function Tried(tries: map<nat, nat>, st: Store, h: Hub): map<nat, nat> {
    match Attempt(st, h)
    case None => tries
    case Some(m) => tries[m := if h.queue != map[] then TriesOf(tries, m) + 1 else 1]
  }

  ghost predicate PendingRight(pending: map<nat, nat>, tries: map<nat, nat>) {
    forall m :: m in pending ==> pending[m] + 1 == TriesOf(tries, m)
  }

  ghost predicate QueueRight(queue: map<nat, nat>, tries: map<nat, nat>) {
    forall m :: m in queue ==> queue[m] == TriesOf(tries, m)
  }

  /** A pending message has been tried once more than its count says, a queued one exactly as often. */
  ghost predicate CountsRight(h: Hub, tries: map<nat, nat>) {
    QueueRight(h.queue, tries) && forall c :: c in h.consumers ==> PendingRight(h.consumers[c].pending, tries)
  }

  lemma OthersRight(consumers: map<nat, Consumer>, m: nat, n: nat, tries: map<nat, nat>)
    requires !Owned(consumers, m) && forall c :: c in consumers ==> PendingRight(consumers[c].pending, tries)
    ensures forall c :: c in consumers ==>
            PendingRight(consumers[c].pending, tries[m := n]) && m !in consumers[c].pending
  {
    forall c | c in consumers ensures PendingRight(consumers[c].pending, tries[m := n]) && m !in consumers[c].pending {
      assert m in consumers[c].pending ==> Owned(consumers, m);
      assert PendingRight(consumers[c].pending, tries);
    }
  }

  lemma DeliverCounts(h: Hub, c: nat, m: nat, count: nat, n: nat, tries: map<nat, nat>)
    requires c in h.consumers && CountsRight(h, tries) && m !in h.queue && !Owned(h.consumers, m)
    ensures CountsRight(Deliver(h, c, m, count, n), tries[m := count + 1])
  {
    OthersRight(h.consumers, m, count + 1, tries);
  }

  lemma QueueCounts(h: Hub, m: nat, count: nat, tries: map<nat, nat>)
    requires CountsRight(h, tries) && !Owned(h.consumers, m)
    ensures CountsRight(h.(queue := h.queue[m := count]), tries[m := count])
  {
    OthersRight(h.consumers, m, count, tries);
  }

  lemma RedeliverCounts(st: Store, h: Hub, c: nat, ok: bool, tries: map<nat, nat>)
    requires c in h.consumers && h.queue != map[] && CountsRight(h, tries)
    requires Least(h.queue.Keys) < |st.log| && !Owned(h.consumers, Least(h.queue.Keys))
    ensures var m := Least(h.queue.Keys);
            CountsRight(Redeliver(st, h, c, ok).hub, if m in st.acked then tries else tries[m := TriesOf(tries, m) + 1])
  {
    var m := Least(h.queue.Keys);
    if m !in st.acked {
      if ok {
        DeliverCounts(h.(queue := h.queue - {m}), c, m, h.queue[m], st.log[m].messages, tries);
      } else {
        QueueCounts(h, m, h.queue[m] + 1, tries);
      }
    }
  }

  lemma SendFreshCounts(st: Store, h: Hub, c: nat, ok: bool, tries: map<nat, nat>)
    requires c in h.consumers && h.queue == map[] && CountsRight(h, tries)
    ensures CountsRight(SendFresh(st, h, c, ok).hub,
                        match Candidate(st, h) case None => tries case Some(m) => tries[m := 1])
  {
    var m := Candidate(st, h);
    if m.Some? {
      var at := h.(read := Some(m.value));
      if ok {
        DeliverCounts(at, c, m.value, 0, st.log[m.value].messages, tries);
      } else {
        QueueCounts(at, m.value, 1, tries);
      }
    }
  }

  lemma LeastIsFree(st: Store, h: Hub)
    requires Inv(st, h) && h.queue != map[]
    ensures Least(h.queue.Keys) < |st.log| && !Owned(h.consumers, Least(h.queue.Keys))
  {
    assert Least(h.queue.Keys) in h.queue;
  }

  lemma IterateCounts(st: Store, h: Hub, ok: bool, tries: map<nat, nat>)
    requires CountsRight(h, tries)
    requires h.queue != map[] ==> Least(h.queue.Keys) < |st.log| && !Owned(h.consumers, Least(h.queue.Keys))
    ensures CountsRight(Iterate(st, h, ok).hub, Tried(tries, st, h))
  {
    var p := Pick(Slots(h), h.rr);
    if p.Some? {
      var next := h.(rr := After(Slots(h), p.value));
      var c := h.order[p.value];
      if h.queue != map[] { RedeliverCounts(st, next, c, ok, tries); } else { SendFreshCounts(st, next, c, ok, tries); }
    }
  }

  // ---------------------------------------------------------------- attempts over runs

  function BatchTried(tries: map<nat, nat>, st: Store, h: Hub, i: nat, n: nat, sends: seq<bool>): map<nat, nat>
    decreases n - i
  {
    if i >= n then tries
    else
      var t, now := Iterate(st, h, Taken(sends, i)), Tried(tries, st, h);
      if t.go then BatchTried(now, st, t.hub, i + 1, n, sends) else now
  }

  lemma {:induction false} BatchCounts(st: Store, h: Hub, k: nat, i: nat, n: nat, sends: seq<bool>,
                                       tries: map<nat, nat>)
    requires Inv(st, h) && CountsRight(h, tries)
    ensures CountsRight(Batch(st, h, k, i, n, sends).0, BatchTried(tries, st, h, i, n, sends))
    decreases n - i
  {
    if i < n {
      var t := Iterate(st, h, Taken(sends, i));
      if h.queue != map[] { LeastIsFree(st, h); }
      IterateCounts(st, h, Taken(sends, i), tries);
      if t.go {
        IterateKeepsInv(st, h, Taken(sends, i));
        BatchCounts(st, t.hub, if t.sent then k + 1 else k, i + 1, n, sends, Tried(tries, st, h));
      }
    }
  }

  lemma RequeuedCounts(queue: map<nat, nat>, pending: map<nat, nat>, ids: set<nat>, tries: map<nat, nat>)
    requires ids <= pending.Keys && QueueRight(queue, tries) && PendingRight(pending, tries)
    requires forall m :: m in ids ==> m !in queue
    ensures QueueRight(Requeued(queue, pending, ids), tries)
  {
  }

  lemma OwnedNotQueued(h: Hub, c: nat)
    requires SingleOwner(h) && c in h.consumers
    ensures forall m :: m in h.consumers[c].pending ==> m !in h.queue
  {
    forall m | m in h.consumers[c].pending ensures m !in h.queue { assert Owned(h.consumers, m); }
  }

  lemma LeftCounts(h: Hub, c: nat, tries: map<nat, nat>)
    requires SingleOwner(h) && CountsRight(h, tries)
    ensures CountsRight(Left(h, c), tries)
  {
    if c in h.consumers {
      OwnedNotQueued(h, c);
      RequeuedCounts(h.queue, h.consumers[c].pending, h.consumers[c].pending.Keys, tries);
    }
  }

  lemma NackedCounts(st: Store, h: Hub, c: nat, ids: set<nat>, tries: map<nat, nat>)
    requires SingleOwner(h) && CountsRight(h, tries)
    ensures CountsRight(Nacked(st, h, c, ids), tries)
  {
    if c in h.consumers {
      OwnedNotQueued(h, c);
      var pending := h.consumers[c].pending;
      RequeuedCounts(h.queue, pending, ids * pending.Keys - st.acked, tries);
    }
  }

  lemma AckedCounts(st: Store, h: Hub, ids: set<nat>, tries: map<nat, nat>)
    requires CountsRight(h, tries)
    ensures CountsRight(Acked(st, h, ids), tries)
  {
    var gone := OwnedAmong(h.consumers, ids);
    forall c | c in h.consumers ensures PendingRight(DropAll(h.consumers, gone)[c].pending, tries) {
      assert PendingRight(h.consumers[c].pending, tries);
    }
  }

  lemma SoughtCounts(st: Store, h: Hub, to: nat, kept: set<nat>, tries: map<nat, nat>)
    requires CountsRight(h, tries)
    ensures CountsRight(Sought(st, h, to, kept), tries)
  {
  }

  /** Attempts after one more event. */
  function TriesAfter(tries: map<nat, nat>, s: System, e: Event): map<nat, nat> {
    if e.Pass? then BatchTried(tries, s.st, s.hub, 0, BatchSize(s.hub.total), e.sends) else tries
  }

  function Tries(st: Store, events: seq<Event>): map<nat, nat> {
    if events == [] then map[]
    else
      var n := |events| - 1;
      TriesAfter(Tries(st, events[..n]), Run(Init(st), events[..n]), events[n])
  }

  lemma NextCounts(s: System, e: Event, tries: map<nat, nat>)
    requires Inv(s.st, s.hub) && CountsRight(s.hub, tries)
    ensures CountsRight(Next(s, e).hub, TriesAfter(tries, s, e))
  {
    match e
    case Publish(_) =>
    case Join(c, priority) =>
    case Flow(c, n) =>
    case Pass(sends) => BatchCounts(s.st, s.hub, 0, 0, BatchSize(s.hub.total), sends, tries);
    case Ack(ids) => AckedCounts(s.st, s.hub, ids, tries);
    case Nack(c, ids) => NackedCounts(s.st, s.hub, c, ids, tries);
    case Leave(c) => LeftCounts(s.hub, c, tries);
    case Seek(to, kept) => SoughtCounts(s.st, s.hub, to, kept, tries);
  }

  /** In every reachable state a redelivery count is the number of earlier attempts to deliver that message
      since it was last read from the log. */
  lemma {:induction false} CountsAreAttempts(st: Store, events: seq<Event>)
    ensures CountsRight(Run(Init(st), events).hub, Tries(st, events))
  {
    if events != [] {
      var n := |events| - 1;
      CountsAreAttempts(st, events[..n]);
      InitInv(st);
      RunKeepsInv(Init(st), events[..n]);
      NextCounts(Run(Init(st), events[..n]), events[n], Tries(st, events[..n]));
    }
  }

  // ---------------------------------------------------------------- reading moves forward

  /** The index reading has reached; an unset read position stands for the first unacknowledged message. */
  function ReadIndex(st: Store, h: Hub): nat {
    if h.read.Some? then h.read.value else SkipAcked(st, 0)
  }

  lemma IterateReadsOn(st: Store, h: Hub, ok: bool)
    requires Stored(st, h)
    ensures ReadIndex(st, h) <= ReadIndex(st, Iterate(st, h, ok).hub)
  {
  }

  lemma {:induction false} BatchReadsOn(st: Store, h: Hub, k: nat, i: nat, n: nat, sends: seq<bool>)
    requires Inv(st, h)
    ensures ReadIndex(st, h) <= ReadIndex(st, Batch(st, h, k, i, n, sends).0)
    decreases n - i
  {
    if i < n {
      var t := Iterate(st, h, Taken(sends, i));
      IterateReadsOn(st, h, Taken(sends, i));
      IterateKeepsInv(st, h, Taken(sends, i));
      if t.go { BatchReadsOn(st, t.hub, if t.sent then k + 1 else k, i + 1, n, sends); }
    }
  }

  lemma {:induction false} SkipMore(st: Store, more: Store, r: nat)
    requires st.acked <= more.acked && |st.log| <= |more.log|
    ensures SkipAcked(st, r) <= SkipAcked(more, r)
    decreases |st.log| - r
  {
    if r < |st.log| && r in st.acked { SkipMore(st, more, r + 1); }
  }

  lemma AckedReadsOn(st: Store, h: Hub, ids: set<nat>)
    requires Stored(st, h)
    ensures ReadIndex(st, h) <= ReadIndex(AckedStore(st, h, ids), Acked(st, h, ids))
  {
    SkipMore(st, AckedStore(st, h, ids), 0);
  }

  lemma {:induction false} NextReadsOn(s: System, e: Event)
    requires Inv(s.st, s.hub) && !e.Seek?
    ensures ReadIndex(s.st, s.hub) <= ReadIndex(Next(s, e).st, Next(s, e).hub)
  {
    match e
    case Publish(entry) => SkipMore(s.st, Next(s, e).st, 0);
    case Join(c, priority) =>
    case Flow(c, n) =>
    case Pass(sends) => BatchReadsOn(s.st, s.hub, 0, 0, BatchSize(s.hub.total), sends);
    case Ack(ids) => AckedReadsOn(s.st, s.hub, ids);
    case Nack(c, ids) =>
    case Leave(c) =>
  }

  /** Between seeks reading never moves back. */
  lemma {:induction false} ReadingMovesForward(s: System, events: seq<Event>)
    requires SystemInv(s) && forall i :: 0 <= i < |events| ==> !events[i].Seek?
    ensures ReadIndex(s.st, s.hub) <= ReadIndex(Run(s, events).st, Run(s, events).hub)
  {
    if events != [] {
      var n := |events| - 1;
      ReadingMovesForward(s, events[..n]);
      RunKeepsInv(s, events[..n]);
      NextReadsOn(Run(s, events[..n]), events[n]);
    }
  }

  /** A message sent fresh lies at or after the reached index, and reading then stands right behind it. */
  lemma FreshMovesPast(st: Store, h: Hub, ok: bool)
    requires h.queue == map[] && Iterate(st, h, ok).sent
    ensures Candidate(st, h).Some? && ReadIndex(st, h) <= Candidate(st, h).value
    ensures ReadIndex(st, Iterate(st, h, ok).hub) == Candidate(st, h).value + 1
  {
  }

  // ---------------------------------------------------------------- seeks and acks place the read position

  /** After a seek reading restarts exactly at the target, with nothing queued and exactly the messages before
      it acknowledged. */
  lemma SoughtExact(st: Store, h: Hub, to: nat, kept: set<nat>)
    requires to <= |st.log|
    ensures var g, after := Sought(st, h, to, kept), SoughtStore(st, to);
            && g.read == (if to < |st.log| then Some(to) else None) && g.queue == map[]
            && forall m: nat :: m < |st.log| ==> (m in after.acked <==> m < to)
  {
    var after := SoughtStore(st, to);
    var m := SkipAcked(after, 0);
    assert (m < to ==> m in after.acked) && (to < m ==> to in after.acked);
  }

  /** After an ack reading has caught up with the first unacknowledged message and no queued message is acknowledged. */
  lemma AckedCatchesUp(st: Store, h: Hub, ids: set<nat>)
    requires OwnedAmong(h.consumers, ids) != {}
    ensures var g, after := Acked(st, h, ids), AckedStore(st, h, ids);
            && (g.read.Some? ==> FirstUnacked(after).Some? && FirstUnacked(after).value <= g.read.value)
            && (forall m :: m in g.queue <==> m in h.queue && m !in after.acked)
            && (forall m :: m in after.acked <==> m in st.acked || (m in ids && Owned(h.consumers, m)))
  {
  }
}
