/**
 When a pass of the Shared dispatcher hands out anything at all.
 */
module SharedProgress {
  import opened Base
  import opened RoundRobin
  import opened SharedDispatch
  import opened SharedRuns

  // ---------------------------------------------------------------- one pass

  ghost predicate QueueClean(st: Store, h: Hub) {
    forall m :: m in h.queue ==> m !in st.acked
  }

  /** Selection finds a consumer, that consumer has room, and there is a message to send. */
  predicate Serves(st: Store, h: Hub) {
    match Pick(Slots(h), h.rr)
    case None => false
    case Some(i) => |h.consumers[h.order[i]].pending| < MAX_UNACKED_PER_CONSUMER && Candidate(st, h).Some?
  }

  lemma FirstIteration(st: Store, h: Hub, ok: bool)
    requires Stored(st, h) && QueueClean(st, h)
    ensures Iterate(st, h, ok).sent <==> Serves(st, h) && ok
    ensures !Iterate(st, h, ok).sent ==> !Iterate(st, h, ok).go
  {
  }

  lemma {:induction false} CountGrows(st: Store, h: Hub, k: nat, i: nat, n: nat, sends: seq<bool>)
    ensures Batch(st, h, k, i, n, sends).1 >= k
    decreases n - i
  {
    if i < n {
      var t := Iterate(st, h, Taken(sends, i));
      if t.go { CountGrows(st, t.hub, if t.sent then k + 1 else k, i + 1, n, sends); }
    }
  }

  /** A pass hands out a message exactly when the aggregate is positive, selection finds a consumer with permits and
      room, a message is queued or unread, and the first send succeeds. */
  lemma PassProgress(st: Store, h: Hub, sends: seq<bool>)
    requires Stored(st, h) && QueueClean(st, h)
    ensures Dispatch(st, h, sends).1 > 0 <==> h.total > 0 && Serves(st, h) && Taken(sends, 0)
  {
    var ok := Taken(sends, 0);
    var t, n := Iterate(st, h, ok), BatchSize(h.total);
    FirstIteration(st, h, ok);
    if n > 0 && t.sent {
      IterateStops(st, h, ok);
      CountGrows(st, t.hub, 1, 1, n, sends);
    }
  }

  // ---------------------------------------------------------------- every reachable state

  /** Nothing queued or pending is acknowledged. */
  ghost predicate Clean(st: Store, h: Hub) {
    forall m: nat :: m in h.queue || Owned(h.consumers, m) ==> m !in st.acked
  }

  /** Not a seek that leaves a consumer with pending messages. */
  ghost predicate Drains(s: System, e: Event) {
    e.Seek? ==> forall c :: c in e.kept && c in s.hub.consumers ==> s.hub.consumers[c].pending == map[]
  }

  lemma FewerClean(st: Store, h: Hub, g: Hub)
    requires Clean(st, h)
    requires forall m: nat :: m in g.queue || Owned(g.consumers, m) ==>
             m in h.queue || Owned(h.consumers, m) || m !in st.acked
    ensures Clean(st, g)
  {
  }

  lemma IterateClean(st: Store, h: Hub, ok: bool)
    requires Inv(st, h) && Ordered(h) && Clean(st, h)
    ensures Clean(st, Iterate(st, h, ok).hub)
  {
    if Iterate(st, h, ok).sent {
      IterateSends(st, h, ok);
    } else {
      IterateSkips(st, h, ok);
    }
  }

  /** What every iteration keeps a pass keeps. */
  lemma {:induction false} BatchKeeps(st: Store, h: Hub, k: nat, i: nat, n: nat, sends: seq<bool>, good: Hub -> bool)
    requires good(h) && forall a, ok | good(a) :: good(Iterate(st, a, ok).hub)
    ensures good(Batch(st, h, k, i, n, sends).0)
    decreases n - i
  {
    if i < n {
      var t := Iterate(st, h, Taken(sends, i));
      if t.go { BatchKeeps(st, t.hub, if t.sent then k + 1 else k, i + 1, n, sends, good); }
    }
  }

  lemma PassClean(st: Store, h: Hub, sends: seq<bool>)
    requires Inv(st, h) && Ordered(h) && Clean(st, h)
    ensures Clean(st, Dispatch(st, h, sends).0)
  {
    var good := (a: Hub) => Inv(st, a) && Ordered(a) && Clean(st, a);
    forall a, ok | good(a) ensures good(Iterate(st, a, ok).hub) {
      IterateKeepsInv(st, a, ok);
      IterateKeepsOrdered(st, a, ok);
      IterateClean(st, a, ok);
    }
    BatchKeeps(st, h, 0, 0, BatchSize(h.total), sends, good);
    assert good(Dispatch(st, h, sends).0);
  }

  /** Each consumer's pending messages were its own before. */
  lemma FewerPending(before: map<nat, Consumer>, after: map<nat, Consumer>)
    requires forall c :: c in after && after[c].pending.Keys != {} ==>
               c in before && after[c].pending.Keys <= before[c].pending.Keys
    ensures forall m: nat :: Owned(after, m) ==> Owned(before, m)
  {
    forall m: nat | Owned(after, m) ensures Owned(before, m) {
      var c :| c in after && m in after[c].pending;
      assert m in after[c].pending.Keys && m in before[c].pending.Keys;
      assert c in before && m in before[c].pending;
    }
  }

  lemma AckedClean(st: Store, h: Hub, ids: set<nat>)
    requires Clean(st, h)
    ensures Clean(AckedStore(st, h, ids), Acked(st, h, ids))
  {
    var owned := OwnedAmong(h.consumers, ids);
    forall m: nat ensures Owned(DropAll(h.consumers, owned), m) <==> Owned(h.consumers, m) && m !in owned {
      DropAllOwned(h.consumers, owned, m);
    }
  }

  lemma NackedClean(st: Store, h: Hub, c: nat, ids: set<nat>)
    requires Clean(st, h)
    ensures Clean(st, Nacked(st, h, c, ids))
  {
    FewerPending(h.consumers, Nacked(st, h, c, ids).consumers);
    FewerClean(st, h, Nacked(st, h, c, ids));
  }

  lemma LeftClean(st: Store, h: Hub, c: nat)
    requires Clean(st, h)
    ensures Clean(st, Left(h, c))
  {
    FewerPending(h.consumers, Left(h, c).consumers);
    FewerClean(st, h, Left(h, c));
  }

  lemma JoinedClean(st: Store, h: Hub, c: nat, priority: int)
    requires Clean(st, h)
    ensures Clean(st, Joined(h, c, priority))
  {
    FewerPending(h.consumers, Joined(h, c, priority).consumers);
  }

  lemma FlowedClean(st: Store, h: Hub, c: nat, n: nat)
    requires Clean(st, h)
    ensures Clean(st, Flowed(h, c, n))
  {
    FewerPending(h.consumers, Flowed(h, c, n).consumers);
  }

  lemma SoughtClean(st: Store, h: Hub, to: nat, kept: set<nat>)
    requires forall c :: c in kept && c in h.consumers ==> h.consumers[c].pending == map[]
    ensures Clean(SoughtStore(st, to), Sought(st, h, to, kept))
  {
  }

  lemma NextClean(s: System, e: Event)
    requires SystemInv(s) && Clean(s.st, s.hub) && Drains(s, e)
    ensures Clean(Next(s, e).st, Next(s, e).hub)
  {
    match e
    case Publish(_) =>
    case Join(c, priority) => JoinedClean(s.st, s.hub, c, priority);
    case Flow(c, n) => FlowedClean(s.st, s.hub, c, n);
    case Pass(sends) => PassClean(s.st, s.hub, sends);
    case Ack(ids) => AckedClean(s.st, s.hub, ids);
    case Nack(c, ids) => NackedClean(s.st, s.hub, c, ids);
    case Leave(c) => LeftClean(s.st, s.hub, c);
    case Seek(to, kept) => SoughtClean(s.st, s.hub, to, kept);
  }

  /** Every seek of a run drains all consumers. */
  ghost predicate DrainsAll(st: Store, events: seq<Event>) {
    events == [] ||
    var n := |events| - 1;
    DrainsAll(st, events[..n]) && Drains(Run(Init(st), events[..n]), events[n])
  }

  lemma {:induction false} RunClean(st: Store, events: seq<Event>)
    requires DrainsAll(st, events)
    ensures Clean(Run(Init(st), events).st, Run(Init(st), events).hub)
  {
    if events != [] {
      var n := |events| - 1;
      RunClean(st, events[..n]);
      InitInv(st);
      RunKeepsInv(Init(st), events[..n]);
      NextClean(Run(Init(st), events[..n]), events[n]);
    }
  }

  lemma ReachedClean(st: Store, events: seq<Event>)
    requires DrainsAll(st, events)
    ensures Stored(Run(Init(st), events).st, Run(Init(st), events).hub)
    ensures QueueClean(Run(Init(st), events).st, Run(Init(st), events).hub)
  {
    RunClean(st, events);
    InitInv(st);
    RunKeepsInv(Init(st), events);
    CleanIsReady(Run(Init(st), events));
  }

  lemma CleanIsReady(s: System)
    requires SystemInv(s) && Clean(s.st, s.hub)
    ensures Stored(s.st, s.hub) && QueueClean(s.st, s.hub)
  {
  }

  /** In every state reached with draining seeks, a pass hands out a message exactly when the aggregate is positive,
      selection finds a consumer with permits and room, a message is queued or unread, and the first send succeeds. */
  lemma EveryPassProgress(st: Store, events: seq<Event>, sends: seq<bool>)
    requires DrainsAll(st, events)
    ensures var s := Run(Init(st), events);
            Dispatch(s.st, s.hub, sends).1 > 0 <==> s.hub.total > 0 && Serves(s.st, s.hub) && Taken(sends, 0)
  {
    ReachedClean(st, events);
    PassProgress(Run(Init(st), events).st, Run(Init(st), events).hub, sends);
  }
}
