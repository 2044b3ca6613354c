/**
 How far a pass of the Shared dispatcher gets, and why it stops.
 */
module SharedPasses {
  import opened RoundRobin
  import opened SharedDispatch
  import opened SharedRuns
  import opened SharedProgress

  // ---------------------------------------------------------------- why a pass stops

  /** Selection finds nobody; without negative levels this means that nobody has permits. */
  ghost predicate Unserved(g: Hub) {
    && Pick(Slots(g), g.rr).None?
    && ((forall c :: c in g.consumers ==> g.consumers[c].priority >= 0) ==>
          forall c :: c in g.consumers ==> g.consumers[c].permits <= 0)
  }

  /** The consumer selected last has permits and 50,000 messages pending. */
  ghost predicate Saturated(g: Hub) {
    exists i :: 0 <= i < |g.order| && g.rr == (if i + 1 == |g.order| then 0 else i + 1) &&
      g.order[i] in g.consumers && g.consumers[g.order[i]].permits > 0 &&
      |g.consumers[g.order[i]].pending| >= 50_000
  }

  /** Every stored message is acknowledged or pending. */
  ghost predicate NothingLeft(st: Store, g: Hub) {
    forall m: nat :: m < |st.log| ==> m in st.acked || Owned(g.consumers, m)
  }

  /** `ok` is whether the connection took the message last tried. */
  ghost predicate Stops(st: Store, g: Hub, ok: bool) {
    !ok || Unserved(g) || Saturated(g) || NothingLeft(st, g)
  }

  lemma PickNoneUnserved(h: Hub)
    requires Ordered(h) && Pick(Slots(h), h.rr).None?
    ensures Unserved(h)
  {
    if forall c :: c in h.consumers ==> h.consumers[c].priority >= 0 {
      forall j | 0 <= j < |Slots(h)| ensures Slots(h)[j].priority >= 0 { assert h.order[j] in h.order; }
      NonNegativeNeverHidden(Slots(h), h.rr);
      forall c | c in h.consumers ensures h.consumers[c].permits <= 0 {
        var j :| 0 <= j < |h.order| && h.order[j] == c;
        assert Slots(h)[j].permits <= 0;
      }
    }
  }

  /** With nothing queued, reading finds nothing only when nothing is left. */
  lemma NoCandidateLeft(st: Store, h: Hub)
    requires Covered(st, h) && h.queue == map[] && Candidate(st, h).None?
    ensures NothingLeft(st, h)
  {
  }

  lemma SameLeft(st: Store, h: Hub, g: Hub)
    requires NothingLeft(st, h) && g.consumers == h.consumers
    ensures NothingLeft(st, g)
  {
  }

  /** Queued messages that are acknowledged; they are dropped when their turn comes. */
  ghost function Stale(st: Store, h: Hub): set<nat> {
    h.queue.Keys * st.acked
  }

  lemma SaturatedAt(h: Hub, i: nat)
    requires Ordered(h) && i < |h.order| && h.consumers[h.order[i]].permits > 0
    requires |h.consumers[h.order[i]].pending| >= 50_000
    ensures Saturated(h.(rr := After(Slots(h), i)))
  {
    assert h.order[i] in h.order;
  }

  lemma StoppedStops(st: Store, h: Hub, ok: bool)
    requires Inv(st, h) && Ordered(h) && !Iterate(st, h, ok).go
    ensures Stops(st, Iterate(st, h, ok).hub, ok)
  {
    var p := Pick(Slots(h), h.rr);
    if p.None? {
      PickNoneUnserved(h);
    } else if |h.consumers[h.order[p.value]].pending| >= MAX_UNACKED_PER_CONSUMER {
      assert h.order[p.value] in h.order;
      SaturatedAt(h, p.value);
    } else if h.queue == map[] && Candidate(st, h).None? {
      NoCandidateLeft(st, h);
      SameLeft(st, h, Iterate(st, h, ok).hub);
    }
  }

  /** The queue lost `m`, or changed by unacknowledged messages only. */
  ghost predicate Requeues(st: Store, before: map<nat, nat>, after: map<nat, nat>, drops: bool, m: nat) {
    if drops then m in before && m in st.acked && after == before - {m}
    else forall x :: x in st.acked ==> (x in after <==> x in before)
  }

  lemma RedeliverRequeues(st: Store, h: Hub, c: nat, ok: bool)
    requires c in h.consumers && h.queue != map[] && Stored(st, h)
    ensures var t := Redeliver(st, h, c, ok);
            Requeues(st, h.queue, t.hub.queue, t.go && !t.sent, Least(h.queue.Keys))
  {
  }

  lemma SendFreshRequeues(st: Store, h: Hub, c: nat, ok: bool)
    requires c in h.consumers && h.queue == map[]
    ensures var t := SendFresh(st, h, c, ok); (t.go ==> t.sent) && Requeues(st, h.queue, t.hub.queue, false, 0)
  {
  }

  /** An iteration that goes on without sending takes one acknowledged message from the queue. */
  lemma IterateRequeues(st: Store, h: Hub, ok: bool) returns (m: nat)
    requires Inv(st, h)
    ensures var t := Iterate(st, h, ok); Requeues(st, h.queue, t.hub.queue, t.go && !t.sent, m)
  {
    m := if h.queue != map[] then Least(h.queue.Keys) else 0;
    var p := Pick(Slots(h), h.rr);
    if p.Some? {
      var c, next := h.order[p.value], h.(rr := After(Slots(h), p.value));
      if h.queue != map[] {
        RedeliverRequeues(st, next, c, ok);
      } else {
        SendFreshRequeues(st, next, c, ok);
      }
    }
  }

  lemma StaleShrinks(st: Store, h: Hub, ok: bool)
    requires Inv(st, h)
    ensures var t := Iterate(st, h, ok);
            |Stale(st, t.hub)| == |Stale(st, h)| - if t.go && !t.sent then 1 else 0
  {
    var m := IterateRequeues(st, h, ok);
    var t := Iterate(st, h, ok);
    StaleCount(st, h.queue, t.hub.queue, t.go && !t.sent, m);
  }

  lemma StaleCount(st: Store, before: map<nat, nat>, after: map<nat, nat>, drops: bool, m: nat)
    requires Requeues(st, before, after, drops, m)
    ensures |after.Keys * st.acked| == |before.Keys * st.acked| - if drops then 1 else 0
  {
    if drops {
      assert after.Keys * st.acked == before.Keys * st.acked - {m};
    } else {
      assert after.Keys * st.acked == before.Keys * st.acked;
    }
  }

  // ---------------------------------------------------------------- a pass

  lemma StepFills(st: Store, h: Hub, ok: bool)
    requires Inv(st, h) && Ordered(h)
    ensures var t := Iterate(st, h, ok);
            && Inv(st, t.hub) && Ordered(t.hub) && (t.sent ==> t.go)
            && |Stale(st, t.hub)| == |Stale(st, h)| - (if t.go && !t.sent then 1 else 0)
            && (!t.go ==> Stops(st, t.hub, ok))
  {
    IterateKeepsInv(st, h, ok);
    IterateKeepsOrdered(st, h, ok);
    IterateStops(st, h, ok);
    StaleShrinks(st, h, ok);
    if !Iterate(st, h, ok).go { StoppedStops(st, h, ok); }
  }

  /** When every iteration sends, uses up one of `stale` or stops for a reason, a pass runs all its iterations or
      stops for that reason. */
  lemma {:induction false} RepeatFills(step: (Hub, bool) -> Turn, h: Hub, k: nat, i: nat, n: nat, sends: seq<bool>,
                                       good: Hub -> bool, stale: Hub -> nat, stops: (Hub, bool) -> bool)
    returns (used: nat)
    requires good(h) && i <= n
    requires forall a, ok | good(a) :: good(step(a, ok).hub) && (step(a, ok).sent ==> step(a, ok).go)
    requires forall a, ok | good(a) ::
               stale(step(a, ok).hub) == stale(a) - if step(a, ok).go && !step(a, ok).sent then 1 else 0
    requires forall a, ok | good(a) && !step(a, ok).go :: stops(step(a, ok).hub, ok)
    ensures var (g, counted) := Repeat(step, h, k, i, n, sends);
            && counted >= k && stale(g) <= stale(h) && used == i + counted - k + stale(h) - stale(g)
            && used <= n && (used == n || stops(g, Taken(sends, used)))
    decreases n - i
  {
    used := i;
    if i < n {
      var t := step(h, Taken(sends, i));
      if t.go { used := RepeatFills(step, t.hub, if t.sent then k + 1 else k, i + 1, n, sends, good, stale, stops); }
    }
  }

  lemma BatchFills(st: Store, h: Hub, n: nat, sends: seq<bool>, g: Hub, counted: nat) returns (used: nat)
    requires Inv(st, h) && Ordered(h) && Batch(st, h, 0, 0, n, sends) == (g, counted)
    ensures |Stale(st, g)| <= |Stale(st, h)| && used == counted + |Stale(st, h)| - |Stale(st, g)|
    ensures used <= n && (used == n || Stops(st, g, Taken(sends, used)))
  {
    var step := (a: Hub, ok: bool) => Iterate(st, a, ok);
    var good := (a: Hub) => Inv(st, a) && Ordered(a);
    var stale := (a: Hub) => |Stale(st, a)|;
    var stops := (a: Hub, ok: bool) => Stops(st, a, ok);
    forall a, ok | good(a)
      ensures good(step(a, ok).hub) && (step(a, ok).sent ==> step(a, ok).go)
      ensures stale(step(a, ok).hub) == stale(a) - if step(a, ok).go && !step(a, ok).sent then 1 else 0
      ensures !step(a, ok).go ==> stops(step(a, ok).hub, ok)
    {
      StepFills(st, a, ok);
    }
    BatchRepeats(st, h, 0, 0, n, sends);
    used := RepeatFills(step, h, 0, 0, n, sends, good, stale, stops);
  }

  /** From `h` to `g` the messages `sent` were handed out and acknowledged ones dropped in `used` iterations, one for
      each permit there is in all, up to 20, unless a connection refused a message, selection found nobody or a
      saturated consumer, or nothing was left to hand out. */
  ghost predicate Filled(st: Store, h: Hub, g: Hub, sends: seq<bool>, sent: seq<nat>, used: nat) {
    var limit := if h.total <= 0 then 0 else if h.total <= 20 then h.total else 20;
    && HandsOut(st, h, g, sent) && |Stale(st, g)| <= |Stale(st, h)|
    && used == |sent| + |Stale(st, h)| - |Stale(st, g)| && used <= limit
    && (used == limit || Stops(st, g, Taken(sends, used)))
  }

  lemma PassFills(st: Store, h: Hub, sends: seq<bool>, g: Hub, n: nat) returns (sent: seq<nat>, used: nat)
    requires Inv(st, h) && Ordered(h) && Dispatch(st, h, sends) == (g, n)
    ensures n == |sent| && Filled(st, h, g, sends, sent, used)
  {
    sent := PassDelivers(st, h, sends);
    used := BatchFills(st, h, BatchSize(h.total), sends, g, n);
  }

  lemma CleanHasNoStale(st: Store, h: Hub)
    requires QueueClean(st, h)
    ensures Stale(st, h) == {}
  {
  }

  // ---------------------------------------------------------------- every reachable state

  lemma SystemReady(s: System)
    requires SystemInv(s)
    ensures Inv(s.st, s.hub) && Ordered(s.hub)
  {
  }

  lemma ReachedReady(st: Store, events: seq<Event>, s: System)
    requires s == Run(Init(st), events)
    ensures Inv(s.st, s.hub) && Ordered(s.hub)
  {
    InitInv(st);
    RunKeepsInv(Init(st), events);
    SystemReady(s);
  }

  lemma EveryPassFills(st: Store, events: seq<Event>, s: System, sends: seq<bool>, g: Hub, n: nat)
    returns (sent: seq<nat>, used: nat)
    requires s == Run(Init(st), events) && Dispatch(s.st, s.hub, sends) == (g, n)
    ensures n == |sent| && Filled(s.st, s.hub, g, sends, sent, used)
  {
    ReachedReady(st, events, s);
    sent, used := PassFills(s.st, s.hub, sends, g, n);
  }

  /** When every seek drained all consumers nothing is dropped: the messages handed out are the permits, up to 20,
      unless the pass stopped for one of those reasons. */
  lemma CleanPassFills(st: Store, events: seq<Event>, s: System, sends: seq<bool>, g: Hub, n: nat)
    requires DrainsAll(st, events) && s == Run(Init(st), events) && Dispatch(s.st, s.hub, sends) == (g, n)
    ensures var limit := if s.hub.total <= 0 then 0 else if s.hub.total <= 20 then s.hub.total else 20;
            n <= limit && (n == limit || Stops(s.st, g, Taken(sends, n)))
  {
    var sent, used := EveryPassFills(st, events, s, sends, g, n);
    ReachedClean(st, events);
    CleanHasNoStale(s.st, s.hub);
  }
}
