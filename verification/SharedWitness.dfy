/**
 Runs of the Shared dispatcher whose aggregate permits stay negative after everyone has left, and starve whoever
 joins next.
 */
module SharedWitness {
  import opened Base
  import opened RoundRobin
  import opened SharedDispatch
  import opened SharedRuns
  import opened SharedProgress

  function Topic(n: nat): Store { Store([LogEntry(n, 0)], {}) }

  function Lone(permits: int, pending: map<nat, nat>, read: Option<nat>): Hub {
    Hub(map[1 := Consumer(0, permits, pending)], [1], 0, permits, read, map[])
  }

  lemma JoinsAlone(n: nat)
    ensures Joined(Init(Topic(n)).hub, 1, 0) == Lone(0, map[], None)
  {
    assert Inserted([], 0, 1) == [1];
  }

  lemma PicksAlone(h: Hub)
    requires |h.order| == 1 && h.rr == 0 && h.order[0] in h.consumers && h.consumers[h.order[0]].permits > 0
    requires h.consumers[h.order[0]].priority == 0
    ensures Pick(Slots(h), 0) == Some(0)
  {
    assert Slots(h)[0] == SlotOf(h.consumers, h.order[0]);
    assert FirstAvailable(Slots(h), 0, 1) == Some(0);
  }

  /** One permit buys an entry of `n` messages. */
  lemma DeliversAlone(n: nat)
    ensures Dispatch(Topic(n), Lone(1, map[], None), [true]).0 == Lone(1 - n, map[0 := 0], Some(1))
  {
    var h := Lone(1, map[], None);
    PicksAlone(h);
    assert Taken([true], 0);
    assert Iterate(Topic(n), h, true) == SendFresh(Topic(n), h, 1, true);
  }

  lemma LeavesAlone(n: nat)
    requires n > 0
    ensures Left(Lone(1 - n, map[0 := 0], Some(1)), 1) == Hub(map[], [], 0, 1 - n, Some(1), map[0 := 1])
    ensures Owes(Lone(1 - n, map[0 := 0], Some(1)), 1) == 1 - n
  {
    var h := Lone(1 - n, map[0 := 0], Some(1));
    assert IndexIn(h.order, 1) == 0 && Removed(h.order, 0) == [];
    assert h.consumers - {1} == map[];
  }

  lemma Then(a: System, events: seq<Event>, b: System, e: Event, c: System)
    requires Run(a, events) == b && Next(b, e) == c
    ensures Run(a, events + [e]) == c
  {
    assert (events + [e])[..|events|] == events;
  }

  lemma ThreeEvents(a: System, e: Event, b: System, f: Event, c: System, g: Event, d: System)
    requires Next(a, e) == b && Next(b, f) == c && Next(c, g) == d
    ensures Run(a, [e, f, g]) == d
  {
    Then(a, [], a, e, b);
    assert [] + [e] == [e] && [e] + [f] == [e, f] && [e, f] + [g] == [e, f, g];
    Then(a, [e], b, f, c);
    Then(a, [e, f], c, g, d);
  }

  lemma JoinsTo(s: System, c: nat, priority: int, next: Hub)
    requires Joined(s.hub, c, priority) == next
    ensures Next(s, Event.Join(c, priority)) == s.(hub := next)
  {
  }

  lemma PassesTo(s: System, sends: seq<bool>, next: Hub)
    requires Dispatch(s.st, s.hub, sends).0 == next
    ensures Next(s, Event.Pass(sends)) == s.(hub := next)
  {
  }

  lemma LeavesTo(s: System, c: nat, next: Hub, debt: int)
    requires Left(s.hub, c) == next && s.debt + Owes(s.hub, c) == debt
    ensures Next(s, Event.Leave(c)) == System(s.st, next, debt)
  {
  }

  function DebtEvents(n: nat): seq<Event> {
    [Event.Publish(LogEntry(n, 0)), Event.Join(1, 0), Event.Flow(1, 1)] + [Event.Pass([true])] + [Event.Leave(1)]
  }

  lemma DebtOpens(n: nat)
    ensures Run(Init(Store([], {})), [Event.Publish(LogEntry(n, 0)), Event.Join(1, 0), Event.Flow(1, 1)]) ==
            System(Topic(n), Lone(1, map[], None), 0)
  {
    JoinsAlone(n);
    JoinsTo(Init(Topic(n)), 1, 0, Lone(0, map[], None));
    ThreeEvents(Init(Store([], {})), Event.Publish(LogEntry(n, 0)), Init(Topic(n)),
                Event.Join(1, 0), System(Topic(n), Lone(0, map[], None), 0),
                Event.Flow(1, 1), System(Topic(n), Lone(1, map[], None), 0));
  }

  lemma DebtRun(n: nat)
    requires n > 0
    ensures Run(Init(Store([], {})), DebtEvents(n)) ==
            System(Topic(n), Hub(map[], [], 0, 1 - n, Some(1), map[0 := 1]), 1 - n)
  {
    var init, es := Init(Store([], {})), [Event.Publish(LogEntry(n, 0)), Event.Join(1, 0), Event.Flow(1, 1)];
    var c, d := System(Topic(n), Lone(1, map[], None), 0), System(Topic(n), Lone(1 - n, map[0 := 0], Some(1)), 0);
    var e := System(Topic(n), Hub(map[], [], 0, 1 - n, Some(1), map[0 := 1]), 1 - n);
    DebtOpens(n);
    DeliversAlone(n);
    PassesTo(c, [true], d.hub);
    Then(init, es, c, Event.Pass([true]), d);
    LeavesAlone(n);
    LeavesTo(d, 1, e.hub, 1 - n);
    Then(init, es + [Event.Pass([true])], d, Event.Leave(1), e);
  }

  /** A consumer that leaves owing permits leaves the aggregate negative with nobody connected. */
  lemma DebtStays(n: nat)
    requires n > 1
    ensures var s := Run(Init(Store([], {})), DebtEvents(n));
            s.hub.consumers == map[] && s.hub.total == s.debt == 1 - n < 0
  {
    DebtRun(n);
  }

  // ---------------------------------------------------------------- the next consumer starves

  /** Only consumer 2 is connected, with `k` permits of its own, and message 0 is queued. */
  function Starved(n: nat, k: nat): Hub {
    Hub(map[2 := Consumer(0, k, map[])], [2], 0, 1 - n + k, Some(1), map[0 := 1])
  }

  lemma JoinsStarved(n: nat)
    ensures Joined(Hub(map[], [], 0, 1 - n, Some(1), map[0 := 1]), 2, 0) == Starved(n, 0)
  {
    assert Inserted([], 0, 2) == [2];
  }

  lemma FlowsStarved(n: nat, k: nat)
    ensures Flowed(Starved(n, 0), 2, k) == Starved(n, k)
  {
  }

  lemma FlowsTo(s: System, c: nat, n: nat, next: Hub)
    requires Flowed(s.hub, c, n) == next
    ensures Next(s, Event.Flow(c, n)) == s.(hub := next)
  {
  }

  function StarveEvents(n: nat, k: nat): seq<Event> {
    DebtEvents(n) + [Event.Join(2, 0)] + [Event.Flow(2, k)]
  }

  lemma StarveRun(n: nat, k: nat)
    requires n > 0
    ensures Run(Init(Store([], {})), StarveEvents(n, k)) == System(Topic(n), Starved(n, k), 1 - n)
  {
    var init := Init(Store([], {}));
    var a := System(Topic(n), Hub(map[], [], 0, 1 - n, Some(1), map[0 := 1]), 1 - n);
    var b, c := a.(hub := Starved(n, 0)), a.(hub := Starved(n, k));
    DebtRun(n);
    JoinsStarved(n);
    JoinsTo(a, 2, 0, b.hub);
    Then(init, DebtEvents(n), a, Event.Join(2, 0), b);
    FlowsStarved(n, k);
    FlowsTo(b, 2, k, c.hub);
    Then(init, DebtEvents(n) + [Event.Join(2, 0)], b, Event.Flow(2, k), c);
  }

  /** Consumer 2 has permits and room and message 0 waits for it, yet no pass sends anything: the debt of the
      consumer that left keeps the aggregate at or below zero. */
  lemma DebtStarves(n: nat, k: nat, sends: seq<bool>)
    requires 0 < k < n
    ensures var s := Run(Init(Store([], {})), StarveEvents(n, k));
            && s.hub.consumers == map[2 := Consumer(0, k, map[])] && 0 in s.hub.queue && 0 !in s.st.acked
            && Serves(s.st, s.hub) && Dispatch(s.st, s.hub, sends) == (s.hub, 0)
  {
    StarveRun(n, k);
    PicksAlone(Starved(n, k));
  }
}
