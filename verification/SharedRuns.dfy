/**
 Whole runs of the Shared dispatcher: no message is lost, none has two owners, and permits add up.
 */
module SharedRuns {
  import opened Base
  import opened RoundRobin
  import opened SharedDispatch

  // ---------------------------------------------------------------- order and permits

  ghost predicate Lists(order: seq<nat>, keys: set<nat>) {
    && (forall c :: c in keys <==> c in order)
    && (forall i, j :: 0 <= i < j < |order| ==> order[i] != order[j])
  }

  predicate InTurn(order: seq<nat>, rr: nat) {
    if order == [] then rr == 0 else rr < |order|
  }

  /** The order lists every connected consumer once, by priority. */
  ghost predicate Ordered(h: Hub) {
    Lists(h.order, h.consumers.Keys) && Sorted(Slots(h)) && InTurn(h.order, h.rr)
  }

  lemma ListsInserted(order: seq<nat>, keys: set<nat>, i: nat, c: nat)
    requires Lists(order, keys) && c !in keys && i <= |order|
    ensures Lists(Inserted(order, i, c), keys + {c})
  {
    var after := Inserted(order, i, c);
    assert after[i] == c;
    forall d | d in order ensures d in after {
      var x :| 0 <= x < |order| && order[x] == d;
      assert after[if x < i then x else x + 1] == d;
    }
  }

  lemma ListsRemoved(order: seq<nat>, keys: set<nat>, i: nat)
    requires Lists(order, keys) && i < |order|
    ensures Lists(Removed(order, i), keys - {order[i]})
  {
    var after := Removed(order, i);
    forall d | d in order && d != order[i] ensures d in after {
      var x :| 0 <= x < |order| && order[x] == d;
      assert after[if x < i then x else x - 1] == d;
    }
  }

  function Sum(slots: seq<Slot>): int {
    if slots == [] then 0 else slots[0].permits + Sum(slots[1..])
  }

  lemma {:induction false} SumUpdate(slots: seq<Slot>, i: nat, s: Slot)
    requires i < |slots|
    ensures Sum(slots[i := s]) == Sum(slots) - slots[i].permits + s.permits
  {
    if i == 0 {
      assert slots[i := s][1..] == slots[1..];
    } else {
      SumUpdate(slots[1..], i - 1, s);
      assert slots[i := s][1..] == slots[1..][i - 1 := s];
    }
  }

  lemma {:induction false} SumSplit(a: seq<Slot>, b: seq<Slot>)
    ensures Sum(a + b) == Sum(a) + Sum(b)
  {
    if a == [] {
      assert a + b == b;
    } else {
      SumSplit(a[1..], b);
      assert (a + b)[1..] == a[1..] + b;
    }
  }

  lemma {:induction false} SumInserted(slots: seq<Slot>, i: nat, s: Slot)
    requires i <= |slots|
    ensures Sum(Inserted(slots, i, s)) == Sum(slots) + s.permits
  {
    SumSplit(slots[..i] + [s], slots[i..]);
    SumSplit(slots[..i], [s]);
    SumSplit(slots[..i], slots[i..]);
    assert slots == slots[..i] + slots[i..];
  }

  lemma {:induction false} SumRemoved(slots: seq<Slot>, i: nat)
    requires i < |slots|
    ensures Sum(Removed(slots, i)) == Sum(slots) - slots[i].permits
  {
    SumSplit(slots[..i], slots[i + 1..]);
    SumSplit(slots[..i] + [slots[i]], slots[i + 1..]);
    SumSplit(slots[..i], [slots[i]]);
    assert slots == slots[..i] + [slots[i]] + slots[i + 1..];
  }

  /** The aggregate is the sum of all connected balances plus the debts of those who left owing. */
  ghost predicate Balanced(h: Hub, debt: int) {
    h.total == Sum(Slots(h)) + debt && debt <= 0
  }

  ghost predicate SameSlots(h: Hub, g: Hub) {
    && g.order == h.order && g.rr == h.rr && g.total == h.total
    && g.consumers.Keys == h.consumers.Keys && Slots(g) == Slots(h)
  }

  lemma SameSlotsKeeps(h: Hub, g: Hub, debt: int)
    requires Ordered(h) && Balanced(h, debt) && SameSlots(h, g)
    ensures Ordered(g) && Balanced(g, debt)
  {
  }

  /** At most one consumer's balance changed, and the aggregate by the same amount. */
  ghost predicate Changed(h: Hub, g: Hub, c: nat) {
    && c in h.consumers && g.order == h.order && InTurn(g.order, g.rr) && g.consumers.Keys == h.consumers.Keys
    && (forall d :: d in h.consumers && d != c ==> g.consumers[d] == h.consumers[d])
    && g.consumers[c].priority == h.consumers[c].priority
    && g.total - h.total == g.consumers[c].permits - h.consumers[c].permits
  }

  lemma ChangedSlots(h: Hub, g: Hub, i: nat)
    requires Lists(h.order, h.consumers.Keys) && i < |h.order| && Changed(h, g, h.order[i])
    ensures Slots(g) == Slots(h)[i := SlotOf(g.consumers, h.order[i])]
  {
  }

  lemma ChangedKeeps(h: Hub, g: Hub, i: nat, debt: int)
    requires Ordered(h) && Balanced(h, debt) && i < |h.order| && Changed(h, g, h.order[i])
    ensures Ordered(g) && Balanced(g, debt)
  {
    assert h.order[i] in h.order;
    ChangedSlots(h, g, i);
    SumUpdate(Slots(h), i, SlotOf(g.consumers, h.order[i]));
  }

  lemma RedeliverChanges(st: Store, h: Hub, c: nat, ok: bool)
    requires c in h.consumers && h.queue != map[] && InTurn(h.order, h.rr)
    ensures Changed(h, Redeliver(st, h, c, ok).hub, c)
  {
  }

  lemma SendFreshChanges(st: Store, h: Hub, c: nat, ok: bool)
    requires c in h.consumers && InTurn(h.order, h.rr)
    ensures Changed(h, SendFresh(st, h, c, ok).hub, c)
  {
  }

  lemma IterateChanges(st: Store, h: Hub, ok: bool)
    requires Pick(Slots(h), h.rr).Some?
    ensures Changed(h, Iterate(st, h, ok).hub, h.order[Pick(Slots(h), h.rr).value])
  {
    var i := Pick(Slots(h), h.rr).value;
    var next := h.(rr := After(Slots(h), i));
    if h.queue != map[] {
      RedeliverChanges(st, next, h.order[i], ok);
    } else {
      SendFreshChanges(st, next, h.order[i], ok);
    }
  }

  lemma IterateKeepsOrder(st: Store, h: Hub, ok: bool, debt: int)
    requires Ordered(h) && Balanced(h, debt)
    ensures Ordered(Iterate(st, h, ok).hub) && Balanced(Iterate(st, h, ok).hub, debt)
  {
    var p := Pick(Slots(h), h.rr);
    if p.Some? {
      IterateChanges(st, h, ok);
      ChangedKeeps(h, Iterate(st, h, ok).hub, p.value, debt);
    }
  }

  lemma {:induction false} BatchKeepsOrder(st: Store, h: Hub, k: nat, i: nat, n: nat, sends: seq<bool>, debt: int)
    requires Ordered(h) && Balanced(h, debt)
    ensures var g := Batch(st, h, k, i, n, sends).0; Ordered(g) && Balanced(g, debt)
    decreases n - i
  {
    if i < n {
      var t := Iterate(st, h, Taken(sends, i));
      IterateKeepsOrder(st, h, Taken(sends, i), debt);
      BatchKeepsOrder(st, t.hub, if t.sent then k + 1 else k, i + 1, n, sends, debt);
    }
  }

  lemma {:induction false} JoinedSlots(h: Hub, c: nat, priority: int)
    requires c !in h.order && c !in h.consumers
    ensures Slots(Joined(h, c, priority)) == Inserted(Slots(h), InsertAt(Slots(h), priority), Slot(c, priority, 0))
  {
  }

  lemma JoinedKeepsOrder(h: Hub, c: nat, priority: int, debt: int)
    requires Ordered(h) && Balanced(h, debt)
    ensures Ordered(Joined(h, c, priority)) && Balanced(Joined(h, c, priority), debt)
  {
    if c !in h.consumers {
      var i := InsertAt(Slots(h), priority);
      JoinedSlots(h, c, priority);
      InsertedExact(Slots(h), Slot(c, priority, 0));
      SumInserted(Slots(h), i, Slot(c, priority, 0));
      ListsInserted(h.order, h.consumers.Keys, i, c);
      assert Joined(h, c, priority).consumers.Keys == h.consumers.Keys + {c};
    }
  }

  lemma FlowedKeepsOrder(h: Hub, c: nat, n: nat, debt: int)
    requires Ordered(h) && Balanced(h, debt)
    ensures Ordered(Flowed(h, c, n)) && Balanced(Flowed(h, c, n), debt)
  {
    if c in h.consumers {
      var i :| 0 <= i < |h.order| && h.order[i] == c;
      ChangedKeeps(h, Flowed(h, c, n), i, debt);
    }
  }

  /** What a leaver still owes. */
  function Owes(h: Hub, c: nat): int {
    if c in h.consumers && h.consumers[c].permits < 0 then h.consumers[c].permits else 0
  }

  lemma IndexInExact(order: seq<nat>, c: nat)
    requires c in order
    ensures IndexIn(order, c) < |order|
  {
    assert order[..|order|] == order;
  }

  lemma {:induction false} LeftSlots(h: Hub, c: nat)
    requires c in h.consumers && IndexIn(h.order, c) < |h.order|
    requires forall k :: 0 <= k < |h.order| && k != IndexIn(h.order, c) ==> h.order[k] != c
    ensures Slots(Left(h, c)) == Removed(Slots(h), IndexIn(h.order, c))
  {
    var i, g := IndexIn(h.order, c), Left(h, c);
    var slots := Removed(Slots(h), i);
    assert g.order == Removed(h.order, i) && |slots| == |g.order|;
    forall k | 0 <= k < |slots| ensures Slots(g)[k] == slots[k] {
      assert g.order[k] != h.order[i];
    }
  }

  lemma LeftKeepsOrder(h: Hub, c: nat, debt: int)
    requires Ordered(h) && Balanced(h, debt)
    ensures Ordered(Left(h, c)) && Balanced(Left(h, c), debt + Owes(h, c))
  {
    if c in h.consumers {
      IndexInExact(h.order, c);
      var i := IndexIn(h.order, c);
      LeftSlots(h, c);
      RemovedExact(Slots(h), i, h.rr);
      SumRemoved(Slots(h), i);
      ListsRemoved(h.order, h.consumers.Keys, i);
      assert Left(h, c).consumers.Keys == h.consumers.Keys - {c};
    }
  }

  // ---------------------------------------------------------------- whole runs

  /** `debt` records what departed consumers still owed; nothing reads it. */
  datatype System = System(st: Store, hub: Hub, debt: int)

  /** `sends` says which sends of a pass the connections take, `kept` which consumers a seek leaves undrained. */
  datatype Event =
    | Publish(entry: LogEntry)
    | Join(c: nat, priority: int)
    | Flow(c: nat, n: nat)
    | Pass(sends: seq<bool>)
    | Ack(ids: set<nat>)
    | Nack(c: nat, ids: set<nat>)
    | Leave(c: nat)
    | Seek(to: nat, kept: set<nat>)

  function Next(s: System, e: Event): System {
    match e
    case Publish(entry) => s.(st := s.st.(log := s.st.log + [entry]))
    case Join(c, priority) => s.(hub := Joined(s.hub, c, priority))
    case Flow(c, n) => s.(hub := Flowed(s.hub, c, n))
    case Pass(sends) => s.(hub := Dispatch(s.st, s.hub, sends).0)
    case Ack(ids) => s.(st := AckedStore(s.st, s.hub, ids), hub := Acked(s.st, s.hub, ids))
    case Nack(c, ids) => s.(hub := Nacked(s.st, s.hub, c, ids))
    case Leave(c) => s.(hub := Left(s.hub, c), debt := s.debt + Owes(s.hub, c))
    case Seek(to, kept) => s.(st := SoughtStore(s.st, to), hub := Sought(s.st, s.hub, to, kept))
  }

  function Run(s: System, events: seq<Event>): System {
    if events == [] then s else Next(Run(s, events[..|events| - 1]), events[|events| - 1])
  }

  /** A new dispatcher over whatever the topic and the cursor already hold. */
  function Init(st: Store): System {
    System(st, Hub(map[], [], 0, 0, None, map[]), 0)
  }

  ghost predicate SystemInv(s: System) {
    Inv(s.st, s.hub) && Ordered(s.hub) && Balanced(s.hub, s.debt)
  }

  lemma NextKeepsInv(s: System, e: Event)
    requires Inv(s.st, s.hub)
    ensures Inv(Next(s, e).st, Next(s, e).hub)
  {
    match e
    case Publish(entry) => PublishKeepsInv(s.st, s.hub, entry);
    case Join(c, priority) => SamePendingKeepsInv(s.st, s.hub, Joined(s.hub, c, priority));
    case Flow(c, n) => SamePendingKeepsInv(s.st, s.hub, Flowed(s.hub, c, n));
    case Pass(sends) => BatchKeepsInv(s.st, s.hub, 0, 0, BatchSize(s.hub.total), sends);
    case Ack(ids) => AckedKeepsInv(s.st, s.hub, ids);
    case Nack(c, ids) => NackedKeepsInv(s.st, s.hub, c, ids);
    case Leave(c) => LeftKeepsInv(s.st, s.hub, c);
    case Seek(to, kept) => SoughtKeepsInv(s.st, s.hub, to, kept);
  }

  lemma NextKeepsOrder(s: System, e: Event)
    requires Ordered(s.hub) && Balanced(s.hub, s.debt)
    ensures Ordered(Next(s, e).hub) && Balanced(Next(s, e).hub, Next(s, e).debt)
  {
    match e
    case Publish(_) =>
    case Join(c, priority) => JoinedKeepsOrder(s.hub, c, priority, s.debt);
    case Flow(c, n) => FlowedKeepsOrder(s.hub, c, n, s.debt);
    case Pass(sends) => BatchKeepsOrder(s.st, s.hub, 0, 0, BatchSize(s.hub.total), sends, s.debt);
    case Ack(ids) => SameSlotsKeeps(s.hub, Acked(s.st, s.hub, ids), s.debt);
    case Nack(c, ids) => SameSlotsKeeps(s.hub, Nacked(s.st, s.hub, c, ids), s.debt);
    case Leave(c) => LeftKeepsOrder(s.hub, c, s.debt);
    case Seek(to, kept) => SameSlotsKeeps(s.hub, Sought(s.st, s.hub, to, kept), s.debt);
  }

  lemma {:induction false} RunKeepsInv(s: System, events: seq<Event>)
    requires SystemInv(s)
    ensures SystemInv(Run(s, events))
  {
    if events != [] {
      var before := Run(s, events[..|events| - 1]);
      RunKeepsInv(s, events[..|events| - 1]);
      NextKeepsInv(before, events[|events| - 1]);
      NextKeepsOrder(before, events[|events| - 1]);
    }
  }

  lemma InitInv(st: Store)
    ensures SystemInv(Init(st))
  {
  }

  ghost predicate Safe(s: System) {
    && NoLoss(s.st, s.hub) && SingleOwner(s.hub)
    && s.hub.total == Sum(Slots(s.hub)) + s.debt && s.debt <= 0
  }

  lemma InvIsSafe(s: System)
    requires SystemInv(s)
    ensures Safe(s)
  {
    CoveredIsNoLoss(s.st, s.hub);
  }

  /** In every reachable state nothing is lost, nothing has two owners, and permits add up. */
  lemma {:induction false} SharedDeliveryIsSafe(st: Store, events: seq<Event>)
    ensures Safe(Run(Init(st), events))
  {
    InitInv(st);
    RunKeepsInv(Init(st), events);
    InvIsSafe(Run(Init(st), events));
  }

  ghost predicate Quiet(s: System) {
    && ReadFrom(s.st, s.hub.read) in {None, Some(|s.st.log|)} && s.hub.queue == map[]
    && forall c :: c in s.hub.consumers ==> s.hub.consumers[c].pending == map[]
  }

  /** When everything has been read and nothing is queued or pending, everything is acknowledged. */
  lemma QuietMeansAcked(s: System)
    requires Safe(s) && Quiet(s)
    ensures forall m: nat :: m < |s.st.log| ==> m in s.st.acked
  {
  }

  // ---------------------------------------------------------------- what one iteration sends

  /** The message an iteration would send: the lowest queued one, else the next unread free one. */
  function Candidate(st: Store, h: Hub): Option<nat> {
    if h.queue != map[] then Some(Least(h.queue.Keys))
    else match ReadFrom(st, h.read)
      case None => None
      case Some(r) => var m := SkipBusy(st, h.consumers, r); if m < |st.log| then Some(m) else None
  }

  /** Consumer `c` had permits and room, now owns `m` and has paid for it. */
  ghost predicate Charged(st: Store, h: Hub, g: Hub, c: nat, m: nat)
    requires m < |st.log|
  {
    && c in h.consumers && h.consumers[c].permits > 0 && |h.consumers[c].pending| < MAX_UNACKED_PER_CONSUMER
    && c in g.consumers && m in g.consumers[c].pending
    && g.consumers[c].permits == h.consumers[c].permits - st.log[m].messages
  }

  /** An iteration that counts hands exactly the candidate to the chosen consumer, who pays for it. */
  lemma IterateSends(st: Store, h: Hub, ok: bool)
    requires Inv(st, h) && Ordered(h) && Iterate(st, h, ok).sent
    ensures Candidate(st, h).Some? && Candidate(st, h).value < |st.log|
    ensures var m, g := Candidate(st, h).value, Iterate(st, h, ok).hub;
            && m !in st.acked && !Owned(h.consumers, m) && m !in g.queue
            && (forall x :: Owned(g.consumers, x) <==> Owned(h.consumers, x) || x == m)
            && g.total == h.total - st.log[m].messages
    ensures Pick(Slots(h), h.rr).Some?
    ensures Charged(st, h, Iterate(st, h, ok).hub, h.order[Pick(Slots(h), h.rr).value], Candidate(st, h).value)
  {
    var i := Pick(Slots(h), h.rr).value;
    var c, m := h.order[i], Candidate(st, h).value;
    var next := h.(rr := After(Slots(h), i));
    if h.queue != map[] {
      DeliverOwner(next.(queue := h.queue - {m}), c, m, h.queue[m], st.log[m].messages);
    } else {
      DeliverOwner(next.(read := Some(m)), c, m, 0, st.log[m].messages);
    }
  }

  /** An iteration that does not count leaves every owner as it was. */
  lemma IterateSkips(st: Store, h: Hub, ok: bool)
    requires !Iterate(st, h, ok).sent
    ensures Iterate(st, h, ok).hub.consumers == h.consumers && Iterate(st, h, ok).hub.total == h.total
  {
  }

  lemma IterateKeepsOrdered(st: Store, h: Hub, ok: bool)
    requires Ordered(h)
    ensures Ordered(Iterate(st, h, ok).hub)
  {
    var p := Pick(Slots(h), h.rr);
    if p.Some? {
      IterateChanges(st, h, ok);
      ChangedSlots(h, Iterate(st, h, ok).hub, p.value);
    }
  }

  // ---------------------------------------------------------------- what one pass sends

  /** Permits that a list of messages costs. */
  function Cost(st: Store, sent: seq<nat>): nat
    requires forall i :: 0 <= i < |sent| ==> sent[i] < |st.log|
  {
    if sent == [] then 0 else st.log[sent[0]].messages + Cost(st, sent[1..])
  }

  /** These are the messages handed out between `h` and `g`: distinct, unacknowledged, unowned before, paid for. */
  ghost predicate HandsOut(st: Store, h: Hub, g: Hub, sent: seq<nat>) {
    && (forall i :: 0 <= i < |sent| ==> sent[i] < |st.log| && sent[i] !in st.acked && !Owned(h.consumers, sent[i]))
    && (forall i, j :: 0 <= i < j < |sent| ==> sent[i] != sent[j])
    && (forall x :: Owned(g.consumers, x) <==> Owned(h.consumers, x) || x in sent)
    && g.total == h.total - Cost(st, sent)
  }

  lemma HandsOutNothing(st: Store, h: Hub, g: Hub)
    requires g.consumers == h.consumers && g.total == h.total
    ensures HandsOut(st, h, g, [])
  {
  }

  /** The message an iteration hands out, if it does. */
  function SentBy(st: Store, h: Hub, ok: bool): seq<nat> {
    if Iterate(st, h, ok).sent && Candidate(st, h).Some? then [Candidate(st, h).value] else []
  }

  lemma IterateHandsOut(st: Store, h: Hub, ok: bool)
    requires Inv(st, h) && Ordered(h)
    ensures HandsOut(st, h, Iterate(st, h, ok).hub, SentBy(st, h, ok))
    ensures |SentBy(st, h, ok)| == if Iterate(st, h, ok).sent then 1 else 0
  {
    if Iterate(st, h, ok).sent {
      IterateSends(st, h, ok);
      HandsOutOne(st, h, Iterate(st, h, ok).hub, Candidate(st, h).value);
    } else {
      IterateSkips(st, h, ok);
      HandsOutNothing(st, h, Iterate(st, h, ok).hub);
    }
  }

  lemma HandsOutOne(st: Store, h: Hub, g: Hub, m: nat)
    requires m < |st.log| && m !in st.acked && !Owned(h.consumers, m) && g.total == h.total - st.log[m].messages
    requires forall x :: Owned(g.consumers, x) <==> Owned(h.consumers, x) || x == m
    ensures HandsOut(st, h, g, [m])
  {
    assert Cost(st, [m]) == st.log[m].messages + Cost(st, [m][1..]);
  }

  lemma {:induction false} CostAgain(st: Store, s: seq<nat>, t: seq<nat>)
    requires forall i :: 0 <= i < |s| ==> s[i] < |st.log|
    requires forall i :: 0 <= i < |t| ==> t[i] < |st.log|
    ensures Cost(st, s + t) == Cost(st, s) + Cost(st, t)
  {
    if s == [] {
      assert s + t == t;
    } else {
      CostAgain(st, s[1..], t);
      assert (s + t)[1..] == s[1..] + t;
    }
  }

  lemma HandsOutAgain(st: Store, a: Hub, b: Hub, c: Hub, s: seq<nat>, t: seq<nat>)
    requires HandsOut(st, a, b, s) && HandsOut(st, b, c, t)
    ensures HandsOut(st, a, c, s + t)
  {
    CostAgain(st, s, t);
    forall x: nat ensures x in s + t <==> x in s || x in t { }
    forall i, j | 0 <= i < |s| && 0 <= j < |t| ensures s[i] != t[j] {
      assert s[i] in s && Owned(b.consumers, s[i]);
    }
  }

  /** A pass whose iteration is `step`. */
  ghost function Repeat(step: (Hub, bool) -> Turn, h: Hub, k: nat, i: nat, n: nat, sends: seq<bool>): (Hub, nat)
    decreases n - i
  {
    if i >= n then (h, k)
    else
      var t := step(h, Taken(sends, i));
      if t.go then Repeat(step, t.hub, if t.sent then k + 1 else k, i + 1, n, sends) else (t.hub, k)
  }

  lemma {:induction false} BatchRepeats(st: Store, h: Hub, k: nat, i: nat, n: nat, sends: seq<bool>)
    ensures Batch(st, h, k, i, n, sends) == Repeat((a, ok) => Iterate(st, a, ok), h, k, i, n, sends)
    decreases n - i
  {
    if i < n {
      var t := Iterate(st, h, Taken(sends, i));
      if t.go {
        BatchRepeats(st, t.hub, if t.sent then k + 1 else k, i + 1, n, sends);
      }
    }
  }

  /** What an iteration does before the rest of a pass, a whole pass does. */
  lemma {:induction false} RepeatInduct(step: (Hub, bool) -> Turn, h: Hub, k: nat, i: nat, n: nat, sends: seq<bool>,
                                        one: (Hub, bool) -> seq<nat>, good: Hub -> bool,
                                        hands: (Hub, Hub, seq<nat>) -> bool) returns (sent: seq<nat>)
    requires good(h) && i <= n && forall a :: hands(a, a, [])
    requires forall a, ok | good(a) :: good(step(a, ok).hub) && (!step(a, ok).go ==> !step(a, ok).sent)
    requires forall a, ok | good(a) :: |one(a, ok)| == if step(a, ok).sent then 1 else 0
    requires forall a, ok, c, t | good(a) && hands(step(a, ok).hub, c, t) :: hands(a, c, one(a, ok) + t)
    ensures var (g, counted) := Repeat(step, h, k, i, n, sends);
            counted == k + |sent| && |sent| <= n - i && hands(h, g, sent)
    decreases n - i
  {
    sent := [];
    if i < n {
      var ok := Taken(sends, i);
      var t, rest := step(h, ok), [];
      if t.go {
        rest := RepeatInduct(step, t.hub, if t.sent then k + 1 else k, i + 1, n, sends, one, good, hands);
      }
      assert hands(t.hub, Repeat(step, h, k, i, n, sends).0, rest);
      sent := one(h, ok) + rest;
    }
  }

  /** A pass hands out exactly the messages it counts, at most one per iteration. */
  lemma BatchHandsOut(st: Store, h: Hub, n: nat, sends: seq<bool>) returns (sent: seq<nat>)
    requires Inv(st, h) && Ordered(h)
    ensures var (g, counted) := Batch(st, h, 0, 0, n, sends);
            counted == |sent| && |sent| <= n && HandsOut(st, h, g, sent)
  {
    var step := (a: Hub, ok: bool) => Iterate(st, a, ok);
    var one := (a: Hub, ok: bool) => SentBy(st, a, ok);
    var good := (a: Hub) => Inv(st, a) && Ordered(a);
    var hands := (a: Hub, b: Hub, s: seq<nat>) => HandsOut(st, a, b, s);
    forall a ensures hands(a, a, []) { HandsOutNothing(st, a, a); }
    forall a, ok | good(a)
      ensures good(step(a, ok).hub) && (!step(a, ok).go ==> !step(a, ok).sent)
      ensures |one(a, ok)| == if step(a, ok).sent then 1 else 0
    {
      IterateKeepsInv(st, a, ok);
      IterateKeepsOrdered(st, a, ok);
      IterateHandsOut(st, a, ok);
      IterateStops(st, a, ok);
    }
    forall a, ok, c, t | good(a) && hands(step(a, ok).hub, c, t) ensures hands(a, c, one(a, ok) + t) {
      IterateHandsOut(st, a, ok);
      HandsOutAgain(st, a, step(a, ok).hub, c, one(a, ok), t);
    }
    sent := RepeatInduct(step, h, 0, 0, n, sends, one, good, hands);
    BatchRepeats(st, h, 0, 0, n, sends);
  }

  lemma IterateStops(st: Store, h: Hub, ok: bool)
    ensures !Iterate(st, h, ok).go ==> !Iterate(st, h, ok).sent
  {
  }

  /** One pass delivers at most a batch, never more messages than permits, and nothing without permits. */
  lemma {:induction false} PassDelivers(st: Store, h: Hub, sends: seq<bool>) returns (sent: seq<nat>)
    requires Inv(st, h) && Ordered(h)
    ensures var (g, counted) := Dispatch(st, h, sends);
            && counted == |sent| && |sent| <= MAX_ROUND_ROBIN_BATCH && |sent| <= Max(h.total, 0)
            && HandsOut(st, h, g, sent)
  {
    sent := BatchHandsOut(st, h, BatchSize(h.total), sends);
  }
}
