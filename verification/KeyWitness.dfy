/**
 Runs of the Key_Shared dispatcher from its start, event by event, that reach the states where a plausible
 promise fails.
 */
module KeyWitness {
  import opened Base
  import opened SharedDispatch
  import opened Redelivery
  import opened AutoSplit
  import opened KeyShared
  import opened KeySharedRuns
  import opened KeySharedDispatchers
  import opened KeyOrder
  import opened KeyAffinity
  import opened KeyMembership
  import opened KeyRunOrder

  // ---------------------------------------------------------------- following a run

  lemma Then(a: KeySystem, events: seq<KeyEvent>, b: KeySystem, e: KeyEvent, c: KeySystem)
    requires KeyRun(a, events) == b && KeyNext(b, e) == c
    ensures KeyRun(a, events + [e]) == c
  {
    assert (events + [e])[..|events|] == events;
  }

  lemma PublishesTo(st: Store, k: KeyHub, e: LogEntry, next: Store)
    requires st.(log := st.log + [e]) == next
    ensures KeyNext(KeySystem(st, k), KeyEvent.Publish(e)) == KeySystem(next, k)
  {
  }

  lemma JoinsTo(st: Store, k: KeyHub, c: nat, next: KeyHub)
    requires KeyJoined(k, c) == next
    ensures KeyNext(KeySystem(st, k), KeyEvent.Join(c)) == KeySystem(st, next)
  {
  }

  lemma FlowsTo(st: Store, k: KeyHub, c: nat, n: nat, next: KeyHub)
    requires KeyFlowed(k, c, n) == next
    ensures KeyNext(KeySystem(st, k), KeyEvent.Flow(c, n)) == KeySystem(st, next)
  {
  }

  lemma PassesTo(st: Store, k: KeyHub, envs: seq<Env>, next: KeyHub)
    requires KeyDispatch(st, k, envs).hub == next
    ensures KeyNext(KeySystem(st, k), KeyEvent.Pass(envs)) == KeySystem(st, next)
  {
  }

  lemma NacksTo(st: Store, k: KeyHub, c: nat, ids: set<nat>, next: KeyHub)
    requires Owns(st, k, c) && KeyNacked(st, k, c, ids) == next
    ensures KeyNext(KeySystem(st, k), KeyEvent.Nack(c, ids)) == KeySystem(st, next)
  {
  }

  /** Four events, one state after each. */
  lemma FourEvents(a: KeySystem, e: KeyEvent, b: KeySystem, f: KeyEvent, c: KeySystem, g: KeyEvent, d: KeySystem,
                   h: KeyEvent, z: KeySystem)
    requires KeyNext(a, e) == b && KeyNext(b, f) == c && KeyNext(c, g) == d && KeyNext(d, h) == z
    ensures KeyRun(a, [e, f, g, h]) == z
  {
    Then(a, [], a, e, b);
    assert [] + [e] == [e] && [e] + [f] == [e, f] && [e, f] + [g] == [e, f, g] && [e, f, g] + [h] == [e, f, g, h];
    Then(a, [e], b, f, c);
    Then(a, [e, f], c, g, d);
    Then(a, [e, f, g], d, h, z);
  }

  lemma {:induction false} RunOn(a: KeySystem, xs: seq<KeyEvent>, ys: seq<KeyEvent>)
    ensures KeyRun(a, xs + ys) == KeyRun(KeyRun(a, xs), ys)
  {
    if ys == [] {
      assert xs + ys == xs;
    } else {
      var n := |ys| - 1;
      RunOn(a, xs, ys[..n]);
      assert (xs + ys)[..|xs| + n] == xs + ys[..n];
    }
  }

  /** A pass that may send one message is its first iteration. */
  lemma OneIteration(st: Store, k: KeyHub, env: Env, q: Stage)
    requires k.total == 1 && q == KeyIterate(st, Stage(k, 1, 0, true), env) && (q.left == 0 || !q.go)
    ensures KeyDispatch(st, k, [env]) == q
  {
    assert BatchSize(k.total) == 1 && EnvAt([env], 0) == env;
    assert KeyBatch(st, Stage(k, 1, 0, true), 0, [env]) == if q.go then KeyBatch(st, q, 1, [env]) else q;
  }

  /** The next unread message, if its hash is not blocked, goes to the selected owner. */
  lemma FreshOne(st: Store, p: Stage, env: Env, m: nat, c: nat)
    requires p.go && ReadFrom(st, p.hub.read) == Some(m) && m < |st.log| && m !in st.acked
    requires !Owned(p.hub.consumers, m) && !Blocked(p.hub.ctl, st.log[m].hash)
    requires Select(p.hub, env.writableFresh, st.log[m].hash, 0) == Some(c) && env.sentFresh
    ensures FreshPhase(st, p, env) == Stage(KeyDeliver(p.hub, c, m, 0, st.log[m].messages).(read := Some(m + 1)),
                                            Spend(p.left), p.progress + 1, true)
  {
    SelectSame(p.hub, p.hub.(read := Some(m)), env.writableFresh, st.log[m].hash, 0);
  }

  /** With nothing queued an iteration is its fresh half. */
  lemma FreshOnly(st: Store, p: Stage, env: Env)
    requires p.go && p.hub.ctl.entries == map[]
    ensures KeyIterate(st, p, env) == FreshPhase(st, p, env)
  {
  }

  /** An iteration with nothing queued and nothing unread ends the pass. */
  lemma EndStep(st: Store, p: Stage, env: Env)
    requires p.go && p.hub.ctl.entries == map[] && p.hub.read.Some? && p.hub.read.value >= |st.log|
    ensures KeyIterate(st, p, env) == p.(go := false)
  {
  }

  /** The one queued message goes to its selected owner. */
  lemma RedeliverStep(st: Store, p: Stage, env: Env, m: nat, c: nat)
    requires p.go && p.hub.ctl.entries.Keys == {m} && m < |st.log| && m !in st.acked
    requires !HashInFlight(p.hub.ctl, HashOf(st, p.hub.ctl, m)) && env.sent
    requires Select(p.hub, env.writable, HashOf(st, p.hub.ctl, m), 0) == Some(c)
    ensures RedeliverPhase(st, p, env) == Stage(HandOver(st, p.hub, m, c), Spend(p.left), p.progress + 1, true)
  {
    assert Least({m}) == m;
  }

  type Split = seq<AutoSplit.Assigned>

  function SharesOf(keys: set<nat>): Split {
    Assignments(SortedIds(keys), |SortedIds(keys)|)
  }

  lemma SelectsHashOwner(k: KeyHub, writable: set<nat>, keys: set<nat>, hash: nat, c: nat)
    requires k.shares == SharesOf(keys) && hash < HASHES && OwnsHash(keys, hash, c) && CanTake(k.consumers, writable, c)
    ensures Select(k, writable, hash, 0) == Some(c)
  {
    var i := SelectsOwner(k, writable, SortedIds(keys), hash);
  }

  /** Alone, consumer 1 owns every hash; with consumer 2, the upper half goes to that one. */
  lemma TwoOwners(hash: nat)
    requires hash < HASHES
    ensures OwnsHash({1}, hash, 1)
    ensures hash >= 32768 ==> OwnsHash({1, 2}, hash, 2)
  {
    assert Smaller({1}, 1) == {} && Smaller({1, 2}, 2) == {1};
    OwnsByRank({1}, hash, 1);
    OwnsByRank({1, 2}, hash, 2);
  }

  // ---------------------------------------------------------------- one hash on two consumers

  const BOTH := Env({1, 2}, true, {1, 2}, true)

  /** Consumer 1 has one permit and the log one entry of `n` messages; consumer 2 then joins with `n` permits, and
      a second entry of the same hash is published. */
  function SplitEvents(n: nat): seq<KeyEvent> {
    SplitBefore(n) + SplitAfter(n)
  }

  function SplitBefore(n: nat): seq<KeyEvent> {
    [KeyEvent.Publish(LogEntry(n, 40000)), KeyEvent.Join(1), KeyEvent.Flow(1, 1), KeyEvent.Pass([BOTH])]
  }

  function SplitAfter(n: nat): seq<KeyEvent> {
    [KeyEvent.Join(2), KeyEvent.Flow(2, n), KeyEvent.Publish(LogEntry(1, 40000)), KeyEvent.Pass([BOTH])]
  }

  function First(n: nat): Store { Store([LogEntry(n, 40000)], {}) }

  function Second(n: nat): Store { Store([LogEntry(n, 40000), LogEntry(1, 40000)], {}) }

  function OneConsumer(shares: Split, permits: int, pending: map<nat, nat>, read: Option<nat>): KeyHub {
    KeyHub(map[1 := Consumer(0, permits, pending)], shares, permits, read, Empty(true))
  }

  /** Consumer 1 holds message 0, paid for with one permit. */
  function TwoConsumers(shares: Split, n: nat, permits: int, pending: map<nat, nat>, read: Option<nat>,
                        ctl: Controller): KeyHub
  {
    KeyHub(map[1 := Consumer(0, 1 - n, map[0 := 0]), 2 := Consumer(0, permits, pending)], shares,
           1 - n + permits, read, ctl)
  }

  /** A pass that may send one message hands the next unread one to the owner of its hash. */
  lemma PassHandsOver(st: Store, k: KeyHub, env: Env, keys: set<nat>, m: nat, c: nat)
    requires k.total == 1 && k.ctl == Empty(true) && ReadFrom(st, k.read) == Some(m) && m < |st.log| && m !in st.acked
    requires !Owned(k.consumers, m) && k.shares == SharesOf(keys) && 0 <= st.log[m].hash < HASHES
    requires OwnsHash(keys, st.log[m].hash, c) && CanTake(k.consumers, env.writableFresh, c) && env.sentFresh
    ensures KeyDispatch(st, k, [env]).hub == KeyDeliver(k, c, m, 0, st.log[m].messages).(read := Some(m + 1))
  {
    SelectsHashOwner(k, env.writableFresh, keys, st.log[m].hash, c);
    FreshOnly(st, Stage(k, 1, 0, true), env);
    FreshOne(st, Stage(k, 1, 0, true), env, m, c);
    OneIteration(st, k, env, KeyIterate(st, Stage(k, 1, 0, true), env));
  }

  lemma FirstPass(n: nat, one: Split)
    requires one == SharesOf({1})
    ensures KeyDispatch(First(n), OneConsumer(one, 1, map[], None), [BOTH]).hub ==
            OneConsumer(one, 1 - n, map[0 := 0], Some(1))
  {
    TwoOwners(40000);
    PassHandsOver(First(n), OneConsumer(one, 1, map[], None), BOTH, {1}, 0, 1);
  }

  lemma SecondPass(n: nat, two: Split)
    requires n > 0 && two == SharesOf({1, 2})
    ensures KeyDispatch(Second(n), TwoConsumers(two, n, n, map[], Some(1), Empty(true)), [BOTH]).hub ==
            TwoConsumers(two, n, n - 1, map[1 := 0], Some(2), Empty(true))
  {
    TwoOwners(40000);
    PassHandsOver(Second(n), TwoConsumers(two, n, n, map[], Some(1), Empty(true)), BOTH, {1, 2}, 1, 2);
  }

  lemma Joins(n: nat, one: Split, two: Split)
    requires one == SharesOf({1}) && two == SharesOf({1, 2})
    ensures KeyJoined(KeyInit(First(n)).hub, 1) == OneConsumer(one, 0, map[], None)
    ensures KeyJoined(OneConsumer(one, 1 - n, map[0 := 0], Some(1)), 2) ==
            TwoConsumers(two, n, 0, map[], Some(1), Empty(true))
  {
    assert OneConsumer(one, 0, map[], None).consumers.Keys == {1};
    assert TwoConsumers(two, n, 0, map[], Some(1), Empty(true)).consumers.Keys == {1, 2};
  }

  function SplitEnd(n: nat, two: Split): KeySystem {
    KeySystem(Second(n), TwoConsumers(two, n, n - 1, map[1 := 0], Some(2), Empty(true)))
  }

  lemma Flows(n: nat, one: Split, two: Split)
    ensures KeyFlowed(OneConsumer(one, 0, map[], None), 1, 1) == OneConsumer(one, 1, map[], None)
    ensures KeyFlowed(TwoConsumers(two, n, 0, map[], Some(1), Empty(true)), 2, n) ==
            TwoConsumers(two, n, n, map[], Some(1), Empty(true))
  {
  }

  lemma SplitOpens(n: nat, one: Split, two: Split)
    requires one == SharesOf({1}) && two == SharesOf({1, 2})
    ensures KeyRun(KeyInit(Store([], {})), SplitBefore(n)) ==
            KeySystem(First(n), OneConsumer(one, 1 - n, map[0 := 0], Some(1)))
  {
    var a, b, c := KeyInit(First(n)).hub, OneConsumer(one, 0, map[], None), OneConsumer(one, 1, map[], None);
    var d := OneConsumer(one, 1 - n, map[0 := 0], Some(1));
    PublishesTo(Store([], {}), a, LogEntry(n, 40000), First(n));
    assert KeyJoined(a, 1) == b by { Joins(n, one, two); }
    JoinsTo(First(n), a, 1, b);
    assert KeyFlowed(b, 1, 1) == c by { Flows(n, one, two); }
    FlowsTo(First(n), b, 1, 1, c);
    assert KeyDispatch(First(n), c, [BOTH]).hub == d by { FirstPass(n, one); }
    PassesTo(First(n), c, [BOTH], d);
    FourEvents(KeyInit(Store([], {})), KeyEvent.Publish(LogEntry(n, 40000)), KeySystem(First(n), a),
               KeyEvent.Join(1), KeySystem(First(n), b), KeyEvent.Flow(1, 1), KeySystem(First(n), c),
               KeyEvent.Pass([BOTH]), KeySystem(First(n), d));
  }

  lemma SplitCloses(n: nat, one: Split, two: Split)
    requires n > 0 && one == SharesOf({1}) && two == SharesOf({1, 2})
    ensures KeyRun(KeySystem(First(n), OneConsumer(one, 1 - n, map[0 := 0], Some(1))), SplitAfter(n)) ==
            SplitEnd(n, two)
  {
    var a := OneConsumer(one, 1 - n, map[0 := 0], Some(1));
    var b, c := TwoConsumers(two, n, 0, map[], Some(1), Empty(true)),
        TwoConsumers(two, n, n, map[], Some(1), Empty(true));
    var d := SplitEnd(n, two).hub;
    assert KeyJoined(a, 2) == b by { Joins(n, one, two); }
    JoinsTo(First(n), a, 2, b);
    assert KeyFlowed(b, 2, n) == c by { Flows(n, one, two); }
    FlowsTo(First(n), b, 2, n, c);
    PublishesTo(First(n), c, LogEntry(1, 40000), Second(n));
    assert KeyDispatch(Second(n), c, [BOTH]).hub == d by { SecondPass(n, two); }
    PassesTo(Second(n), c, [BOTH], d);
    FourEvents(KeySystem(First(n), a), KeyEvent.Join(2), KeySystem(First(n), b), KeyEvent.Flow(2, n),
               KeySystem(First(n), c), KeyEvent.Publish(LogEntry(1, 40000)), KeySystem(Second(n), c),
               KeyEvent.Pass([BOTH]), KeySystem(Second(n), d));
  }

  lemma SplitRun(n: nat, one: Split, two: Split)
    requires n > 0 && one == SharesOf({1}) && two == SharesOf({1, 2})
    ensures KeyRun(KeyInit(Store([], {})), SplitEvents(n)) == SplitEnd(n, two)
  {
    SplitOpens(n, one, two);
    SplitCloses(n, one, two);
    RunOn(KeyInit(Store([], {})), SplitBefore(n), SplitAfter(n));
  }

  /** After a join, two messages of one hash are pending on two consumers. */
  lemma OneHashOnTwoConsumers(n: nat)
    requires n > 0
    ensures var s := KeyRun(KeyInit(Store([], {})), SplitEvents(n));
            && |s.st.log| == 2 && s.st.log[0].hash == s.st.log[1].hash
            && 1 in s.hub.consumers && 0 in s.hub.consumers[1].pending
            && 2 in s.hub.consumers && 1 in s.hub.consumers[2].pending
  {
    SplitRun(n, SharesOf({1}), SharesOf({1, 2}));
  }

  // ---------------------------------------------------------------- a pass beyond its budget

  function Waiting(): Controller {
    Controller(map[1 := Entry(1, Some(40000))], map[], map[40000 := 1], true)
  }

  function Flying(): Controller {
    Controller(map[], map[1 := 40000], map[40000 := 1], true)
  }

  function Fourth(n: nat): Store {
    Store([LogEntry(n, 40000), LogEntry(1, 40000), LogEntry(1, 40001), LogEntry(1, 40002)], {})
  }

  /** Consumer 2 hands back message 1 and grants one permit, and two messages of other hashes are published. */
  function WrapAfter(): seq<KeyEvent> {
    [ KeyEvent.Nack(2, {1}), KeyEvent.Flow(2, 1), KeyEvent.Publish(LogEntry(1, 40001)),
      KeyEvent.Publish(LogEntry(1, 40002)) ]
  }

  function WrapEvents(n: nat): seq<KeyEvent> {
    SplitEvents(n) + WrapAfter()
  }

  lemma HandsBack(n: nat, two: Split)
    ensures Owns(Second(n), SplitEnd(n, two).hub, 2)
    ensures KeyNacked(Second(n), SplitEnd(n, two).hub, 2, {1}) == TwoConsumers(two, n, n - 1, map[], Some(2), Waiting())
  {
    var k := SplitEnd(n, two).hub;
    var pending := k.consumers[2].pending;
    assert {1} * pending.Keys == {1} && {1} - Second(n).acked == {1} && Least({1}) == 1;
    assert pending - {1} == map[];
    assert AddAll(Second(n), Empty(true), pending, {1}) == AddOne(Second(n), Empty(true), 1, 1);
  }

  lemma WrapCloses(n: nat, two: Split)
    ensures KeyRun(SplitEnd(n, two), WrapAfter()) ==
            KeySystem(Fourth(n), TwoConsumers(two, n, n, map[], Some(2), Waiting()))
  {
    HandsBack(n, two);
    FourEvents(SplitEnd(n, two),
               KeyEvent.Nack(2, {1}), KeySystem(Second(n), TwoConsumers(two, n, n - 1, map[], Some(2), Waiting())),
               KeyEvent.Flow(2, 1), KeySystem(Second(n), TwoConsumers(two, n, n, map[], Some(2), Waiting())),
               KeyEvent.Publish(LogEntry(1, 40001)),
               KeySystem(Store(Second(n).log + [LogEntry(1, 40001)], {}),
                         TwoConsumers(two, n, n, map[], Some(2), Waiting())),
               KeyEvent.Publish(LogEntry(1, 40002)),
               KeySystem(Fourth(n), TwoConsumers(two, n, n, map[], Some(2), Waiting())));
  }

  lemma WrapHandsOver(n: nat, two: Split)
    ensures HandOver(Fourth(n), TwoConsumers(two, n, n, map[], Some(2), Waiting()), 1, 2) ==
            TwoConsumers(two, n, n - 1, map[1 := 1], Some(2), Flying())
  {
    assert Waiting().entries - {1} == map[];
  }

  /** With one unit of budget left, message 1 is redelivered. */
  lemma WrapRedelivers(n: nat, two: Split)
    requires n > 2 && two == SharesOf({1, 2})
    ensures RedeliverPhase(Fourth(n), Stage(TwoConsumers(two, n, n, map[], Some(2), Waiting()), 1, 0, true), BOTH) ==
            Stage(TwoConsumers(two, n, n - 1, map[1 := 1], Some(2), Flying()), 0, 1, true)
  {
    var k := TwoConsumers(two, n, n, map[], Some(2), Waiting());
    TwoOwners(40000);
    SelectsHashOwner(k, {1, 2}, {1, 2}, 40000, 2);
    RedeliverStep(Fourth(n), Stage(k, 1, 0, true), BOTH, 1, 2);
    WrapHandsOver(n, two);
  }

  /** Message 2 follows and the budget wraps. */
  lemma WrapFirst(n: nat, two: Split)
    requires n > 2 && two == SharesOf({1, 2})
    ensures KeyIterate(Fourth(n), Stage(TwoConsumers(two, n, n, map[], Some(2), Waiting()), 1, 0, true), BOTH) ==
            Stage(TwoConsumers(two, n, n - 2, map[1 := 1, 2 := 0], Some(3), Flying()), U32_LIMIT - 1, 2, true)
  {
    var q := Stage(TwoConsumers(two, n, n - 1, map[1 := 1], Some(2), Flying()), 0, 1, true);
    WrapRedelivers(n, two);
    TwoOwners(40001);
    SelectsHashOwner(q.hub, {1, 2}, {1, 2}, 40001, 2);
    FreshOne(Fourth(n), q, BOTH, 2, 2);
  }

  /** The wrapped budget lets message 3 follow too. */
  lemma WrapSecond(n: nat, two: Split)
    requires n > 2 && two == SharesOf({1, 2})
    ensures KeyIterate(Fourth(n), Stage(TwoConsumers(two, n, n - 2, map[1 := 1, 2 := 0], Some(3), Flying()),
                                        U32_LIMIT - 1, 2, true), BOTH) ==
            Stage(TwoConsumers(two, n, n - 3, map[1 := 1, 2 := 0, 3 := 0], Some(4), Flying()), U32_LIMIT - 2, 3, true)
  {
    var p := Stage(TwoConsumers(two, n, n - 2, map[1 := 1, 2 := 0], Some(3), Flying()), U32_LIMIT - 1, 2, true);
    TwoOwners(40002);
    SelectsHashOwner(p.hub, {1, 2}, {1, 2}, 40002, 2);
    FreshOnly(Fourth(n), p, BOTH);
    FreshOne(Fourth(n), p, BOTH, 3, 2);
  }

  lemma WrapPass(n: nat, k: KeyHub, a: Stage, b: Stage)
    requires k.total == 1 && a.go && a.left > 0 && b.go && b.left > 0
    requires KeyIterate(Fourth(n), Stage(k, 1, 0, true), BOTH) == a && KeyIterate(Fourth(n), a, BOTH) == b
    requires b.hub.ctl.entries == map[] && b.hub.read == Some(4)
    ensures KeyDispatch(Fourth(n), k, [BOTH, BOTH]) == b.(go := false)
  {
    var st, envs := Fourth(n), [BOTH, BOTH];
    assert BatchSize(k.total) == 1 && EnvAt(envs, 0) == BOTH && EnvAt(envs, 1) == BOTH;
    EndStep(st, b, EnvAt(envs, 2));
    assert KeyBatch(st, b, 2, envs) == b.(go := false);
    assert KeyBatch(st, a, 1, envs) == KeyBatch(st, b, 2, envs);
  }

  function WrapEnd(n: nat, two: Split): KeySystem {
    KeySystem(Fourth(n), TwoConsumers(two, n, n, map[], Some(2), Waiting()))
  }

  /** The next pass may send one message, and sends the three messages 1, 2 and 3 that nobody holds. */
  ghost predicate SendsThreeForOne(s: KeySystem) {
    var after := KeyDispatch(s.st, s.hub, [BOTH, BOTH]).hub;
    && BatchSize(s.hub.total) == 1 && SendsTwice(s.st, s.hub, BOTH)
    && !Owned(s.hub.consumers, 1) && !Owned(s.hub.consumers, 2) && !Owned(s.hub.consumers, 3)
    && 2 in after.consumers && after.consumers[2].pending == map[1 := 1, 2 := 0, 3 := 0]
  }

  lemma WrapsAt(st: Store, k: KeyHub)
    requires KeyIterate(st, Stage(k, 1, 0, true), BOTH).left == U32_LIMIT - 1
    ensures SendsTwice(st, k, BOTH)
  {
    BudgetWraps(st, Stage(k, 1, 0, true), BOTH);
  }

  lemma SendsThree(s: KeySystem, after: Stage)
    requires s.hub.total == 1 && SendsTwice(s.st, s.hub, BOTH)
    requires !Owned(s.hub.consumers, 1) && !Owned(s.hub.consumers, 2) && !Owned(s.hub.consumers, 3)
    requires KeyDispatch(s.st, s.hub, [BOTH, BOTH]) == after
    requires 2 in after.hub.consumers && after.hub.consumers[2].pending == map[1 := 1, 2 := 0, 3 := 0]
    ensures SendsThreeForOne(s)
  {
  }

  function WrapOut(n: nat, two: Split): Stage {
    Stage(TwoConsumers(two, n, n - 3, map[1 := 1, 2 := 0, 3 := 0], Some(4), Flying()), U32_LIMIT - 2, 3, false)
  }

  lemma WrapDispatch(n: nat, two: Split)
    requires n > 2 && two == SharesOf({1, 2})
    ensures KeyDispatch(Fourth(n), WrapEnd(n, two).hub, [BOTH, BOTH]) == WrapOut(n, two)
    ensures SendsTwice(Fourth(n), WrapEnd(n, two).hub, BOTH)
  {
    var k := WrapEnd(n, two).hub;
    var a := Stage(TwoConsumers(two, n, n - 2, map[1 := 1, 2 := 0], Some(3), Flying()), U32_LIMIT - 1, 2, true);
    assert KeyIterate(Fourth(n), Stage(k, 1, 0, true), BOTH) == a by { WrapFirst(n, two); }
    WrapsAt(Fourth(n), k);
    WrapSecond(n, two);
    WrapPass(n, k, a, WrapOut(n, two).(go := true));
  }

  lemma WrapSends(n: nat, two: Split)
    requires n > 2 && two == SharesOf({1, 2})
    ensures SendsThreeForOne(WrapEnd(n, two))
  {
    WrapDispatch(n, two);
    SendsThree(WrapEnd(n, two), WrapOut(n, two));
  }

  lemma WrapRun(n: nat, one: Split, two: Split)
    requires n > 2 && one == SharesOf({1}) && two == SharesOf({1, 2})
    ensures KeyRun(KeyInit(Store([], {})), WrapEvents(n)) == WrapEnd(n, two)
  {
    SplitRun(n, one, two);
    WrapCloses(n, two);
    RunOn(KeyInit(Store([], {})), SplitEvents(n), WrapAfter());
  }

  /** A run after which the budget wraps and a pass sends more than its budget. */
  lemma BudgetExceeded(n: nat)
    requires n > 2
    ensures SendsThreeForOne(KeyRun(KeyInit(Store([], {})), WrapEvents(n)))
  {
    WrapRun(n, SharesOf({1}), SharesOf({1, 2}));
    WrapSends(n, SharesOf({1, 2}));
  }

  // ---------------------------------------------------------------- a hash that is never served again

  /** One message and one consumer: delivered, handed back, redelivered, handed back. */
  function StuckEvents(): seq<KeyEvent> {
    StuckBefore() + StuckAfter()
  }

  function StuckBefore(): seq<KeyEvent> {
    [KeyEvent.Publish(LogEntry(1, 0)), KeyEvent.Join(1), KeyEvent.Flow(1, 1), KeyEvent.Pass([BOTH])]
  }

  function StuckAfter(): seq<KeyEvent> {
    [KeyEvent.Nack(1, {0}), KeyEvent.Flow(1, 1), KeyEvent.Pass([BOTH]), KeyEvent.Nack(1, {0})]
  }

  function Sole(): Store { Store([LogEntry(1, 0)], {}) }

  function Alone(one: Split, permits: int, pending: map<nat, nat>, read: Option<nat>, ctl: Controller): KeyHub {
    KeyHub(map[1 := Consumer(0, permits, pending)], one, permits, read, ctl)
  }

  function Queued(count: nat, inFlight: map<nat, int>, n: nat): Controller {
    Controller(map[0 := Entry(count, Some(0))], inFlight, map[0 := n], true)
  }

  function InFlight(): Controller {
    Controller(map[], map[0 := 0], map[0 := 1], true)
  }

  lemma StuckDelivers(one: Split)
    requires one == SharesOf({1})
    ensures KeyJoined(KeyInit(Sole()).hub, 1) == Alone(one, 0, map[], None, Empty(true))
    ensures KeyDispatch(Sole(), Alone(one, 1, map[], None, Empty(true)), [BOTH]).hub ==
            Alone(one, 0, map[0 := 0], Some(1), Empty(true))
  {
    assert Alone(one, 0, map[], None, Empty(true)).consumers.Keys == {1};
    TwoOwners(0);
    PassHandsOver(Sole(), Alone(one, 1, map[], None, Empty(true)), BOTH, {1}, 0, 1);
  }

  lemma StuckRedelivers(one: Split)
    requires one == SharesOf({1})
    ensures KeyDispatch(Sole(), Alone(one, 1, map[], Some(1), Queued(1, map[], 1)), [BOTH]).hub ==
            Alone(one, 0, map[0 := 1], Some(1), InFlight())
  {
    var k := Alone(one, 1, map[], Some(1), Queued(1, map[], 1));
    TwoOwners(0);
    SelectsHashOwner(k, {1, 2}, {1}, 0, 1);
    RedeliverStep(Sole(), Stage(k, 1, 0, true), BOTH, 0, 1);
    assert Queued(1, map[], 1).entries - {0} == map[];
    assert HandOver(Sole(), k, 0, 1) == Alone(one, 0, map[0 := 1], Some(1), InFlight());
    OneIteration(Sole(), k, BOTH, KeyIterate(Sole(), Stage(k, 1, 0, true), BOTH));
  }

  lemma StuckHandsBack(one: Split, count: nat, ctl: Controller, next: Controller)
    requires Add(ctl, 0, Entry(count + 1, Some(0))) == next
    ensures Owns(Sole(), Alone(one, 0, map[0 := count], Some(1), ctl), 1)
    ensures KeyNacked(Sole(), Alone(one, 0, map[0 := count], Some(1), ctl), 1, {0}) ==
            Alone(one, 0, map[], Some(1), next)
  {
    var pending := map[0 := count];
    assert {0} * pending.Keys == {0} && {0} - Sole().acked == {0} && Least({0}) == 0;
    assert pending - {0} == map[];
    assert AddAll(Sole(), ctl, pending, {0}) == AddOne(Sole(), ctl, 0, count + 1);
  }

  lemma StuckOpens(one: Split)
    requires one == SharesOf({1})
    ensures KeyRun(KeyInit(Store([], {})), StuckBefore()) ==
            KeySystem(Sole(), Alone(one, 0, map[0 := 0], Some(1), Empty(true)))
  {
    var a, b := KeyInit(Sole()).hub, Alone(one, 0, map[], None, Empty(true));
    var c, d := Alone(one, 1, map[], None, Empty(true)), Alone(one, 0, map[0 := 0], Some(1), Empty(true));
    PublishesTo(Store([], {}), a, LogEntry(1, 0), Sole());
    assert KeyJoined(a, 1) == b && KeyDispatch(Sole(), c, [BOTH]).hub == d by { StuckDelivers(one); }
    JoinsTo(Sole(), a, 1, b);
    assert KeyFlowed(b, 1, 1) == c by { StuckFlows(one, None, Empty(true)); }
    FlowsTo(Sole(), b, 1, 1, c);
    PassesTo(Sole(), c, [BOTH], d);
    FourEvents(KeyInit(Store([], {})), KeyEvent.Publish(LogEntry(1, 0)), KeySystem(Sole(), a),
               KeyEvent.Join(1), KeySystem(Sole(), b), KeyEvent.Flow(1, 1), KeySystem(Sole(), c),
               KeyEvent.Pass([BOTH]), KeySystem(Sole(), d));
  }

  function StuckEnd(one: Split): KeySystem {
    KeySystem(Sole(), Alone(one, 0, map[], Some(1), Queued(2, map[0 := 0], 2)))
  }

  lemma StuckFlows(one: Split, read: Option<nat>, ctl: Controller)
    ensures KeyFlowed(Alone(one, 0, map[], read, ctl), 1, 1) == Alone(one, 1, map[], read, ctl)
  {
  }

  lemma StuckCloses(one: Split)
    requires one == SharesOf({1})
    ensures KeyRun(KeySystem(Sole(), Alone(one, 0, map[0 := 0], Some(1), Empty(true))), StuckAfter()) == StuckEnd(one)
  {
    var a, b := Alone(one, 0, map[0 := 0], Some(1), Empty(true)), Alone(one, 0, map[], Some(1), Queued(1, map[], 1));
    var c, d := Alone(one, 1, map[], Some(1), Queued(1, map[], 1)), Alone(one, 0, map[0 := 1], Some(1), InFlight());
    var e := StuckEnd(one).hub;
    StuckHandsBack(one, 0, Empty(true), Queued(1, map[], 1));
    NacksTo(Sole(), a, 1, {0}, b);
    assert KeyFlowed(b, 1, 1) == c by { StuckFlows(one, Some(1), Queued(1, map[], 1)); }
    FlowsTo(Sole(), b, 1, 1, c);
    assert KeyDispatch(Sole(), c, [BOTH]).hub == d by { StuckRedelivers(one); }
    PassesTo(Sole(), c, [BOTH], d);
    StuckHandsBack(one, 1, InFlight(), Queued(2, map[0 := 0], 2));
    NacksTo(Sole(), d, 1, {0}, e);
    FourEvents(KeySystem(Sole(), a), KeyEvent.Nack(1, {0}), KeySystem(Sole(), b), KeyEvent.Flow(1, 1),
               KeySystem(Sole(), c), KeyEvent.Pass([BOTH]), KeySystem(Sole(), d),
               KeyEvent.Nack(1, {0}), KeySystem(Sole(), e));
  }

  /** A run whose only message is queued while its own redelivery still counts as in flight. */
  lemma RunSticks()
    ensures Stuck(KeyRun(KeyInit(Store([], {})), StuckEvents()).hub, 0)
  {
    var one := SharesOf({1});
    StuckOpens(one);
    StuckCloses(one);
    RunOn(KeyInit(Store([], {})), StuckBefore(), StuckAfter());
  }

  /** From there on it is never delivered again unless the subscription seeks. */
  lemma StuckForGood(events: seq<KeyEvent>)
    requires forall i :: 0 <= i < |events| ==> !events[i].Seek?
    ensures var s := KeyRun(KeyInit(Store([], {})), StuckEvents() + events);
            Stuck(s.hub, 0) && !Owned(s.hub.consumers, 0)
  {
    var s := KeyRun(KeyInit(Store([], {})), StuckEvents());
    RunSticks();
    KeyInitInv(Store([], {}));
    KeyRunKeeps(KeyInit(Store([], {})), StuckEvents());
    StuckUntilSeek(s, events, 0);
    RunOn(KeyInit(Store([], {})), StuckEvents(), events);
    KeyRunKeeps(s, events);
    StuckIsUnowned(KeyRun(s, events), 0);
  }

  lemma StuckIsUnowned(s: KeySystem, m: nat)
    requires KeyInv(s.st, s.hub) && Stuck(s.hub, m)
    ensures !Owned(s.hub.consumers, m)
  {
    assert m in AsHub(s.hub).queue;
  }

  // ---------------------------------------------------------------- a seek that keeps a pending message

  function Pair(acked: set<nat>): Store { Store([LogEntry(1, 0), LogEntry(1, 0)], acked) }

  /** Message 0 is acknowledged and message 1 delivered; the subscription seeks back before both while consumer 1
      keeps message 1, which it then hands back. */
  function SeekEvents(): seq<KeyEvent> {
    [KeyEvent.Join(1), KeyEvent.Flow(1, 1), KeyEvent.Pass([BOTH]), KeyEvent.Seek(0, {1})]
    + [KeyEvent.Nack(1, {1})] + [KeyEvent.Flow(1, 1)]
  }

  function QueuedOne(): Controller {
    Controller(map[1 := Entry(1, Some(0))], map[], map[0 := 1], true)
  }

  lemma SeekDelivers(one: Split)
    requires one == SharesOf({1})
    ensures KeyJoined(KeyInit(Pair({0})).hub, 1) == Alone(one, 0, map[], None, Empty(true))
    ensures KeyDispatch(Pair({0}), Alone(one, 1, map[], None, Empty(true)), [BOTH]).hub ==
            Alone(one, 0, map[1 := 0], Some(2), Empty(true))
  {
    assert Alone(one, 0, map[], None, Empty(true)).consumers.Keys == {1};
    assert SkipAcked(Pair({0}), 0) == 1;
    TwoOwners(0);
    PassHandsOver(Pair({0}), Alone(one, 1, map[], None, Empty(true)), BOTH, {1}, 1, 1);
  }

  lemma SeekKeeps(one: Split)
    ensures SoughtStore(Pair({0}), 0) == Pair({})
    ensures KeySought(Pair({0}), Alone(one, 0, map[1 := 0], Some(2), Empty(true)), 0, {1}) ==
            Alone(one, 0, map[1 := 0], Some(0), Empty(true))
  {
    var consumers := map[1 := Consumer(0, 0, map[1 := 0])];
    assert Drained(consumers, {1}) == consumers;
  }

  lemma SeekHandsBack(one: Split)
    ensures Owns(Pair({}), Alone(one, 0, map[1 := 0], Some(0), Empty(true)), 1)
    ensures KeyNacked(Pair({}), Alone(one, 0, map[1 := 0], Some(0), Empty(true)), 1, {1}) ==
            Alone(one, 0, map[], Some(0), QueuedOne())
  {
    var pending: map<nat, nat> := map[1 := 0];
    assert {1} * pending.Keys == {1} && {1} - Pair({}).acked == {1} && Least({1}) == 1;
    assert pending - {1} == map[];
    assert AddAll(Pair({}), Empty(true), pending, {1}) == AddOne(Pair({}), Empty(true), 1, 1);
  }

  lemma SeeksTo(st: Store, k: KeyHub, to: nat, kept: set<nat>, after: Store, next: KeyHub)
    requires SoughtStore(st, to) == after && KeySought(st, k, to, kept) == next
    ensures KeyNext(KeySystem(st, k), KeyEvent.Seek(to, kept)) == KeySystem(after, next)
  {
  }

  function SeekEnd(one: Split): KeySystem {
    KeySystem(Pair({}), Alone(one, 1, map[], Some(0), QueuedOne()))
  }

  lemma SeekRun(one: Split)
    requires one == SharesOf({1})
    ensures KeyRun(KeyInit(Pair({0})), SeekEvents()) == SeekEnd(one)
  {
    var init := KeyInit(Pair({0}));
    var b, c := Alone(one, 0, map[], None, Empty(true)), Alone(one, 1, map[], None, Empty(true));
    var d, e := Alone(one, 0, map[1 := 0], Some(2), Empty(true)), Alone(one, 0, map[1 := 0], Some(0), Empty(true));
    var f := Alone(one, 0, map[], Some(0), QueuedOne());
    assert KeyJoined(init.hub, 1) == b && KeyDispatch(Pair({0}), c, [BOTH]).hub == d by { SeekDelivers(one); }
    JoinsTo(Pair({0}), init.hub, 1, b);
    StuckFlows(one, None, Empty(true));
    FlowsTo(Pair({0}), b, 1, 1, c);
    PassesTo(Pair({0}), c, [BOTH], d);
    SeekKeeps(one);
    SeeksTo(Pair({0}), d, 0, {1}, Pair({}), e);
    FourEvents(init, KeyEvent.Join(1), KeySystem(Pair({0}), b), KeyEvent.Flow(1, 1), KeySystem(Pair({0}), c),
               KeyEvent.Pass([BOTH]), KeySystem(Pair({0}), d), KeyEvent.Seek(0, {1}), KeySystem(Pair({}), e));
    SeekCloses(one, init);
  }

  lemma SeekCloses(one: Split, init: KeySystem)
    requires var es := [KeyEvent.Join(1), KeyEvent.Flow(1, 1), KeyEvent.Pass([BOTH]), KeyEvent.Seek(0, {1})];
             KeyRun(init, es) == KeySystem(Pair({}), Alone(one, 0, map[1 := 0], Some(0), Empty(true)))
    ensures KeyRun(init, SeekEvents()) == SeekEnd(one)
  {
    var es := [KeyEvent.Join(1), KeyEvent.Flow(1, 1), KeyEvent.Pass([BOTH]), KeyEvent.Seek(0, {1})];
    var e, f := Alone(one, 0, map[1 := 0], Some(0), Empty(true)), Alone(one, 0, map[], Some(0), QueuedOne());
    SeekHandsBack(one);
    NacksTo(Pair({}), e, 1, {1}, f);
    Then(init, es, KeySystem(Pair({}), e), KeyEvent.Nack(1, {1}), KeySystem(Pair({}), f));
    StuckFlows(one, Some(0), QueuedOne());
    FlowsTo(Pair({}), f, 1, 1, SeekEnd(one).hub);
    Then(init, es + [KeyEvent.Nack(1, {1})], KeySystem(Pair({}), f), KeyEvent.Flow(1, 1), SeekEnd(one));
  }

  /** The queued message 1 is found although message 0 of the same hash is unread. */
  lemma SeekFinds(one: Split)
    requires one == SharesOf({1})
    ensures var p := Stage(SeekEnd(one).hub, 1, 0, true); RedeliverSent(Pair({}), p, BOTH) == [1]
  {
    var k := SeekEnd(one).hub;
    TwoOwners(0);
    SelectsHashOwner(k, {1, 2}, {1}, 0, 1);
    assert k.ctl.entries.Keys == {1} && Least({1}) == 1;
  }

  lemma FirstSent(st: Store, k: KeyHub, m: nat)
    requires k.total == 1 && RedeliverSent(st, Stage(k, 1, 0, true), BOTH) == [m]
    ensures var sent := PassSent(st, Stage(k, 1, 0, true), 0, [BOTH]); |sent| > 0 && sent[0] == m
  {
    assert EnvAt([BOTH], 0) == BOTH;
  }

  /** A run with a seek that keeps a pending message: the next pass hands out message 1 before message 0. */
  lemma SeekBreaksOrder()
    ensures var s := KeyRun(KeyInit(Pair({0})), SeekEvents());
            !InOrder(s.st, s.hub.consumers, PassSent(s.st, Stage(s.hub, BatchSize(s.hub.total), 0, true), 0, [BOTH]))
  {
    var s := SeekEnd(SharesOf({1}));
    SeekRun(SharesOf({1}));
    SeekFinds(SharesOf({1}));
    FirstSent(s.st, s.hub, 1);
    NotInOrder(s.st, s.hub.consumers, PassSent(s.st, Stage(s.hub, 1, 0, true), 0, [BOTH]));
  }

  lemma NotInOrder(st: Store, consumers: map<nat, Consumer>, sent: seq<nat>)
    requires st == Pair({}) && !Owned(consumers, 0) && |sent| > 0 && sent[0] == 1
    ensures !InOrder(st, consumers, sent)
  {
    assert sent[..0] == [];
  }
}
