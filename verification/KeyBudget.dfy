/**
 How many messages a Key_Shared pass sends against its budget, a 32-bit counter that wraps.
 */
module KeyBudget {
  import opened Base
  import opened SharedDispatch
  import opened KeyShared
  import opened KeySharedRuns
  import opened KeyRunOrder
  import opened KeyProgress
  import opened KeyHistory
  import opened Redelivery
  import opened KeySharedDispatchers

  lemma RedeliverBudget(st: Store, p: Stage, env: Env)
    requires KeyInv(st, p.hub) && p.go && 0 < p.left
    ensures var q, found := RedeliverPhase(st, p, env), Scan(st, p.hub, p.hub.ctl.entries.Keys, env.writable).1;
            && q.left == p.left - (if found.Some? then 1 else 0) && (q.go <==> found.None? || env.sent)
            && |RedeliverSent(st, p, env)| == (if found.Some? && env.sent then 1 else 0)
            && (SendsTwice(st, p.hub, env) <==>
                  found.Some? && env.sent && FreshFollows(st, q.hub, env.writableFresh))
  {
    ScanExact(st, p.hub, p.hub.ctl.entries.Keys, env.writable);
  }

  /** Without a fresh attempt the fresh half ends the pass or spends nothing. */
  lemma FreshBudget(st: Store, p: Stage, env: Env)
    requires p.go
    ensures var q, follows := FreshPhase(st, p, env), FreshFollows(st, p.hub, env.writableFresh);
            && q.left == (if follows then Spend(p.left) else p.left)
            && (follows ==> (q.go <==> env.sentFresh))
            && |FreshSent(st, p, env)| == (if follows && env.sentFresh then 1 else 0)
  {
    FreshSpends(st, p, env);
    var r := ReadFrom(st, p.hub.read);
    if r.Some? {
      var x := SkipBusy(st, p.hub.consumers, r.value);
      if x < |st.log| { SelectSame(p.hub, p.hub.(read := Some(x)), env.writableFresh, st.log[x].hash, 0); }
    }
  }

  /** An iteration that does not wrap the budget spends one unit for each message it sends, and more only when a
      failed send ends the pass. */
  lemma IterateBudget(st: Store, p: Stage, env: Env)
    requires KeyInv(st, p.hub) && p.go && 0 < p.left
    ensures var q, n := KeyIterate(st, p, env), |IterateSent(st, p, env)|;
            if p.left == 1 && SendsTwice(st, p.hub, env) then
              n == (if env.sentFresh then 2 else 1) && (q.go <==> env.sentFresh)
            else
              n <= p.left - q.left && (q.go ==> n == p.left - q.left)
  {
    var q := RedeliverPhase(st, p, env);
    RedeliverBudget(st, p, env);
    if q.go { FreshBudget(st, q, env); }
  }

  /** Some iteration spends the last unit on a redelivery and then sends a fresh message too. */
  predicate Overruns(st: Store, p: Stage, i: nat, envs: seq<Env>)
    requires p.go
    decreases Unread(st, p.hub.read)
  {
    p.left != 0 &&
    var env := EnvAt(envs, i);
    IterateReads(st, p, env);
    var q := KeyIterate(st, p, env);
    if p.left == 1 && SendsTwice(st, p.hub, env) then env.sentFresh else q.go && Overruns(st, q, i + 1, envs)
  }

  /** A pass sends more messages than its budget exactly when it overruns. */
  lemma {:induction false} BudgetExact(st: Store, p: Stage, i: nat, envs: seq<Env>)
    requires KeyInv(st, p.hub) && p.go
    ensures |PassSent(st, p, i, envs)| > p.left <==> Overruns(st, p, i, envs)
    decreases Unread(st, p.hub.read)
  {
    if p.left != 0 {
      var env := EnvAt(envs, i);
      var q := KeyIterate(st, p, env);
      IterateReads(st, p, env);
      IterateBudget(st, p, env);
      if q.go && !(p.left == 1 && SendsTwice(st, p.hub, env)) {
        IterateKeeps(st, p, env);
        BudgetExact(st, q, i + 1, envs);
      }
    }
  }

  /** In every reachable state a pass keeps within the 20 messages of a batch, and within the permits, unless it
      overruns. */
  lemma PassKeepsBudget(st: Store, events: seq<KeyEvent>, envs: seq<Env>)
    ensures var s := KeyRun(KeyInit(st), events);
            var p := Stage(s.hub, BatchSize(s.hub.total), 0, true);
            |PassSent(s.st, p, 0, envs)| <= BatchSize(s.hub.total) <==> !Overruns(s.st, p, 0, envs)
  {
    var s := KeyRun(KeyInit(st), events);
    KeyInitInv(st);
    KeyRunKeeps(KeyInit(st), events);
    BudgetExact(s.st, Stage(s.hub, BatchSize(s.hub.total), 0, true), 0, envs);
  }

  // ---------------------------------------------------------------- ruling an overrun out

  /** Every queued unacknowledged message waits for a redelivery of its hash that is in flight. */
  ghost predicate Waits(st: Store, ctl: Controller) {
    forall m :: m in ctl.entries && m < |st.log| && m !in st.acked ==> HashInFlight(ctl, st.log[m].hash)
  }

  /** A scan that finds nothing leaves no acknowledged message it visited. */
  lemma {:induction false} ScanDropsAcked(st: Store, k: KeyHub, todo: set<nat>, writable: set<nat>)
    ensures var (after, found) := Scan(st, k, todo, writable);
            found.None? ==> forall m :: m in after.ctl.entries && m in st.acked ==> m in k.ctl.entries && m !in todo
    decreases |todo|
  {
    if todo != {} {
      var m := Least(todo);
      var next, rest := k.(ctl := Remove(k.ctl, m)), todo - {m};
      if m in st.acked || m >= |st.log| {
        RemoveShape(k.ctl, m);
        ScanDropsAcked(st, next, rest, writable);
      } else {
        ScanDropsAcked(st, k, rest, writable);
      }
    }
  }

  /** With all queued messages waiting there is nothing to redeliver. */
  lemma WaitsFindsNothing(st: Store, p: Stage, env: Env)
    requires KeyInv(st, p.hub) && Waits(st, p.hub.ctl)
    ensures !SendsTwice(st, p.hub, env) && RedeliverSent(st, p, env) == []
    ensures var q := RedeliverPhase(st, p, env);
            && q.left == p.left && q.go == p.go && KeyInv(st, q.hub) && Waits(st, q.hub.ctl)
            && forall m :: m in q.hub.ctl.entries ==> m !in st.acked
  {
    var todo := p.hub.ctl.entries.Keys;
    ScanFindsFirst(st, p.hub, todo, env.writable);
    ScanExact(st, p.hub, todo, env.writable);
    ScanEntries(st, p.hub, todo, env.writable);
    ScanDropsAcked(st, p.hub, todo, env.writable);
  }

  lemma FreshWaits(st: Store, p: Stage, env: Env)
    requires KeyInv(st, p.hub) && Waits(st, p.hub.ctl) && forall m :: m in p.hub.ctl.entries ==> m !in st.acked
    ensures FreshPhase(st, p, env).go ==> Waits(st, FreshPhase(st, p, env).hub.ctl)
  {
    var r := ReadFrom(st, p.hub.read);
    if r.Some? {
      var m := SkipBusy(st, p.hub.consumers, r.value);
      if m < |st.log| && Blocked(p.hub.ctl, st.log[m].hash) {
        BlockedWaits(st, p.hub, st.log[m].hash);
        AddShape(p.hub.ctl, m, Entry(0, Some(st.log[m].hash)));
        AddWaits(st, p.hub.ctl, FreshPhase(st, p, env).hub.ctl, m);
      }
    }
  }

  lemma AddWaits(st: Store, ctl: Controller, after: Controller, m: nat)
    requires Waits(st, ctl) && m < |st.log| && HashInFlight(ctl, st.log[m].hash)
    requires after.inFlight == ctl.inFlight && m in after.entries && after.entries == ctl.entries[m := after.entries[m]]
    ensures Waits(st, after)
  {
  }

  lemma BlockedWaits(st: Store, k: KeyHub, hash: int)
    requires KeyInv(st, k) && Waits(st, k.ctl) && Blocked(k.ctl, hash)
    requires forall m :: m in k.ctl.entries ==> m !in st.acked
    ensures HashInFlight(k.ctl, hash)
  {
    BlockedExact(k.ctl, hash);
    if m :| m in QueuedWith(k.ctl.entries, hash) {
      assert m in k.ctl.entries && k.ctl.entries[m].hash == Some(st.log[m].hash);
    }
  }

  lemma {:induction false} WaitsNeverOverruns(st: Store, p: Stage, i: nat, envs: seq<Env>)
    requires KeyInv(st, p.hub) && Waits(st, p.hub.ctl) && p.go
    ensures !Overruns(st, p, i, envs)
    decreases Unread(st, p.hub.read)
  {
    if p.left != 0 {
      var env := EnvAt(envs, i);
      IterateReads(st, p, env);
      IterateKeeps(st, p, env);
      WaitsFindsNothing(st, p, env);
      FreshWaits(st, RedeliverPhase(st, p, env), env);
      if KeyIterate(st, p, env).go { WaitsNeverOverruns(st, KeyIterate(st, p, env), i + 1, envs); }
    }
  }

  /** A pass keeps its budget, whatever consumers can take and whichever sends fail, when it starts with every queued
      unacknowledged message waiting for its hash, and so with nothing queued. */
  lemma WaitsKeepsBudget(st: Store, k: KeyHub, envs: seq<Env>)
    requires KeyInv(st, k) && Waits(st, k.ctl)
    ensures |PassSent(st, Stage(k, BatchSize(k.total), 0, true), 0, envs)| <= BatchSize(k.total)
  {
    var p := Stage(k, BatchSize(k.total), 0, true);
    WaitsNeverOverruns(st, p, 0, envs);
    BudgetExact(st, p, 0, envs);
  }
}
