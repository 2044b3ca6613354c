/**
 Key order in Key_Shared delivery: what each iteration may hand out, and the hashes that can never
 be served again without a seek.
 */
module KeyOrder {
  import opened Base
  import opened SharedDispatch
  import opened Redelivery
  import opened KeyShared
  import opened KeySharedRuns

  /** `m` has an owner in `after` that it did not have in `before`. */
  ghost predicate Gained(before: KeyHub, after: KeyHub, m: nat) {
    Owned(after.consumers, m) && !Owned(before.consumers, m)
  }

  /** `m` may be redelivered: queued, unacknowledged, nothing of its hash in flight, lowest of its hash. */
  ghost predicate RedeliverableNow(st: Store, ctl: Controller, m: nat) {
    && m in ctl.entries && m < |st.log| && m !in st.acked && !HashInFlight(ctl, st.log[m].hash)
    && forall x :: x in ctl.entries && x < |st.log| && x !in st.acked && st.log[x].hash == st.log[m].hash ==> m <= x
  }

  /** `m` may be sent fresh: no redelivery of its hash is queued or in flight. */
  ghost predicate SendableNow(st: Store, ctl: Controller, m: nat) {
    && m < |st.log| && m !in st.acked && !HashInFlight(ctl, st.log[m].hash)
    && forall x :: x in ctl.entries && x < |st.log| ==> st.log[x].hash != st.log[m].hash
  }

  lemma HandOverOwned(st: Store, k: KeyHub, m: nat, c: nat)
    requires KeyInv(st, k) && Found(st, k, m, c)
    ensures forall x :: Owned(HandOver(st, k, m, c).consumers, x) <==> Owned(k.consumers, x) || x == m
  {
    var h := AsHub(k);
    HandOverHub(st, k, m, c);
    assert m in h.queue;
    DeliverOwner(h.(queue := h.queue - {m}), c, m, k.ctl.entries[m].count, st.log[m].messages);
  }

  lemma FoundRedeliverable(st: Store, k: KeyHub, after: KeyHub, m: nat, c: nat)
    requires Found(st, after, m, c) && m in k.ctl.entries && after.ctl.inFlight == k.ctl.inFlight
    requires k.ctl.entries.Keys - st.acked <= after.ctl.entries.Keys
    ensures RedeliverableNow(st, k.ctl, m)
  {
    forall x | x in k.ctl.entries && x < |st.log| && x !in st.acked && st.log[x].hash == st.log[m].hash ensures m <= x {
      assert x in k.ctl.entries.Keys - st.acked;
    }
  }

  /** The redelivery phase hands out only the lowest queued message of a hash with nothing in flight. */
  lemma {:induction false} RedeliveryKeepsKeyOrder(st: Store, p: Stage, env: Env, m: nat)
    requires KeyInv(st, p.hub) && Gained(p.hub, RedeliverPhase(st, p, env).hub, m)
    ensures RedeliverableNow(st, p.hub.ctl, m)
  {
    var todo := p.hub.ctl.entries.Keys;
    var scan := Scan(st, p.hub, todo, env.writable);
    ScanExact(st, p.hub, todo, env.writable);
    ScanKeepsRead(st, p.hub, todo, env.writable);
    ScanFinds(st, p.hub, todo, env.writable);
    if scan.1.Some? {
      var (x, c) := scan.1.value;
      HandOverOwned(st, scan.0, x, c);
      FoundRedeliverable(st, p.hub, scan.0, x, c);
    }
  }

  lemma {:induction false} ScanFinds(st: Store, k: KeyHub, todo: set<nat>, writable: set<nat>)
    ensures Scan(st, k, todo, writable).1.Some? ==> Scan(st, k, todo, writable).1.value.0 in todo
    decreases |todo|
  {
    if todo != {} {
      var m := Least(todo);
      ScanFinds(st, k.(ctl := Remove(k.ctl, m)), todo - {m}, writable);
      ScanFinds(st, k, todo - {m}, writable);
    }
  }

  /** The fresh phase hands out only a message whose hash has no outstanding redelivery. */
  lemma {:induction false} FreshKeepsKeyOrder(st: Store, p: Stage, env: Env, m: nat)
    requires KeyInv(st, p.hub) && Gained(p.hub, FreshPhase(st, p, env).hub, m)
    ensures SendableNow(st, p.hub.ctl, m)
  {
    var x := SkipBusy(st, p.hub.consumers, ReadFrom(st, p.hub.read).value);
    var at := p.(hub := p.hub.(read := Some(x)));
    FreshGains(st, at, x, env, m);
    UnblockedIsNowhere(st, p.hub, m);
  }

  lemma {:induction false} FreshGains(st: Store, p: Stage, x: nat, env: Env, m: nat)
    requires x < |st.log| && Gained(p.hub, KeySendFresh(st, p, x, env).hub, m)
    ensures m == x && !Blocked(p.hub.ctl, st.log[x].hash)
  {
    var after := KeySendFresh(st, p, x, env).hub;
    var c :| c in after.consumers && m in after.consumers[c].pending;
    assert Blocked(p.hub.ctl, st.log[x].hash) ==> after.consumers == p.hub.consumers;
    assert c in p.hub.consumers;
    assert m in p.hub.consumers[c].pending ==> Owned(p.hub.consumers, m);
  }

  // ---------------------------------------------------------------- stuck hashes

  /** Queued again while its redelivery still counts as in flight. */
  ghost predicate Stuck(k: KeyHub, m: nat) {
    m in k.ctl.entries && m in k.ctl.inFlight
  }

  /** No message of the hash found an owner. */
  ghost predicate NoneServed(log: seq<LogEntry>, before: KeyHub, after: KeyHub, hash: int) {
    forall x: nat :: Gained(before, after, x) && x < |log| ==> log[x].hash != hash
  }

  lemma NoneServedAgain(log: seq<LogEntry>, a: KeyHub, b: KeyHub, c: KeyHub, hash: int)
    requires NoneServed(log, a, b, hash) && NoneServed(log, b, c, hash)
    ensures NoneServed(log, a, c, hash)
  {
    forall x: nat | Gained(a, c, x) && x < |log| ensures log[x].hash != hash {
      assert Gained(a, b, x) || Gained(b, c, x);
    }
  }

  lemma {:induction false} RedeliverPhaseStuck(st: Store, p: Stage, env: Env, m: nat)
    requires KeyInv(st, p.hub) && Stuck(p.hub, m)
    ensures Stuck(RedeliverPhase(st, p, env).hub, m)
  {
    var todo := p.hub.ctl.entries.Keys;
    var scan := Scan(st, p.hub, todo, env.writable);
    ScanExact(st, p.hub, todo, env.writable);
    assert m in p.hub.ctl.entries.Keys - st.acked;
    if scan.1.Some? { SendQueuedStuck(st, p.(hub := scan.0), scan.1.value.0, scan.1.value.1, env.sent, m); }
  }

  lemma {:induction false} RedeliverPhaseServes(st: Store, p: Stage, env: Env, m: nat)
    requires KeyInv(st, p.hub) && Stuck(p.hub, m)
    ensures NoneServed(st.log, p.hub, RedeliverPhase(st, p, env).hub, st.log[m].hash)
  {
    assert HashInFlight(p.hub.ctl, st.log[m].hash);
    forall x: nat | Gained(p.hub, RedeliverPhase(st, p, env).hub, x) && x < |st.log|
      ensures st.log[x].hash != st.log[m].hash
    {
      RedeliveryKeepsKeyOrder(st, p, env, x);
    }
  }

  lemma SendQueuedStuck(st: Store, p: Stage, x: nat, c: nat, ok: bool, m: nat)
    requires KeyInv(st, p.hub) && Found(st, p.hub, x, c) && Stuck(p.hub, m)
    ensures Stuck(SendQueued(st, p, x, c, ok).hub, m)
  {
    var ctl := p.hub.ctl;
    assert x != m && x !in ctl.inFlight;
    TakeShape(ctl, x, st.log[x].hash);
    TakeRestoreShape(ctl, x, st.log[x].hash, Entry(ctl.entries[x].count + 1, Some(st.log[x].hash)));
  }

  lemma {:induction false} FreshPhaseStuck(st: Store, p: Stage, env: Env, m: nat)
    requires KeyInv(st, p.hub) && Stuck(p.hub, m)
    ensures Stuck(FreshPhase(st, p, env).hub, m)
  {
    var from := ReadFrom(st, p.hub.read);
    if from.Some? {
      var x := SkipBusy(st, p.hub.consumers, from.value);
      if x < |st.log| { SendFreshStuck(st, p.(hub := p.hub.(read := Some(x))), x, env, m); }
    }
  }

  lemma {:induction false} FreshPhaseServes(st: Store, p: Stage, env: Env, m: nat)
    requires KeyInv(st, p.hub) && Stuck(p.hub, m)
    ensures NoneServed(st.log, p.hub, FreshPhase(st, p, env).hub, st.log[m].hash)
  {
    assert HashInFlight(p.hub.ctl, st.log[m].hash);
    forall x: nat | Gained(p.hub, FreshPhase(st, p, env).hub, x) && x < |st.log|
      ensures st.log[x].hash != st.log[m].hash
    {
      FreshKeepsKeyOrder(st, p, env, x);
    }
  }

  lemma SendFreshStuck(st: Store, p: Stage, x: nat, env: Env, m: nat)
    requires Tracked(st, p.hub.ctl) && x < |st.log| && Stuck(p.hub, m)
    ensures Stuck(KeySendFresh(st, p, x, env).hub, m)
  {
    var ctl, hash := p.hub.ctl, st.log[x].hash;
    AddShape(ctl, x, Entry(0, Some(hash)));
    if !Blocked(ctl, hash) {
      BlockedExact(ctl, hash);
      assert x !in ctl.inFlight;
      AddShape(ctl, x, Entry(1, Some(hash)));
    }
  }

  lemma {:induction false} BatchStuck(st: Store, p: Stage, i: nat, envs: seq<Env>, m: nat)
    requires KeyInv(st, p.hub) && Stuck(p.hub, m) && p.go
    ensures Stuck(KeyBatch(st, p, i, envs).hub, m)
    ensures NoneServed(st.log, p.hub, KeyBatch(st, p, i, envs).hub, st.log[m].hash)
    decreases Unread(st, p.hub.read)
  {
    if p.left != 0 {
      var env := EnvAt(envs, i);
      var r, q := RedeliverPhase(st, p, env), KeyIterate(st, p, env);
      RedeliverPhaseStuck(st, p, env, m);
      RedeliverPhaseServes(st, p, env, m);
      RedeliverPhaseKeeps(st, p, env);
      IterateKeeps(st, p, env);
      IterateReads(st, p, env);
      if r.go {
        FreshPhaseStuck(st, r, env, m);
        FreshPhaseServes(st, r, env, m);
        NoneServedAgain(st.log, p.hub, r.hub, q.hub, st.log[m].hash);
      }
      if q.go {
        BatchStuck(st, q, i + 1, envs, m);
        NoneServedAgain(st.log, p.hub, q.hub, KeyBatch(st, q, i + 1, envs).hub, st.log[m].hash);
      }
    }
  }

  lemma AckedStuck(st: Store, k: KeyHub, ids: set<nat>, m: nat)
    requires KeyInv(st, k) && Stuck(k, m)
    ensures Stuck(KeyAcked(st, k, ids), m)
    ensures forall x: nat :: !Gained(k, KeyAcked(st, k, ids), x)
  {
    var owned := OwnedAmong(k.consumers, ids);
    var after := KeyAcked(st, k, ids);
    assert m in AsHub(k).queue && !Owned(k.consumers, m);
    if owned != {} {
      var mid := RemoveAll(k.ctl, owned);
      RemoveAllShape(k.ctl, owned);
      RemoveAllShape(mid, mid.entries.Keys * (st.acked + owned));
      forall x: nat ensures !Gained(k, after, x) { DropAllOwned(k.consumers, owned, x); }
    }
  }

  lemma SubsetGainsNothing(before: KeyHub, after: KeyHub)
    requires forall c :: c in after.consumers ==> c in before.consumers || after.consumers[c].pending == map[]
    requires forall c :: c in after.consumers && c in before.consumers ==>
               after.consumers[c].pending.Keys <= before.consumers[c].pending.Keys
    ensures forall x: nat :: !Gained(before, after, x)
  {
    forall x | Owned(after.consumers, x) ensures Owned(before.consumers, x) {
      var c :| c in after.consumers && x in after.consumers[c].pending;
      assert c in before.consumers && x in before.consumers[c].pending;
    }
  }

  lemma NackedStuck(st: Store, k: KeyHub, c: nat, ids: set<nat>, m: nat)
    requires KeyInv(st, k) && Stuck(k, m) && Owns(st, k, c)
    ensures Stuck(KeyNacked(st, k, c, ids), m) && forall x: nat :: !Gained(k, KeyNacked(st, k, c, ids), x)
  {
    var pending := k.consumers[c].pending;
    AddAllShape(st, k.ctl, pending, ids * pending.Keys - st.acked);
    SubsetGainsNothing(k, KeyNacked(st, k, c, ids));
  }

  lemma LeftStuck(st: Store, k: KeyHub, c: nat, m: nat)
    requires KeyInv(st, k) && Stuck(k, m) && Owns(st, k, c)
    ensures Stuck(KeyLeft(st, k, c), m) && forall x: nat :: !Gained(k, KeyLeft(st, k, c), x)
  {
    AddAllShape(st, k.ctl, k.consumers[c].pending, k.consumers[c].pending.Keys);
    SubsetGainsNothing(k, KeyLeft(st, k, c));
  }

  lemma ServingStuck(s: KeySystem, e: KeyEvent, m: nat)
    requires KeyInv(s.st, s.hub) && Stuck(s.hub, m) && (e.Publish? || e.Join? || e.Flow? || e.Pass?)
    ensures s.st.log <= KeyNext(s, e).st.log && Stuck(KeyNext(s, e).hub, m)
    ensures NoneServed(KeyNext(s, e).st.log, s.hub, KeyNext(s, e).hub, s.st.log[m].hash)
  {
    match e
    case Publish(entry) =>
    case Join(c) => SubsetGainsNothing(s.hub, KeyJoined(s.hub, c));
    case Flow(c, n) => SubsetGainsNothing(s.hub, KeyFlowed(s.hub, c, n));
    case Pass(envs) => BatchStuck(s.st, Stage(s.hub, BatchSize(s.hub.total), 0, true), 0, envs, m);
  }

  lemma StuckAt(k: KeyHub, m: nat, before: KeyHub, s: KeySystem, hash: int)
    requires Stuck(k, m) && s.hub == k && forall x: nat :: !Gained(before, k, x)
    ensures Stuck(s.hub, m) && NoneServed(s.st.log, before, s.hub, hash)
  {
  }

  lemma NackStuck(s: KeySystem, e: KeyEvent, m: nat)
    requires KeyInv(s.st, s.hub) && Stuck(s.hub, m) && e.Nack?
    ensures s.st.log <= KeyNext(s, e).st.log && Stuck(KeyNext(s, e).hub, m)
    ensures NoneServed(KeyNext(s, e).st.log, s.hub, KeyNext(s, e).hub, s.st.log[m].hash)
  {
    if Owns(s.st, s.hub, e.c) {
      NackedStuck(s.st, s.hub, e.c, e.ids, m);
      StuckAt(KeyNacked(s.st, s.hub, e.c, e.ids), m, s.hub, KeyNext(s, e), s.st.log[m].hash);
    } else {
      StuckAt(s.hub, m, s.hub, KeyNext(s, e), s.st.log[m].hash);
    }
  }

  lemma LeaveStuck(s: KeySystem, e: KeyEvent, m: nat)
    requires KeyInv(s.st, s.hub) && Stuck(s.hub, m) && e.Leave?
    ensures s.st.log <= KeyNext(s, e).st.log && Stuck(KeyNext(s, e).hub, m)
    ensures NoneServed(KeyNext(s, e).st.log, s.hub, KeyNext(s, e).hub, s.st.log[m].hash)
  {
    if Owns(s.st, s.hub, e.c) {
      LeftStuck(s.st, s.hub, e.c, m);
      StuckAt(KeyLeft(s.st, s.hub, e.c), m, s.hub, KeyNext(s, e), s.st.log[m].hash);
    } else {
      StuckAt(s.hub, m, s.hub, KeyNext(s, e), s.st.log[m].hash);
    }
  }

  lemma AckStuck(s: KeySystem, e: KeyEvent, m: nat)
    requires KeyInv(s.st, s.hub) && Stuck(s.hub, m) && e.Ack?
    ensures s.st.log <= KeyNext(s, e).st.log && Stuck(KeyNext(s, e).hub, m)
    ensures NoneServed(KeyNext(s, e).st.log, s.hub, KeyNext(s, e).hub, s.st.log[m].hash)
  {
    AckedStuck(s.st, s.hub, e.ids, m);
    StuckAt(KeyAcked(s.st, s.hub, e.ids), m, s.hub, KeyNext(s, e), s.st.log[m].hash);
  }

  lemma {:induction false} NextStuck(s: KeySystem, e: KeyEvent, m: nat)
    requires KeyInv(s.st, s.hub) && Stuck(s.hub, m) && !e.Seek?
    ensures s.st.log <= KeyNext(s, e).st.log && Stuck(KeyNext(s, e).hub, m)
    ensures NoneServed(KeyNext(s, e).st.log, s.hub, KeyNext(s, e).hub, s.st.log[m].hash)
  {
    if e.Nack? {
      NackStuck(s, e, m);
    } else if e.Leave? {
      LeaveStuck(s, e, m);
    } else if e.Ack? {
      AckStuck(s, e, m);
    } else {
      ServingStuck(s, e, m);
    }
  }

  /** Until a seek, a stuck message stays queued and no message of its hash is ever delivered again. */
  lemma {:induction false} StuckUntilSeek(s: KeySystem, events: seq<KeyEvent>, m: nat)
    requires KeyInv(s.st, s.hub) && Stuck(s.hub, m) && forall i :: 0 <= i < |events| ==> !events[i].Seek?
    ensures s.st.log <= KeyRun(s, events).st.log && Stuck(KeyRun(s, events).hub, m)
    ensures NoneServed(KeyRun(s, events).st.log, s.hub, KeyRun(s, events).hub, s.st.log[m].hash)
  {
    if events != [] {
      var n := |events| - 1;
      var before, after := KeyRun(s, events[..n]), KeyRun(s, events);
      StuckUntilSeek(s, events[..n], m);
      KeyRunKeeps(s, events[..n]);
      NextStuck(before, events[n], m);
      NoneServedAgain(after.st.log, s.hub, before.hub, after.hub, s.st.log[m].hash);
    }
  }

  /** Handing back a pending message sticks exactly when it was a redelivery still counted in flight. */
  lemma NackSticks(st: Store, k: KeyHub, c: nat, ids: set<nat>, m: nat)
    requires KeyInv(st, k) && Owns(st, k, c) && m in ids && m in k.consumers[c].pending && m !in st.acked
    ensures Stuck(KeyNacked(st, k, c, ids), m) <==> m in k.ctl.inFlight
  {
    var pending := k.consumers[c].pending;
    AddAllShape(st, k.ctl, pending, ids * pending.Keys - st.acked);
  }

  lemma LeaveSticks(st: Store, k: KeyHub, c: nat, m: nat)
    requires KeyInv(st, k) && Owns(st, k, c) && m in k.consumers[c].pending
    ensures Stuck(KeyLeft(st, k, c), m) <==> m in k.ctl.inFlight
  {
    AddAllShape(st, k.ctl, k.consumers[c].pending, k.consumers[c].pending.Keys);
  }
}
