/**
 Key affinity in Key_Shared delivery with automatic ranges: whoever is delivered a message is the one
 owner of its hash among the connected consumers.
 */
module KeyAffinity {
  import opened Base
  import opened SharedDispatch
  import opened Redelivery
  import opened AutoSplit
  import opened KeyShared
  import opened KeySharedRuns
  import opened KeySharedDispatchers

  /** The assignments are those of the connected consumers. */
  ghost predicate Assigned(k: KeyHub) {
    k.shares == Assignments(SortedIds(k.consumers.Keys), |SortedIds(k.consumers.Keys)|)
  }

  /** `c` is the one connected consumer whose range holds the hash. */
  ghost predicate OwnsHash(keys: set<nat>, hash: int, c: nat) {
    var ids := SortedIds(keys);
    exists i :: 0 <= i < |ids| && ids[i] == c && RangeOf(i, |ids|).Has(hash)
  }

  lemma OneOwner(keys: set<nat>, hash: nat, c: nat, d: nat)
    requires hash < HASHES && OwnsHash(keys, hash, c) && OwnsHash(keys, hash, d)
    ensures c == d
  {
    var ids := SortedIds(keys);
    var i := SplitPartitions(hash, |ids|);
  }

  lemma SomeOwner(keys: set<nat>, hash: nat) returns (c: nat)
    requires hash < HASHES && keys != {}
    ensures c in keys && OwnsHash(keys, hash, c)
  {
    var ids := SortedIds(keys);
    SortedIdsExact(keys);
    var i := SplitPartitions(hash, |ids|);
    c := ids[i];
    assert c in ids;
  }

  /** Selection gives the message to the owner of its hash or to nobody. */
  lemma SelectedOwns(k: KeyHub, writable: set<nat>, hash: nat, c: nat)
    requires Assigned(k) && hash < HASHES && Select(k, writable, hash, 0) == Some(c)
    ensures OwnsHash(k.consumers.Keys, hash, c)
  {
    var ids := SortedIds(k.consumers.Keys);
    var i := SelectsOwner(k, writable, ids, hash);
  }

  // ---------------------------------------------------------------- who gains

  /** `c` owns `m` in `after`, and nobody owned it before. */
  ghost predicate GainedBy(before: KeyHub, after: KeyHub, m: nat, c: nat) {
    c in after.consumers && m in after.consumers[c].pending && !Owned(before.consumers, m)
  }

  lemma DeliverGains(k: KeyHub, to: nat, x: nat, count: nat, n: nat, m: nat, c: nat)
    requires to in k.consumers && GainedBy(k, KeyDeliver(k, to, x, count, n), m, c)
    ensures m == x && c == to
  {
    assert c in k.consumers;
  }

  /** A found message was selected for the consumer it was found for. */
  lemma {:induction false} ScanSelects(st: Store, k: KeyHub, todo: set<nat>, writable: set<nat>)
    requires Tracked(st, k.ctl)
    ensures var (after, found) := Scan(st, k, todo, writable);
            found.Some? ==>
              found.value.0 < |st.log| && Select(k, writable, st.log[found.value.0].hash, 0) == Some(found.value.1)
    decreases |todo|
  {
    if todo != {} {
      var m := Least(todo);
      var rest := todo - {m};
      if m in st.acked || m >= |st.log| {
        var next := k.(ctl := Remove(k.ctl, m));
        RemoveAnyTracked(st, k.ctl, m);
        ScanSelects(st, next, rest, writable);
        var found := Scan(st, next, rest, writable).1;
        if found.Some? { SelectSame(k, next, writable, st.log[found.value.0].hash, 0); }
      } else {
        ScanSelects(st, k, rest, writable);
      }
    }
  }

  lemma RemoveAnyTracked(st: Store, ctl: Controller, m: nat)
    requires Tracked(st, ctl)
    ensures Tracked(st, Remove(ctl, m))
  {
    RemoveCounted(ctl, m);
    RemoveShape(ctl, m);
  }

  lemma {:induction false} RedeliveryGoesToSelected(st: Store, p: Stage, env: Env, m: nat, c: nat)
    requires KeyInv(st, p.hub) && GainedBy(p.hub, RedeliverPhase(st, p, env).hub, m, c)
    ensures m < |st.log| && Select(p.hub, env.writable, st.log[m].hash, 0) == Some(c)
  {
    var todo := p.hub.ctl.entries.Keys;
    var scan := Scan(st, p.hub, todo, env.writable);
    ScanKeepsRead(st, p.hub, todo, env.writable);
    ScanSelects(st, p.hub, todo, env.writable);
    if scan.1.Some? && m !in p.hub.consumers[c].pending {
      FoundGains(st, p.(hub := scan.0), scan.1, env.sent, m, c);
    } else {
      NothingGained(p.hub.consumers, m, c);
    }
  }

  lemma NothingGained(consumers: map<nat, Consumer>, m: nat, c: nat)
    requires c in consumers && m in consumers[c].pending
    ensures Owned(consumers, m)
  {
  }

  lemma {:induction false} FoundGains(st: Store, p: Stage, found: Option<(nat, nat)>, ok: bool, m: nat, c: nat)
    requires GainedBy(p.hub, SendFound(st, p, found, ok).hub, m, c)
    ensures found == Some((m, c))
  {
    if found.Some? {
      var (x, to) := found.value;
      if ok && x < |st.log| && x in p.hub.ctl.entries && to in p.hub.consumers {
        var (taken, e) := Take(p.hub.ctl, x, Some(HashOf(st, p.hub.ctl, x)));
        DeliverGains(p.hub.(ctl := taken), to, x, e.count, st.log[x].messages, m, c);
      } else {
        NothingGained(p.hub.consumers, m, c);
      }
    } else {
      NothingGained(p.hub.consumers, m, c);
    }
  }

  lemma {:induction false} FreshGoesToSelected(st: Store, p: Stage, env: Env, m: nat, c: nat)
    requires GainedBy(p.hub, FreshPhase(st, p, env).hub, m, c)
    ensures m < |st.log| && Select(p.hub, env.writableFresh, st.log[m].hash, 0) == Some(c)
  {
    var from := ReadFrom(st, p.hub.read);
    if from.Some? && SkipBusy(st, p.hub.consumers, from.value) < |st.log| {
      var x := SkipBusy(st, p.hub.consumers, from.value);
      var at := p.hub.(read := Some(x));
      SelectSame(p.hub, at, env.writableFresh, st.log[x].hash, 0);
      var chosen := Select(at, env.writableFresh, st.log[x].hash, 0);
      if !Blocked(at.ctl, st.log[x].hash) && chosen.Some? && env.sentFresh {
        DeliverGains(at, chosen.value, x, 0, st.log[x].messages, m, c);
      } else {
        NothingGained(p.hub.consumers, m, c);
      }
    } else {
      NothingGained(p.hub.consumers, m, c);
    }
  }

  // ---------------------------------------------------------------- a pass only adds owners

  /** Same consumers and assignments; pending acks only grow. */
  ghost predicate Grown(before: KeyHub, after: KeyHub) {
    && after.consumers.Keys == before.consumers.Keys && after.shares == before.shares
    && forall d :: d in before.consumers ==> before.consumers[d].pending.Keys <= after.consumers[d].pending.Keys
  }

  lemma GrownAgain(a: KeyHub, b: KeyHub, c: KeyHub)
    requires Grown(a, b) && Grown(b, c)
    ensures Grown(a, c)
  {
    forall d | d in a.consumers ensures a.consumers[d].pending.Keys <= c.consumers[d].pending.Keys {
      assert d in b.consumers.Keys;
    }
  }

  lemma DeliverGrows(k: KeyHub, to: nat, x: nat, count: nat, n: nat)
    requires to in k.consumers
    ensures Grown(k, KeyDeliver(k, to, x, count, n))
  {
  }

  lemma {:induction false} RedeliverPhaseGrows(st: Store, p: Stage, env: Env)
    ensures Grown(p.hub, RedeliverPhase(st, p, env).hub)
  {
    var todo := p.hub.ctl.entries.Keys;
    var scan := Scan(st, p.hub, todo, env.writable);
    ScanKeepsRead(st, p.hub, todo, env.writable);
    if scan.1.Some? && scan.1.value.1 in p.hub.consumers && scan.1.value.0 < |st.log|
       && scan.1.value.0 in scan.0.ctl.entries
    {
      var (x, to) := scan.1.value;
      var (taken, e) := Take(scan.0.ctl, x, Some(HashOf(st, scan.0.ctl, x)));
      DeliverGrows(scan.0.(ctl := taken), to, x, e.count, st.log[x].messages);
    }
  }

  lemma {:induction false} FreshPhaseGrows(st: Store, p: Stage, env: Env)
    ensures Grown(p.hub, FreshPhase(st, p, env).hub)
  {
    var from := ReadFrom(st, p.hub.read);
    if from.Some? && SkipBusy(st, p.hub.consumers, from.value) < |st.log| {
      var x := SkipBusy(st, p.hub.consumers, from.value);
      var at := p.hub.(read := Some(x));
      var chosen := Select(at, env.writableFresh, st.log[x].hash, 0);
      if chosen.Some? { DeliverGrows(at, chosen.value, x, 0, st.log[x].messages); }
    }
  }

  lemma {:induction false} IterateGrows(st: Store, p: Stage, env: Env)
    ensures Grown(p.hub, KeyIterate(st, p, env).hub)
  {
    var q := RedeliverPhase(st, p, env);
    RedeliverPhaseGrows(st, p, env);
    if q.go {
      FreshPhaseGrows(st, q, env);
      GrownAgain(p.hub, q.hub, KeyIterate(st, p, env).hub);
    }
  }

  lemma {:induction false} BatchGrows(st: Store, p: Stage, i: nat, envs: seq<Env>)
    requires p.go
    ensures Grown(p.hub, KeyBatch(st, p, i, envs).hub)
    decreases Unread(st, p.hub.read)
  {
    if p.left != 0 {
      var q := KeyIterate(st, p, EnvAt(envs, i));
      IterateGrows(st, p, EnvAt(envs, i));
      IterateReads(st, p, EnvAt(envs, i));
      if q.go {
        BatchGrows(st, q, i + 1, envs);
        GrownAgain(p.hub, q.hub, KeyBatch(st, q, i + 1, envs).hub);
      }
    }
  }

  // ---------------------------------------------------------------- every delivery goes to the owner

  /** Every message of a proper hash that gained an owner went to the owner of its hash. */
  ghost predicate ToOwners(log: seq<LogEntry>, before: KeyHub, after: KeyHub) {
    forall m: nat, c :: GainedBy(before, after, m, c) && m < |log| && 0 <= log[m].hash < HASHES ==>
      OwnsHash(before.consumers.Keys, log[m].hash, c)
  }

  lemma {:induction false} RedeliveryToOwners(st: Store, p: Stage, env: Env)
    requires KeyInv(st, p.hub) && Assigned(p.hub)
    ensures ToOwners(st.log, p.hub, RedeliverPhase(st, p, env).hub)
  {
    var q := RedeliverPhase(st, p, env).hub;
    forall m: nat, c | GainedBy(p.hub, q, m, c) && m < |st.log| && 0 <= st.log[m].hash < HASHES
      ensures OwnsHash(p.hub.consumers.Keys, st.log[m].hash, c)
    {
      RedeliveryGoesToSelected(st, p, env, m, c);
      SelectedOwns(p.hub, env.writable, st.log[m].hash, c);
    }
  }

  lemma {:induction false} FreshToOwners(st: Store, p: Stage, env: Env)
    requires Assigned(p.hub)
    ensures ToOwners(st.log, p.hub, FreshPhase(st, p, env).hub)
  {
    var q := FreshPhase(st, p, env).hub;
    forall m: nat, c | GainedBy(p.hub, q, m, c) && m < |st.log| && 0 <= st.log[m].hash < HASHES
      ensures OwnsHash(p.hub.consumers.Keys, st.log[m].hash, c)
    {
      FreshGoesToSelected(st, p, env, m, c);
      SelectedOwns(p.hub, env.writableFresh, st.log[m].hash, c);
    }
  }

  ghost predicate OneOwnerEach(k: KeyHub) {
    forall c, d, m | c in k.consumers && d in k.consumers && m in k.consumers[c].pending ::
      m in k.consumers[d].pending ==> c == d
  }

  lemma InvOneOwner(st: Store, k: KeyHub)
    requires KeyInv(st, k)
    ensures OneOwnerEach(k)
  {
    assert AsHub(k).consumers == k.consumers;
  }

  lemma ToOwnersAgain(log: seq<LogEntry>, a: KeyHub, b: KeyHub, c: KeyHub)
    requires ToOwners(log, a, b) && ToOwners(log, b, c) && Grown(a, b) && Grown(b, c) && OneOwnerEach(c)
    ensures ToOwners(log, a, c)
  {
    forall m: nat, x | GainedBy(a, c, m, x) && m < |log| && 0 <= log[m].hash < HASHES
      ensures OwnsHash(a.consumers.Keys, log[m].hash, x)
    {
      if Owned(b.consumers, m) {
        var d :| d in b.consumers && m in b.consumers[d].pending;
        assert GainedBy(a, b, m, d) && d in c.consumers && m in c.consumers[d].pending.Keys;
      } else {
        assert GainedBy(b, c, m, x);
      }
    }
  }

  lemma {:induction false} IterateToOwners(st: Store, p: Stage, env: Env)
    requires KeyInv(st, p.hub) && Assigned(p.hub)
    ensures ToOwners(st.log, p.hub, KeyIterate(st, p, env).hub)
  {
    var q, r := RedeliverPhase(st, p, env), KeyIterate(st, p, env);
    RedeliveryToOwners(st, p, env);
    RedeliverPhaseGrows(st, p, env);
    if q.go {
      FreshToOwners(st, q, env);
      FreshPhaseGrows(st, q, env);
      IterateKeeps(st, p, env);
      InvOneOwner(st, r.hub);
      ToOwnersAgain(st.log, p.hub, q.hub, r.hub);
    }
  }

  lemma {:induction false} BatchToOwners(st: Store, p: Stage, i: nat, envs: seq<Env>)
    requires KeyInv(st, p.hub) && Assigned(p.hub) && p.go
    ensures ToOwners(st.log, p.hub, KeyBatch(st, p, i, envs).hub)
    decreases Unread(st, p.hub.read)
  {
    if p.left != 0 {
      var env := EnvAt(envs, i);
      var q := KeyIterate(st, p, env);
      IterateToOwners(st, p, env);
      IterateKeeps(st, p, env);
      IterateGrows(st, p, env);
      IterateReads(st, p, env);
      if q.go {
        var r := KeyBatch(st, q, i + 1, envs);
        BatchToOwners(st, q, i + 1, envs);
        BatchGrows(st, q, i + 1, envs);
        BatchKeeps(st, q, i + 1, envs);
        InvOneOwner(st, r.hub);
        ToOwnersAgain(st.log, p.hub, q.hub, r.hub);
      }
    }
  }

  // ---------------------------------------------------------------- over whole runs

  lemma {:induction false} NextAssigned(s: KeySystem, e: KeyEvent)
    requires Assigned(s.hub)
    ensures Assigned(KeyNext(s, e).hub)
  {
    match e
    case Publish(_) =>
    case Join(c) =>
    case Flow(c, n) => if c in s.hub.consumers { assert KeyFlowed(s.hub, c, n).consumers.Keys == s.hub.consumers.Keys; }
    case Pass(envs) => BatchGrows(s.st, Stage(s.hub, BatchSize(s.hub.total), 0, true), 0, envs);
    case Ack(ids) => assert DropAll(s.hub.consumers, OwnedAmong(s.hub.consumers, ids)).Keys == s.hub.consumers.Keys;
    case Nack(c, ids) => assert KeyNext(s, e).hub.consumers.Keys == s.hub.consumers.Keys;
    case Leave(c) =>
    case Seek(to, kept) => assert KeySought(s.st, s.hub, to, kept).consumers.Keys == s.hub.consumers.Keys;
  }

  lemma {:induction false} RunAssigned(st: Store, events: seq<KeyEvent>)
    ensures Assigned(KeyRun(KeyInit(st), events).hub)
  {
    if events == [] {
      assert SortedIds({}) == [];
    } else {
      RunAssigned(st, events[..|events| - 1]);
      NextAssigned(KeyRun(KeyInit(st), events[..|events| - 1]), events[|events| - 1]);
    }
  }

  /** In every reachable state, a pass delivers each message to the owner of its hash and to nobody else. */
  lemma {:induction false} EveryPassServesOwners(st: Store, events: seq<KeyEvent>, envs: seq<Env>)
    ensures var s := KeyRun(KeyInit(st), events);
            ToOwners(s.st.log, s.hub, KeyDispatch(s.st, s.hub, envs).hub)
  {
    var s := KeyRun(KeyInit(st), events);
    KeyInitInv(st);
    KeyRunKeeps(KeyInit(st), events);
    RunAssigned(st, events);
    BatchToOwners(s.st, Stage(s.hub, BatchSize(s.hub.total), 0, true), 0, envs);
  }

  // ---------------------------------------------------------------- who holds a key

  /** Whatever is pending is pending on the owner of its hash, so one consumer holds all messages of a hash. */
  ghost predicate HeldByOwners(log: seq<LogEntry>, k: KeyHub) {
    forall c, m :: c in k.consumers && m in k.consumers[c].pending && m < |log| && 0 <= log[m].hash < HASHES ==>
      OwnsHash(k.consumers.Keys, log[m].hash, c)
  }

  lemma PassHeld(log: seq<LogEntry>, before: KeyHub, after: KeyHub)
    requires HeldByOwners(log, before) && Grown(before, after) && ToOwners(log, before, after) && OneOwnerEach(after)
    ensures HeldByOwners(log, after)
  {
    forall c, m | c in after.consumers && m in after.consumers[c].pending && m < |log| && 0 <= log[m].hash < HASHES
      ensures OwnsHash(after.consumers.Keys, log[m].hash, c)
    {
      if Owned(before.consumers, m) {
        var d :| d in before.consumers && m in before.consumers[d].pending;
        assert d in after.consumers && m in after.consumers[d].pending.Keys;
      } else {
        assert GainedBy(before, after, m, c);
      }
    }
  }

  lemma FewerHeld(log: seq<LogEntry>, before: KeyHub, after: KeyHub)
    requires HeldByOwners(log, before) && after.consumers.Keys == before.consumers.Keys
    requires forall c :: c in before.consumers ==> after.consumers[c].pending.Keys <= before.consumers[c].pending.Keys
    ensures HeldByOwners(log, after)
  {
    forall c, m | c in after.consumers && m in after.consumers[c].pending && m < |log| && 0 <= log[m].hash < HASHES
      ensures OwnsHash(after.consumers.Keys, log[m].hash, c)
    {
      assert c in before.consumers.Keys && m in after.consumers[c].pending.Keys;
    }
  }

  lemma {:induction false} PassNextHeld(st: Store, k: KeyHub, envs: seq<Env>)
    requires KeyInv(st, k) && Assigned(k) && HeldByOwners(st.log, k)
    ensures HeldByOwners(st.log, KeyDispatch(st, k, envs).hub)
  {
    var p := Stage(k, BatchSize(k.total), 0, true);
    BatchGrows(st, p, 0, envs);
    BatchToOwners(st, p, 0, envs);
    KeyPassKeeps(st, k, envs);
    InvOneOwner(st, KeyDispatch(st, k, envs).hub);
    PassHeld(st.log, k, KeyDispatch(st, k, envs).hub);
  }

  lemma CursorHeld(s: KeySystem, e: KeyEvent)
    requires HeldByOwners(s.st.log, s.hub) && (e.Ack? || e.Nack? || e.Seek?)
    ensures HeldByOwners(s.st.log, KeyNext(s, e).hub) && KeyNext(s, e).st.log == s.st.log
  {
    match e
    case Ack(ids) => FewerHeld(s.st.log, s.hub, KeyAcked(s.st, s.hub, ids));
    case Nack(c, ids) => FewerHeld(s.st.log, s.hub, KeyNext(s, e).hub);
    case Seek(to, kept) => FewerHeld(s.st.log, s.hub, KeySought(s.st, s.hub, to, kept));
  }

  lemma {:induction false} NextHeld(s: KeySystem, e: KeyEvent)
    requires KeyInv(s.st, s.hub) && Assigned(s.hub) && HeldByOwners(s.st.log, s.hub) && !e.Join? && !e.Leave?
    ensures HeldByOwners(KeyNext(s, e).st.log, KeyNext(s, e).hub)
  {
    match e
    case Publish(entry) => OwnedStoredAll(s.st, s.hub);
    case Flow(c, n) => FewerHeld(s.st.log, s.hub, KeyFlowed(s.hub, c, n));
    case Pass(envs) => PassNextHeld(s.st, s.hub, envs);
    case _ => CursorHeld(s, e);
  }

  lemma OwnedStoredAll(st: Store, k: KeyHub)
    requires KeyInv(st, k)
    ensures forall c, m :: c in k.consumers && m in k.consumers[c].pending ==> m < |st.log|
  {
    assert AsHub(k).consumers == k.consumers;
  }

  /** As long as nobody joins or leaves, all pending messages of a hash stay with its one owner. */
  lemma {:induction false} KeysStayTogether(s: KeySystem, events: seq<KeyEvent>)
    requires KeyInv(s.st, s.hub) && Assigned(s.hub) && HeldByOwners(s.st.log, s.hub)
    requires forall i :: 0 <= i < |events| ==> !events[i].Join? && !events[i].Leave?
    ensures Assigned(KeyRun(s, events).hub) && HeldByOwners(KeyRun(s, events).st.log, KeyRun(s, events).hub)
  {
    if events != [] {
      var n := |events| - 1;
      KeysStayTogether(s, events[..n]);
      KeyRunKeeps(s, events[..n]);
      NextHeld(KeyRun(s, events[..n]), events[n]);
      NextAssigned(KeyRun(s, events[..n]), events[n]);
    }
  }
}
