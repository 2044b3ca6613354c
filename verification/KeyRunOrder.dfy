/**
 Key order over whole runs of the Key_Shared dispatcher: a message is handed out only when every earlier
 unacknowledged message of its hash already is.
 */
module KeyRunOrder {
  import opened Base
  import opened SharedDispatch
  import opened Redelivery
  import opened KeyShared
  import opened KeySharedRuns
  import opened KeyOrder
  import opened KeyHistory
  import opened KeySharedDispatchers

  // ---------------------------------------------------------------- what is handed out, in order

  function RedeliverSent(st: Store, p: Stage, env: Env): seq<nat> {
    match Scan(st, p.hub, p.hub.ctl.entries.Keys, env.writable).1
    case None => []
    case Some((m, _)) => if env.sent then [m] else []
  }

  function FreshSent(st: Store, p: Stage, env: Env): seq<nat> {
    if FreshFollows(st, p.hub, env.writableFresh) && env.sentFresh
    then [SkipBusy(st, p.hub.consumers, ReadFrom(st, p.hub.read).value)] else []
  }

  function IterateSent(st: Store, p: Stage, env: Env): seq<nat> {
    var q := RedeliverPhase(st, p, env);
    RedeliverSent(st, p, env) + if q.go then FreshSent(st, q, env) else []
  }

  /** The messages a pass hands out, in the order it does. */
  function PassSent(st: Store, p: Stage, i: nat, envs: seq<Env>): seq<nat>
    requires p.go
    decreases Unread(st, p.hub.read)
  {
    if p.left == 0 then []
    else
      IterateReads(st, p, EnvAt(envs, i));
      var q := KeyIterate(st, p, EnvAt(envs, i));
      IterateSent(st, p, EnvAt(envs, i)) + if q.go then PassSent(st, q, i + 1, envs) else []
  }

  /** Whenever a message is handed out, every earlier unacknowledged message of its hash has an owner by then. */
  ghost predicate InOrder(st: Store, consumers: map<nat, Consumer>, sent: seq<nat>) {
    forall j, x: nat :: 0 <= j < |sent| && x < sent[j] < |st.log| && x !in st.acked &&
        st.log[x].hash == st.log[sent[j]].hash
      ==> Owned(consumers, x) || x in sent[..j]
  }

  /** `after` comes from `before` by handing out `sent`: only queued and newly read messages were touched. */
  ghost predicate Moved(st: Store, before: KeyHub, after: KeyHub, sent: seq<nat>) {
    && (forall x: nat :: Owned(after.consumers, x) <==> Owned(before.consumers, x) || x in sent)
    && (forall x :: x in after.ctl.entries ==> x in before.ctl.entries || IsRead(after, x))
    && (forall x :: x in sent ==> (x in before.ctl.entries || IsRead(after, x)) && x < |st.log| && x !in st.acked)
    && (forall x: nat :: IsRead(before, x) ==> IsRead(after, x))
  }

  /** Reading is past `x`. */
  predicate IsRead(k: KeyHub, x: nat) {
    k.read.Some? && x < k.read.value
  }

  lemma MovedAgain(st: Store, a: KeyHub, b: KeyHub, c: KeyHub, s: seq<nat>, t: seq<nat>)
    requires Moved(st, a, b, s) && Moved(st, b, c, t)
    ensures Moved(st, a, c, s + t)
  {
  }

  lemma InOrderAgain(st: Store, a: KeyHub, b: KeyHub, s: seq<nat>, t: seq<nat>)
    requires Moved(st, a, b, s) && InOrder(st, a.consumers, s) && InOrder(st, b.consumers, t)
    ensures InOrder(st, a.consumers, s + t)
  {
    var r := s + t;
    forall j, x: nat | 0 <= j < |r| && x < r[j] < |st.log| && x !in st.acked && st.log[x].hash == st.log[r[j]].hash
      ensures Owned(a.consumers, x) || x in r[..j]
    {
      if j < |s| {
        assert r[..j] == s[..j];
      } else {
        assert r[..j] == s + t[..j - |s|] && r[j] == t[j - |s|];
      }
    }
  }

  // ---------------------------------------------------------------- the two halves

  /** Whatever is queued or owned has been read. */
  ghost predicate Behind(k: KeyHub) {
    forall x: nat :: x in k.ctl.entries || Owned(k.consumers, x) ==> IsRead(k, x)
  }

  lemma MovedBehind(st: Store, before: KeyHub, after: KeyHub, sent: seq<nat>)
    requires Moved(st, before, after, sent) && Behind(before)
    ensures Behind(after)
  {
  }

  lemma MovedOne(st: Store, before: KeyHub, after: KeyHub, m: nat)
    requires after.read == before.read && after.ctl.entries.Keys <= before.ctl.entries.Keys && m in before.ctl.entries
    requires m < |st.log| && m !in st.acked
    requires forall x: nat :: Owned(after.consumers, x) <==> Owned(before.consumers, x) || x == m
    ensures Moved(st, before, after, [m])
  {
    forall x | x in after.ctl.entries ensures x in before.ctl.entries { assert x in after.ctl.entries.Keys; }
  }

  lemma MovedNothing(st: Store, before: KeyHub, after: KeyHub)
    requires after.read == before.read && after.ctl.entries.Keys <= before.ctl.entries.Keys
    requires after.consumers == before.consumers
    ensures Moved(st, before, after, [])
  {
    forall x | x in after.ctl.entries ensures x in before.ctl.entries { assert x in after.ctl.entries.Keys; }
  }

  lemma HandOverEntries(st: Store, k: KeyHub, m: nat, c: nat)
    requires KeyInv(st, k) && Found(st, k, m, c)
    ensures HandOver(st, k, m, c).ctl.entries.Keys <= k.ctl.entries.Keys && HandOver(st, k, m, c).read == k.read
  {
    TakeShape(k.ctl, m, HashOf(st, k.ctl, m));
  }

  lemma PutBackEntries(st: Store, k: KeyHub, m: nat, c: nat)
    requires KeyInv(st, k) && Found(st, k, m, c)
    ensures PutBack(st, k, m).ctl.entries.Keys <= k.ctl.entries.Keys && PutBack(st, k, m).read == k.read
    ensures PutBack(st, k, m).consumers == k.consumers
  {
    var hash := HashOf(st, k.ctl, m);
    FoundIsFree(st, k, m, c);
    TakeShape(k.ctl, m, hash);
    TakeRestoreShape(k.ctl, m, hash, Entry(k.ctl.entries[m].count + 1, Some(hash)));
  }

  lemma SendMoves(st: Store, before: KeyHub, p: Stage, m: nat, c: nat, ok: bool)
    requires KeyInv(st, p.hub) && Found(st, p.hub, m, c) && p.hub.consumers == before.consumers &&
             p.hub.read == before.read
    requires p.hub.ctl.entries.Keys <= before.ctl.entries.Keys
    ensures Moved(st, before, SendQueued(st, p, m, c, ok).hub, if ok then [m] else [])
  {
    if ok {
      HandOverOwned(st, p.hub, m, c);
      HandOverEntries(st, p.hub, m, c);
      assert m in p.hub.ctl.entries.Keys;
      MovedOne(st, before, HandOver(st, p.hub, m, c), m);
    } else {
      PutBackEntries(st, p.hub, m, c);
      MovedNothing(st, before, PutBack(st, p.hub, m));
    }
  }

  lemma ScanShrinks(st: Store, k: KeyHub, writable: set<nat>)
    ensures Scan(st, k, k.ctl.entries.Keys, writable).0.ctl.entries.Keys <= k.ctl.entries.Keys
  {
    ScanEntries(st, k, k.ctl.entries.Keys, writable);
  }

  lemma FoundMoves(st: Store, before: KeyHub, p: Stage, found: Option<(nat, nat)>, ok: bool)
    requires KeyInv(st, p.hub) && p.hub.consumers == before.consumers && p.hub.read == before.read
    requires p.hub.ctl.entries.Keys <= before.ctl.entries.Keys
    requires found.Some? ==> Found(st, p.hub, found.value.0, found.value.1)
    ensures Moved(st, before, SendFound(st, p, found, ok).hub, if found.Some? && ok then [found.value.0] else [])
  {
    if found.Some? {
      SendMoves(st, before, p, found.value.0, found.value.1, ok);
    } else {
      MovedNothing(st, before, p.hub);
    }
  }

  lemma RedeliverMoves(st: Store, p: Stage, env: Env)
    requires KeyInv(st, p.hub)
    ensures Moved(st, p.hub, RedeliverPhase(st, p, env).hub, RedeliverSent(st, p, env))
  {
    var todo := p.hub.ctl.entries.Keys;
    var scan := Scan(st, p.hub, todo, env.writable);
    ScanExact(st, p.hub, todo, env.writable);
    ScanKeepsRead(st, p.hub, todo, env.writable);
    ScanShrinks(st, p.hub, env.writable);
    FoundMoves(st, p.hub, p.(hub := scan.0), scan.1, env.sent);
  }

  lemma FreshMoves(st: Store, p: Stage, env: Env)
    requires KeyInv(st, p.hub)
    ensures Moved(st, p.hub, FreshPhase(st, p, env).hub, FreshSent(st, p, env))
  {
    var r := ReadFrom(st, p.hub.read);
    if r.Some? {
      var x := SkipBusy(st, p.hub.consumers, r.value);
      var at := p.(hub := p.hub.(read := Some(x)));
      if x < |st.log| {
        SelectSame(p.hub, at.hub, env.writableFresh, st.log[x].hash, 0);
        SendFreshMoves(st, p.hub, at, x, env);
      }
    }
  }

  lemma DeliverOwned(k: KeyHub, c: nat, m: nat, count: nat, n: nat, x: nat)
    requires c in k.consumers
    ensures Owned(KeyDeliver(k, c, m, count, n).consumers, x) <==> Owned(k.consumers, x) || x == m
  {
    var after := KeyDeliver(k, c, m, count, n).consumers;
    assert c in after && m in after[c].pending;
    if Owned(k.consumers, x) {
      var d :| d in k.consumers && x in k.consumers[d].pending;
      assert d in after && x in after[d].pending;
    }
    if Owned(after, x) && x != m {
      var d :| d in after && x in after[d].pending;
      assert d in k.consumers && x in k.consumers[d].pending;
    }
  }

  /** Reading goes on past `x`, which is queued or handed out. */
  lemma MovedFresh(st: Store, before: KeyHub, after: KeyHub, x: nat, sent: seq<nat>)
    requires x < |st.log| && x !in st.acked && (before.read.Some? ==> before.read.value <= x) &&
             (sent == [] || sent == [x])
    requires after.read == Some(x + 1) && after.ctl.entries.Keys <= before.ctl.entries.Keys + {x}
    requires forall y: nat :: Owned(after.consumers, y) <==> Owned(before.consumers, y) || y in sent
    ensures Moved(st, before, after, sent)
  {
    forall y | y in after.ctl.entries ensures y in before.ctl.entries || IsRead(after, y) {
      assert y in after.ctl.entries.Keys;
    }
  }

  lemma AddEntries(ctl: Controller, x: nat, e: Entry)
    ensures Add(ctl, x, e).entries.Keys <= ctl.entries.Keys + {x}
    ensures Restore(ctl, x, e).entries.Keys <= ctl.entries.Keys + {x}
  {
    AddShape(ctl, x, e);
    ReleaseShape(ctl, x);
    AddShape(Release(ctl, x), x, e);
  }

  lemma SendFreshMoves(st: Store, before: KeyHub, p: Stage, x: nat, env: Env)
    requires x < |st.log| && x !in st.acked && p.hub == before.(read := Some(x))
    requires before.read.Some? ==> before.read.value <= x
    ensures Moved(st, before, KeySendFresh(st, p, x, env).hub,
                  if !Blocked(before.ctl, st.log[x].hash) && Select(p.hub, env.writableFresh, st.log[x].hash, 0).Some?
                     && env.sentFresh then [x] else [])
  {
    var hash, after := st.log[x].hash, KeySendFresh(st, p, x, env).hub;
    var to := Select(p.hub, env.writableFresh, hash, 0);
    if Blocked(before.ctl, hash) {
      AddEntries(before.ctl, x, Entry(0, Some(hash)));
      MovedFresh(st, before, after, x, []);
    } else if to.Some? {
      if env.sentFresh {
        forall y: nat ensures Owned(after.consumers, y) <==> Owned(before.consumers, y) || y in [x] {
          DeliverOwned(p.hub, to.value, x, 0, st.log[x].messages, y);
        }
        MovedFresh(st, before, after, x, [x]);
      } else {
        AddEntries(before.ctl, x, Entry(1, Some(hash)));
        MovedFresh(st, before, after, x, []);
      }
    }
  }

  lemma RedeliveredIsGained(st: Store, p: Stage, env: Env, m: nat)
    requires KeyInv(st, p.hub) && RedeliverSent(st, p, env) == [m]
    ensures m in p.hub.ctl.entries && m < |st.log| && Gained(p.hub, RedeliverPhase(st, p, env).hub, m)
  {
    var todo := p.hub.ctl.entries.Keys;
    RedeliverMoves(st, p, env);
    ScanFinds(st, p.hub, todo, env.writable);
    assert m in AsHub(p.hub).queue;
  }

  /** A message redelivered has every earlier unacknowledged message of its hash before it: they have all been
      read, and none of them is queued. */
  lemma RedeliverInOrder(st: Store, p: Stage, env: Env)
    requires KeyInv(st, p.hub) && Behind(p.hub)
    ensures InOrder(st, p.hub.consumers, RedeliverSent(st, p, env))
  {
    var sent := RedeliverSent(st, p, env);
    RedeliverMoves(st, p, env);
    if sent != [] {
      var m := sent[0];
      RedeliveredIsGained(st, p, env, m);
      RedeliveryKeepsKeyOrder(st, p, env, m);
      forall x: nat | x < m && x !in st.acked && st.log[x].hash == st.log[m].hash ensures Owned(p.hub.consumers, x) {
        CoveredBy(st, p.hub, x, m);
      }
    }
  }

  lemma CoveredBy(st: Store, k: KeyHub, x: nat, m: nat)
    requires KeyInv(st, k) && IsRead(k, m) && x < m && x !in st.acked && x !in k.ctl.entries
    ensures Owned(k.consumers, x)
  {
    assert x !in AsHub(k).queue;
  }

  /** A message sent fresh has every earlier unacknowledged message of its hash before it: none of them is queued,
      and reading skips only owned and acknowledged ones. */
  lemma FreshInOrder(st: Store, p: Stage, env: Env)
    requires KeyInv(st, p.hub)
    ensures InOrder(st, p.hub.consumers, FreshSent(st, p, env))
  {
    if FreshSent(st, p, env) != [] {
      var r := ReadFrom(st, p.hub.read).value;
      var m := SkipBusy(st, p.hub.consumers, r);
      UnblockedIsNowhere(st, p.hub, m);
      forall x: nat | x < m && x !in st.acked && st.log[x].hash == st.log[m].hash ensures Owned(p.hub.consumers, x) {
        if x < r { BeforeReading(st, p.hub, x); }
      }
    }
  }

  lemma BeforeReading(st: Store, k: KeyHub, x: nat)
    requires KeyInv(st, k) && ReadFrom(st, k.read).Some? && x < ReadFrom(st, k.read).value
    requires x !in st.acked && x !in k.ctl.entries
    ensures Owned(k.consumers, x)
  {
    assert x !in AsHub(k).queue;
  }

  // ---------------------------------------------------------------- a pass

  lemma IterateInOrder(st: Store, p: Stage, env: Env)
    requires KeyInv(st, p.hub) && Behind(p.hub)
    ensures Moved(st, p.hub, KeyIterate(st, p, env).hub, IterateSent(st, p, env))
    ensures InOrder(st, p.hub.consumers, IterateSent(st, p, env))
  {
    var q := RedeliverPhase(st, p, env);
    var s := RedeliverSent(st, p, env);
    RedeliverMoves(st, p, env);
    RedeliverInOrder(st, p, env);
    if q.go {
      RedeliverPhaseKeeps(st, p, env);
      FreshMoves(st, q, env);
      FreshInOrder(st, q, env);
      MovedAgain(st, p.hub, q.hub, KeyIterate(st, p, env).hub, s, FreshSent(st, q, env));
      InOrderAgain(st, p.hub, q.hub, s, FreshSent(st, q, env));
    } else {
      assert s + [] == s;
    }
  }

  lemma {:induction false} PassInOrder(st: Store, p: Stage, i: nat, envs: seq<Env>)
    requires KeyInv(st, p.hub) && Behind(p.hub) && p.go
    ensures Moved(st, p.hub, KeyBatch(st, p, i, envs).hub, PassSent(st, p, i, envs))
    ensures InOrder(st, p.hub.consumers, PassSent(st, p, i, envs))
    decreases Unread(st, p.hub.read)
  {
    if p.left != 0 {
      var env := EnvAt(envs, i);
      var q, s := KeyIterate(st, p, env), IterateSent(st, p, env);
      IterateReads(st, p, env);
      IterateInOrder(st, p, env);
      if q.go {
        IterateKeeps(st, p, env);
        MovedBehind(st, p.hub, q.hub, s);
        PassInOrder(st, q, i + 1, envs);
        MovedAgain(st, p.hub, q.hub, KeyBatch(st, q, i + 1, envs).hub, s, PassSent(st, q, i + 1, envs));
        InOrderAgain(st, p.hub, q.hub, s, PassSent(st, q, i + 1, envs));
      } else {
        assert s + [] == s;
      }
    }
  }

  // ---------------------------------------------------------------- whole runs

  /** Nothing pending is acknowledged. */
  ghost predicate Clean(st: Store, k: KeyHub) {
    forall x: nat :: Owned(k.consumers, x) ==> x !in st.acked
  }

  ghost predicate InStep(st: Store, k: KeyHub) {
    Behind(k) && Clean(st, k)
  }

  /** Not a seek that leaves a consumer with pending messages. */
  ghost predicate Drains(s: KeySystem, e: KeyEvent) {
    e.Seek? ==> forall c :: c in e.kept && c in s.hub.consumers ==> s.hub.consumers[c].pending == map[]
  }

  lemma FewerInStep(st: Store, before: KeyHub, after: KeyHub)
    requires InStep(st, before) && after.read == before.read
    requires forall x: nat :: Owned(after.consumers, x) ==> Owned(before.consumers, x)
    requires forall x :: x in after.ctl.entries ==> x in before.ctl.entries || Owned(before.consumers, x)
    ensures InStep(st, after)
  {
  }

  /** Each consumer's pending messages were its own before. */
  lemma FewerOwned(before: map<nat, Consumer>, after: map<nat, Consumer>)
    requires forall c :: c in after && after[c].pending.Keys != {} ==>
               c in before && after[c].pending.Keys <= before[c].pending.Keys
    ensures forall x: nat :: Owned(after, x) ==> Owned(before, x)
  {
    forall x: nat | Owned(after, x) ensures Owned(before, x) {
      var c :| c in after && x in after[c].pending;
      assert x in after[c].pending.Keys && x in before[c].pending.Keys;
      assert c in before && x in before[c].pending;
    }
  }

  lemma JoinedInStep(st: Store, k: KeyHub, c: nat)
    requires InStep(st, k)
    ensures InStep(st, KeyJoined(k, c))
  {
    FewerOwned(k.consumers, KeyJoined(k, c).consumers);
    FewerInStep(st, k, KeyJoined(k, c));
  }

  lemma FlowedInStep(st: Store, k: KeyHub, c: nat, n: nat)
    requires InStep(st, k)
    ensures InStep(st, KeyFlowed(k, c, n))
  {
    FewerOwned(k.consumers, KeyFlowed(k, c, n).consumers);
    FewerInStep(st, k, KeyFlowed(k, c, n));
  }

  lemma NackedInStep(st: Store, k: KeyHub, c: nat, ids: set<nat>)
    requires InStep(st, k) && Owns(st, k, c) && k.ctl.block
    ensures InStep(st, KeyNacked(st, k, c, ids))
  {
    var pending := k.consumers[c].pending;
    var after := KeyNacked(st, k, c, ids);
    AddAllShape(st, k.ctl, pending, ids * pending.Keys - st.acked);
    FewerOwned(k.consumers, after.consumers);
    FewerInStep(st, k, after);
  }

  lemma LeftInStep(st: Store, k: KeyHub, c: nat)
    requires InStep(st, k) && Owns(st, k, c) && k.ctl.block
    ensures InStep(st, KeyLeft(st, k, c))
  {
    var after := KeyLeft(st, k, c);
    AddAllShape(st, k.ctl, k.consumers[c].pending, k.consumers[c].pending.Keys);
    FewerOwned(k.consumers, after.consumers);
    FewerInStep(st, k, after);
  }

  lemma AckedInStep(st: Store, k: KeyHub, ids: set<nat>, s: KeySystem)
    requires KeyInv(st, k) && InStep(st, k) && s == KeySystem(AckedStore(st, AsHub(k), ids), KeyAcked(st, k, ids))
    ensures InStep(s.st, s.hub)
  {
    var owned := OwnedAmong(k.consumers, ids);
    var after, g := st.(acked := st.acked + owned), KeyAcked(st, k, ids);
    if owned != {} {
      var ctl := RemoveAll(k.ctl, owned);
      RemoveAllShape(k.ctl, owned);
      RemoveAllShape(ctl, ctl.entries.Keys * after.acked);
      FewerOwned(k.consumers, g.consumers);
      DroppedUnacked(st, k, owned);
      AckedRead(st, k, after, g);
    }
  }

  lemma DroppedUnacked(st: Store, k: KeyHub, owned: set<nat>)
    requires Clean(st, k)
    ensures forall x: nat :: Owned(DropAll(k.consumers, owned), x) ==> x !in st.acked + owned
  {
    forall x: nat | Owned(DropAll(k.consumers, owned), x) ensures x !in st.acked + owned {
      var c :| c in k.consumers && x in DropAll(k.consumers, owned)[c].pending;
      assert Owned(k.consumers, x);
    }
  }

  /** Reading catches up with the acknowledgements, and is unset only when everything is acknowledged. */
  lemma AckedRead(st: Store, k: KeyHub, after: Store, g: KeyHub)
    requires KeyInv(st, k) && Behind(k) && after.log == st.log && g.read == ReadAfterAck(after, k.read)
    requires forall x: nat :: Owned(g.consumers, x) ==> Owned(k.consumers, x) && x !in after.acked
    requires forall x :: x in g.ctl.entries ==> x in k.ctl.entries && x !in after.acked
    ensures Behind(g)
  {
    forall x: nat | x in g.ctl.entries || Owned(g.consumers, x) ensures IsRead(g, x) {
      assert IsRead(k, x);
      HeldIsStored(st, k, x);
    }
  }

  lemma HeldIsStored(st: Store, k: KeyHub, x: nat)
    requires KeyInv(st, k) && (x in k.ctl.entries || Owned(k.consumers, x))
    ensures x < |st.log|
  {
    assert x in k.ctl.entries ==> x in AsHub(k).queue;
  }

  lemma SoughtInStep(st: Store, k: KeyHub, to: nat, kept: set<nat>)
    requires forall c :: c in kept && c in k.consumers ==> k.consumers[c].pending == map[]
    ensures InStep(SoughtStore(st, to), KeySought(st, k, to, kept))
  {
  }

  lemma PassInStep(st: Store, k: KeyHub, envs: seq<Env>)
    requires KeyInv(st, k) && InStep(st, k)
    ensures InStep(st, KeyDispatch(st, k, envs).hub)
  {
    var p := Stage(k, BatchSize(k.total), 0, true);
    PassInOrder(st, p, 0, envs);
    MovedBehind(st, k, KeyDispatch(st, k, envs).hub, PassSent(st, p, 0, envs));
  }

  lemma InStepAt(st: Store, k: KeyHub, s: KeySystem)
    requires InStep(st, k) && s == KeySystem(st, k)
    ensures InStep(s.st, s.hub)
  {
  }

  lemma ReturnInStep(s: KeySystem, e: KeyEvent)
    requires KeyInv(s.st, s.hub) && InStep(s.st, s.hub) && (e.Nack? || e.Leave?)
    ensures InStep(KeyNext(s, e).st, KeyNext(s, e).hub)
  {
    if !Owns(s.st, s.hub, e.c) {
      InStepAt(s.st, s.hub, KeyNext(s, e));
    } else if e.Nack? {
      NackedInStep(s.st, s.hub, e.c, e.ids);
      InStepAt(s.st, KeyNacked(s.st, s.hub, e.c, e.ids), KeyNext(s, e));
    } else {
      LeftInStep(s.st, s.hub, e.c);
      InStepAt(s.st, KeyLeft(s.st, s.hub, e.c), KeyNext(s, e));
    }
  }

  lemma AckInStep(s: KeySystem, e: KeyEvent)
    requires KeyInv(s.st, s.hub) && InStep(s.st, s.hub) && e.Ack?
    ensures InStep(KeyNext(s, e).st, KeyNext(s, e).hub)
  {
    AckedInStep(s.st, s.hub, e.ids, KeyNext(s, e));
  }

  lemma SeekInStep(s: KeySystem, e: KeyEvent)
    requires Drains(s, e) && e.Seek?
    ensures InStep(KeyNext(s, e).st, KeyNext(s, e).hub)
  {
    SoughtInStep(s.st, s.hub, e.to, e.kept);
    InStepAt(SoughtStore(s.st, e.to), KeySought(s.st, s.hub, e.to, e.kept), KeyNext(s, e));
  }

  lemma ServingInStep(s: KeySystem, e: KeyEvent)
    requires KeyInv(s.st, s.hub) && InStep(s.st, s.hub) && (e.Publish? || e.Join? || e.Flow? || e.Pass?)
    ensures InStep(KeyNext(s, e).st, KeyNext(s, e).hub)
  {
    match e
    case Publish(_) =>
    case Join(c) => JoinedInStep(s.st, s.hub, c);
    case Flow(c, n) => FlowedInStep(s.st, s.hub, c, n);
    case Pass(envs) => PassInStep(s.st, s.hub, envs);
  }

  lemma NextInStep(s: KeySystem, e: KeyEvent)
    requires KeyInv(s.st, s.hub) && InStep(s.st, s.hub) && Drains(s, e)
    ensures InStep(KeyNext(s, e).st, KeyNext(s, e).hub)
  {
    if e.Nack? || e.Leave? {
      ReturnInStep(s, e);
    } else if e.Ack? {
      AckInStep(s, e);
    } else if e.Seek? {
      SeekInStep(s, e);
    } else {
      ServingInStep(s, e);
    }
  }

  ghost predicate DrainsAt(st: Store, events: seq<KeyEvent>, n: nat) {
    n < |events| ==> Drains(KeyRun(KeyInit(st), events[..n]), events[n])
  }

  lemma {:induction false} RunInStep(st: Store, events: seq<KeyEvent>)
    requires forall n: nat :: n < |events| ==> DrainsAt(st, events, n)
    ensures InStep(KeyRun(KeyInit(st), events).st, KeyRun(KeyInit(st), events).hub)
  {
    if events != [] {
      var n := |events| - 1;
      forall i: nat | i < n ensures DrainsAt(st, events[..n], i) {
        assert DrainsAt(st, events, i) && events[..n][..i] == events[..i];
      }
      RunInStep(st, events[..n]);
      KeyInitInv(st);
      KeyRunKeeps(KeyInit(st), events[..n]);
      assert DrainsAt(st, events, n);
      NextInStep(KeyRun(KeyInit(st), events[..n]), events[n]);
    }
  }

  /** In every run whose seeks leave nothing pending, each message a pass hands out follows every earlier
      unacknowledged message of its hash. */
  lemma KeyOrderOverRuns(st: Store, events: seq<KeyEvent>, envs: seq<Env>)
    requires forall n: nat :: n < |events| ==> DrainsAt(st, events, n)
    ensures var s := KeyRun(KeyInit(st), events);
            var p := Stage(s.hub, BatchSize(s.hub.total), 0, true);
            && InOrder(s.st, s.hub.consumers, PassSent(s.st, p, 0, envs))
            && Moved(s.st, s.hub, KeyDispatch(s.st, s.hub, envs).hub, PassSent(s.st, p, 0, envs))
  {
    var s := KeyRun(KeyInit(st), events);
    RunInStep(st, events);
    KeyInitInv(st);
    KeyRunKeeps(KeyInit(st), events);
    PassInOrder(s.st, Stage(s.hub, BatchSize(s.hub.total), 0, true), 0, envs);
  }
}
