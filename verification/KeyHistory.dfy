/**
 What a Key_Shared run remembers: redelivery counts are the number of earlier attempts, and permits
 add up.
 */
module KeyHistory {
  import opened Base
  import opened SharedDispatch
  import opened SharedHistory
  import opened Redelivery
  import opened KeyShared
  import opened KeySharedRuns

  // ---------------------------------------------------------------- permits

  /** The balances of the listed consumers together. */
  ghost function Permits(consumers: map<nat, Consumer>, keys: set<nat>): int
    requires keys <= consumers.Keys
    decreases |keys|
  {
    if keys == {} then 0 else var c := Least(keys); consumers[c].permits + Permits(consumers, keys - {c})
  }

  lemma {:induction false} PermitsSame(a: map<nat, Consumer>, b: map<nat, Consumer>, keys: set<nat>)
    requires keys <= a.Keys && keys <= b.Keys && forall c :: c in keys ==> a[c].permits == b[c].permits
    ensures Permits(a, keys) == Permits(b, keys)
    decreases |keys|
  {
    if keys != {} { PermitsSame(a, b, keys - {Least(keys)}); }
  }

  lemma {:induction false} PermitsSplit(consumers: map<nat, Consumer>, keys: set<nat>, c: nat)
    requires keys <= consumers.Keys && c in keys
    ensures Permits(consumers, keys) == consumers[c].permits + Permits(consumers, keys - {c})
    decreases |keys|
  {
    var d := Least(keys);
    if d != c {
      PermitsSplit(consumers, keys - {d}, c);
      assert d in keys - {c} && Least(keys - {c}) in keys;
      assert keys - {d} - {c} == keys - {c} - {d};
    }
  }

  /** What the aggregate says beyond the connected balances. */
  ghost function Excess(k: KeyHub): int {
    k.total - Permits(k.consumers, k.consumers.Keys)
  }

  lemma {:induction false} UpdateExcess(k: KeyHub, g: KeyHub, c: nat)
    requires c in k.consumers && g.consumers.Keys == k.consumers.Keys
    requires forall d :: d in k.consumers && d != c ==> g.consumers[d].permits == k.consumers[d].permits
    requires g.total - k.total == g.consumers[c].permits - k.consumers[c].permits
    ensures Excess(g) == Excess(k)
  {
    var keys := k.consumers.Keys;
    PermitsSplit(k.consumers, keys, c);
    PermitsSplit(g.consumers, keys, c);
    PermitsSame(k.consumers, g.consumers, keys - {c});
  }

  lemma {:induction false} SamePermits(k: KeyHub, g: KeyHub)
    requires g.consumers.Keys == k.consumers.Keys && g.total == k.total
    requires forall d :: d in k.consumers ==> g.consumers[d].permits == k.consumers[d].permits
    ensures Excess(g) == Excess(k)
  {
    PermitsSame(k.consumers, g.consumers, k.consumers.Keys);
  }

  lemma DeliverExcess(k: KeyHub, c: nat, m: nat, count: nat, n: nat)
    requires c in k.consumers
    ensures Excess(KeyDeliver(k, c, m, count, n)) == Excess(k)
  {
    UpdateExcess(k, KeyDeliver(k, c, m, count, n), c);
  }

  lemma {:induction false} RedeliverExcess(st: Store, p: Stage, env: Env)
    ensures Excess(RedeliverPhase(st, p, env).hub) == Excess(p.hub)
  {
    var todo := p.hub.ctl.entries.Keys;
    var scan := Scan(st, p.hub, todo, env.writable);
    ScanKeepsRead(st, p.hub, todo, env.writable);
    ScanKeepsTotal(st, p.hub, todo, env.writable);
    if scan.1.Some? && scan.1.value.1 in p.hub.consumers && scan.1.value.0 < |st.log|
       && scan.1.value.0 in scan.0.ctl.entries
    {
      var (x, to) := scan.1.value;
      var (taken, e) := Take(scan.0.ctl, x, Some(HashOf(st, scan.0.ctl, x)));
      DeliverExcess(scan.0.(ctl := taken), to, x, e.count, st.log[x].messages);
    }
  }

  lemma {:induction false} ScanKeepsTotal(st: Store, k: KeyHub, todo: set<nat>, writable: set<nat>)
    ensures Scan(st, k, todo, writable).0.total == k.total
    decreases |todo|
  {
    if todo != {} {
      var m := Least(todo);
      ScanKeepsTotal(st, k, todo - {m}, writable);
      ScanKeepsTotal(st, k.(ctl := Remove(k.ctl, m)), todo - {m}, writable);
    }
  }

  lemma {:induction false} FreshExcess(st: Store, p: Stage, env: Env)
    ensures Excess(FreshPhase(st, p, env).hub) == Excess(p.hub)
  {
    var from := ReadFrom(st, p.hub.read);
    if from.Some? && SkipBusy(st, p.hub.consumers, from.value) < |st.log| {
      var x := SkipBusy(st, p.hub.consumers, from.value);
      var at := p.hub.(read := Some(x));
      var chosen := Select(at, env.writableFresh, st.log[x].hash, 0);
      if chosen.Some? { DeliverExcess(at, chosen.value, x, 0, st.log[x].messages); }
    }
  }

  lemma {:induction false} BatchExcess(st: Store, p: Stage, i: nat, envs: seq<Env>)
    requires p.go
    ensures Excess(KeyBatch(st, p, i, envs).hub) == Excess(p.hub)
    decreases Unread(st, p.hub.read)
  {
    if p.left != 0 {
      var env := EnvAt(envs, i);
      RedeliverExcess(st, p, env);
      FreshExcess(st, RedeliverPhase(st, p, env), env);
      IterateReads(st, p, env);
      var q := KeyIterate(st, p, env);
      if q.go { BatchExcess(st, q, i + 1, envs); }
    }
  }

  /** What a leaver owes stays in the aggregate. */
  function KeyOwes(k: KeyHub, c: nat): int {
    if c in k.consumers && k.consumers[c].permits < 0 then k.consumers[c].permits else 0
  }

  lemma {:induction false} LeftExcess(st: Store, k: KeyHub, c: nat)
    requires Owns(st, k, c)
    ensures Excess(KeyLeft(st, k, c)) == Excess(k) + KeyOwes(k, c)
  {
    var g := KeyLeft(st, k, c);
    PermitsSplit(k.consumers, k.consumers.Keys, c);
    assert g.consumers.Keys == k.consumers.Keys - {c};
    PermitsSame(k.consumers, g.consumers, g.consumers.Keys);
  }

  lemma {:induction false} JoinedExcess(k: KeyHub, c: nat)
    ensures Excess(KeyJoined(k, c)) == Excess(k)
  {
    if c !in k.consumers {
      var g := KeyJoined(k, c);
      PermitsSplit(g.consumers, g.consumers.Keys, c);
      assert g.consumers.Keys - {c} == k.consumers.Keys;
      PermitsSame(k.consumers, g.consumers, k.consumers.Keys);
    }
  }

  /** What every departed consumer owed when it left. */
  function Debt(s: KeySystem, events: seq<KeyEvent>): int {
    if events == [] then 0
    else
      var n := |events| - 1;
      var before := KeyRun(s, events[..n]);
      Debt(s, events[..n])
      + if events[n].Leave? && Owns(before.st, before.hub, events[n].c) then KeyOwes(before.hub, events[n].c) else 0
  }

  lemma {:induction false} NextExcess(s: KeySystem, e: KeyEvent)
    ensures Excess(KeyNext(s, e).hub)
            == Excess(s.hub) + if e.Leave? && Owns(s.st, s.hub, e.c) then KeyOwes(s.hub, e.c) else 0
  {
    match e
    case Publish(_) =>
    case Join(c) => JoinedExcess(s.hub, c);
    case Flow(c, n) => if c in s.hub.consumers { UpdateExcess(s.hub, KeyFlowed(s.hub, c, n), c); }
    case Pass(envs) => BatchExcess(s.st, Stage(s.hub, BatchSize(s.hub.total), 0, true), 0, envs);
    case Ack(ids) => SamePermits(s.hub, KeyAcked(s.st, s.hub, ids));
    case Nack(c, ids) => SamePermits(s.hub, KeyNext(s, e).hub);
    case Leave(c) => if Owns(s.st, s.hub, c) { LeftExcess(s.st, s.hub, c); }
    case Seek(to, kept) => SamePermits(s.hub, KeySought(s.st, s.hub, to, kept));
  }

  /** In every reachable state the aggregate is the sum of the connected balances plus what departed consumers owed. */
  lemma {:induction false} KeyPermitsAddUp(st: Store, events: seq<KeyEvent>)
    ensures var k := KeyRun(KeyInit(st), events).hub;
            k.total == Permits(k.consumers, k.consumers.Keys) + Debt(KeyInit(st), events)
  {
    if events != [] {
      var n := |events| - 1;
      KeyPermitsAddUp(st, events[..n]);
      NextExcess(KeyRun(KeyInit(st), events[..n]), events[n]);
    }
  }

  // ---------------------------------------------------------------- attempts

  /** Attempts after the redelivery phase: one more for the message found. */
  function TriedQueued(tries: map<nat, nat>, st: Store, p: Stage, env: Env): map<nat, nat> {
    TriedFound(tries, Scan(st, p.hub, p.hub.ctl.entries.Keys, env.writable).1)
  }

  function TriedFound(tries: map<nat, nat>, found: Option<(nat, nat)>): map<nat, nat> {
    if found.None? then tries else tries[found.value.0 := TriesOf(tries, found.value.0) + 1]
  }

  /** Attempts after the fresh phase: the first one for a message tried, none for one queued behind its hash. */
  function TriedFresh(tries: map<nat, nat>, st: Store, p: Stage, env: Env): map<nat, nat> {
    match ReadFrom(st, p.hub.read)
    case None => tries
    case Some(r) =>
      var m := SkipBusy(st, p.hub.consumers, r);
      if m >= |st.log| then tries
      else if Blocked(p.hub.ctl, st.log[m].hash) then (if m in p.hub.ctl.entries then tries else tries[m := 0])
      else if Select(p.hub, env.writableFresh, st.log[m].hash, 0).None? then tries
      else tries[m := 1]
  }

  /** What sending a found message relies on. */
  ghost predicate Sendable(st: Store, k: KeyHub, m: nat, c: nat) {
    && k.ctl.block && m in k.ctl.entries && m !in k.ctl.inFlight && m < |st.log| && c in k.consumers
    && !Owned(k.consumers, m)
  }

  lemma {:induction false} SendQueuedCounts(st: Store, p: Stage, m: nat, c: nat, ok: bool, tries: map<nat, nat>)
    requires Sendable(st, p.hub, m, c) && CountsRight(AsHub(p.hub), tries)
    ensures CountsRight(AsHub(SendQueued(st, p, m, c, ok).hub), tries[m := TriesOf(tries, m) + 1])
  {
    var k, h := p.hub, AsHub(p.hub);
    var count := k.ctl.entries[m].count;
    assert m in h.queue && h.queue[m] == count;
    if ok {
      HandOverHub(st, k, m, c);
      DeliverCounts(h.(queue := h.queue - {m}), c, m, count, st.log[m].messages, tries);
    } else {
      PutBackHub(st, k, m);
      QueueCounts(h, m, count + 1, tries);
    }
  }

  lemma {:induction false} SendFoundCounts(st: Store, p: Stage, found: Option<(nat, nat)>, ok: bool,
                                           tries: map<nat, nat>)
    requires (found.Some? ==> Sendable(st, p.hub, found.value.0, found.value.1)) && CountsRight(AsHub(p.hub), tries)
    ensures CountsRight(AsHub(SendFound(st, p, found, ok).hub), TriedFound(tries, found))
  {
    if found.Some? { SendQueuedCounts(st, p, found.value.0, found.value.1, ok, tries); }
  }

  lemma FoundIsSendable(st: Store, k: KeyHub, m: nat, c: nat)
    requires KeyInv(st, k) && Found(st, k, m, c)
    ensures Sendable(st, k, m, c)
  {
    assert m in AsHub(k).queue;
    assert m in k.ctl.inFlight ==> HashInFlight(k.ctl, st.log[m].hash);
  }

  lemma {:induction false} ScanSendable(st: Store, k: KeyHub, writable: set<nat>)
    requires KeyInv(st, k)
    ensures var (after, found) := Scan(st, k, k.ctl.entries.Keys, writable);
            found.Some? ==> Sendable(st, after, found.value.0, found.value.1)
  {
    var scan := Scan(st, k, k.ctl.entries.Keys, writable);
    ScanExact(st, k, k.ctl.entries.Keys, writable);
    if scan.1.Some? { FoundIsSendable(st, scan.0, scan.1.value.0, scan.1.value.1); }
  }

  /** Dropping queued messages keeps the counts of the others. */
  lemma FewerQueued(h: Hub, g: Hub, tries: map<nat, nat>)
    requires CountsRight(h, tries) && g.consumers == h.consumers
    requires forall m :: m in g.queue ==> m in h.queue && g.queue[m] == h.queue[m]
    ensures CountsRight(g, tries)
  {
  }

  lemma {:induction false} ScanEntries(st: Store, k: KeyHub, todo: set<nat>, writable: set<nat>)
    ensures var after := Scan(st, k, todo, writable).0;
            forall m :: m in after.ctl.entries ==> m in k.ctl.entries && after.ctl.entries[m] == k.ctl.entries[m]
    decreases |todo|
  {
    if todo != {} {
      var m := Least(todo);
      RemoveShape(k.ctl, m);
      ScanEntries(st, k.(ctl := Remove(k.ctl, m)), todo - {m}, writable);
      ScanEntries(st, k, todo - {m}, writable);
    }
  }

  lemma {:induction false} ScanCounts(st: Store, k: KeyHub, writable: set<nat>, tries: map<nat, nat>)
    requires CountsRight(AsHub(k), tries)
    ensures CountsRight(AsHub(Scan(st, k, k.ctl.entries.Keys, writable).0), tries)
  {
    ScanKeepsRead(st, k, k.ctl.entries.Keys, writable);
    ScanEntries(st, k, k.ctl.entries.Keys, writable);
    FewerQueued(AsHub(k), AsHub(Scan(st, k, k.ctl.entries.Keys, writable).0), tries);
  }

  lemma {:induction false} RedeliverPhaseCounts(st: Store, p: Stage, env: Env, tries: map<nat, nat>)
    requires KeyInv(st, p.hub) && CountsRight(AsHub(p.hub), tries)
    ensures CountsRight(AsHub(RedeliverPhase(st, p, env).hub), TriedQueued(tries, st, p, env))
  {
    var scan := Scan(st, p.hub, p.hub.ctl.entries.Keys, env.writable);
    ScanSendable(st, p.hub, env.writable);
    ScanCounts(st, p.hub, env.writable, tries);
    SendFoundCounts(st, p.(hub := scan.0), scan.1, env.sent, tries);
  }

  lemma {:induction false} AddFreshCounts(st: Store, k: KeyHub, m: nat, count: nat, tries: map<nat, nat>)
    requires m < |st.log| && !Owned(k.consumers, m) && CountsRight(AsHub(k), tries)
    ensures var after := k.(ctl := Add(k.ctl, m, Entry(count, Some(st.log[m].hash))), read := Some(m + 1));
            && (m !in k.ctl.entries ==> CountsRight(AsHub(after), tries[m := count]))
            && (m in k.ctl.entries && count == 0 ==> CountsRight(AsHub(after), tries))
  {
    var e, h := Entry(count, Some(st.log[m].hash)), AsHub(k);
    var ctl := Add(k.ctl, m, e);
    AddShape(k.ctl, m, e);
    QueuePut(k.ctl, ctl, m);
    QueueCounts(h, m, count, tries);
    assert AsHub(k.(ctl := ctl, read := Some(m + 1))) ==
           h.(queue := h.queue[m := ctl.entries[m].count], read := Some(m + 1));
    if m in k.ctl.entries && count == 0 {
      assert h.queue[m := h.queue[m]] == h.queue;
    }
  }

  lemma {:induction false} FreshPhaseCounts(st: Store, p: Stage, env: Env, tries: map<nat, nat>)
    requires KeyInv(st, p.hub) && CountsRight(AsHub(p.hub), tries)
    ensures CountsRight(AsHub(FreshPhase(st, p, env).hub), TriedFresh(tries, st, p, env))
  {
    var from := ReadFrom(st, p.hub.read);
    if from.Some? && SkipBusy(st, p.hub.consumers, from.value) < |st.log| {
      var m := SkipBusy(st, p.hub.consumers, from.value);
      var at := p.hub.(read := Some(m));
      SelectSame(p.hub, at, env.writableFresh, st.log[m].hash, 0);
      SendFreshKeyCounts(st, p.(hub := at), m, env, tries);
    }
  }

  lemma {:induction false} SendFreshKeyCounts(st: Store, p: Stage, m: nat, env: Env, tries: map<nat, nat>)
    requires Tracked(st, p.hub.ctl) && m < |st.log| && !Owned(p.hub.consumers, m) && CountsRight(AsHub(p.hub), tries)
    ensures var blocked := Blocked(p.hub.ctl, st.log[m].hash);
            var chosen := Select(p.hub, env.writableFresh, st.log[m].hash, 0);
            CountsRight(AsHub(KeySendFresh(st, p, m, env).hub),
                        if blocked then (if m in p.hub.ctl.entries then tries else tries[m := 0])
                        else if chosen.None? then tries else tries[m := 1])
  {
    var k, hash := p.hub, st.log[m].hash;
    var chosen := Select(k, env.writableFresh, hash, 0);
    if Blocked(k.ctl, hash) {
      AddFreshCounts(st, k, m, 0, tries);
    } else if chosen.Some? {
      NotBlockedNotQueued(st, k.ctl, m);
      if env.sentFresh {
        DeliverCounts(AsHub(k), chosen.value, m, 0, st.log[m].messages, tries);
        assert AsHub(KeyDeliver(k, chosen.value, m, 0, st.log[m].messages).(read := Some(m + 1)))
            == SharedDispatch.Deliver(AsHub(k), chosen.value, m, 0, st.log[m].messages).(read := Some(m + 1));
      } else {
        AddFreshCounts(st, k, m, 1, tries);
      }
    }
  }

  lemma NotBlockedNotQueued(st: Store, ctl: Controller, m: nat)
    requires Tracked(st, ctl) && m < |st.log| && !Blocked(ctl, st.log[m].hash)
    ensures m !in ctl.entries && m !in ctl.inFlight
  {
    var hash := st.log[m].hash;
    assert m in ctl.entries ==> m in QueuedWith(ctl.entries, hash);
    BlockedExact(ctl, hash);
  }

  function StageTried(tries: map<nat, nat>, st: Store, p: Stage, env: Env): map<nat, nat> {
    var r, now := RedeliverPhase(st, p, env), TriedQueued(tries, st, p, env);
    if r.go then TriedFresh(now, st, r, env) else now
  }

  function KeyBatchTried(tries: map<nat, nat>, st: Store, p: Stage, i: nat, envs: seq<Env>): map<nat, nat>
    requires p.go
    decreases Unread(st, p.hub.read)
  {
    if p.left == 0 then tries
    else
      var env := EnvAt(envs, i);
      IterateReads(st, p, env);
      var q, now := KeyIterate(st, p, env), StageTried(tries, st, p, env);
      if q.go then KeyBatchTried(now, st, q, i + 1, envs) else now
  }

  lemma {:induction false} StageCounts(st: Store, p: Stage, env: Env, tries: map<nat, nat>)
    requires KeyInv(st, p.hub) && CountsRight(AsHub(p.hub), tries)
    ensures CountsRight(AsHub(KeyIterate(st, p, env).hub), StageTried(tries, st, p, env))
  {
    var r := RedeliverPhase(st, p, env);
    RedeliverPhaseCounts(st, p, env, tries);
    if r.go {
      RedeliverPhaseKeeps(st, p, env);
      FreshPhaseCounts(st, r, env, TriedQueued(tries, st, p, env));
    }
  }

  lemma {:induction false} KeyBatchCounts(st: Store, p: Stage, i: nat, envs: seq<Env>, tries: map<nat, nat>)
    requires p.go && KeyInv(st, p.hub) && CountsRight(AsHub(p.hub), tries)
    ensures CountsRight(AsHub(KeyBatch(st, p, i, envs).hub), KeyBatchTried(tries, st, p, i, envs))
    decreases Unread(st, p.hub.read)
  {
    if p.left != 0 {
      var env := EnvAt(envs, i);
      var q := KeyIterate(st, p, env);
      StageCounts(st, p, env, tries);
      IterateReads(st, p, env);
      if q.go {
        IterateKeeps(st, p, env);
        KeyBatchCounts(st, q, i + 1, envs, StageTried(tries, st, p, env));
      }
    }
  }

  /** A queued entry is either an old one or one added with one more redelivery than recorded. */
  ghost predicate CountedAs(before: map<nat, Entry>, after: map<nat, Entry>, pending: map<nat, nat>, ids: set<nat>) {
    forall m :: m in after ==>
      if m in before then after[m].count == before[m].count
      else m in ids && m in pending && after[m].count == pending[m] + 1
  }

  /** Between the additions: those in `left` are still to come. */
  ghost predicate Adding(before: map<nat, Entry>, pending: map<nat, nat>, ids: set<nat>, now: map<nat, Entry>,
                         left: set<nat>) {
    left <= ids && left !! now.Keys && CountedAs(before, now, pending, ids)
  }

  lemma AddingOne(st: Store, before: map<nat, Entry>, pending: map<nat, nat>, ids: set<nat>, c: Controller,
                  left: set<nat>, m: nat)
    requires Adding(before, pending, ids, c.entries, left) && m in left && ids <= pending.Keys && m < |st.log| &&
             m !in before
    ensures Adding(before, pending, ids, AddOne(st, c, m, pending[m] + 1).entries, left - {m})
  {
    AddShape(c, m, Entry(pending[m] + 1, Some(st.log[m].hash)));
    assert m !in c.entries.Keys;
  }

  lemma AddAllCounts(st: Store, ctl: Controller, pending: map<nat, nat>, ids: set<nat>)
    requires ids <= pending.Keys && forall m :: m in ids ==> m < |st.log| && m !in ctl.entries
    ensures CountedAs(ctl.entries, AddAll(st, ctl, pending, ids).entries, pending, ids)
  {
    var keeps := (c: Controller, left: set<nat>) => Adding(ctl.entries, pending, ids, c.entries, left);
    forall c, left, m | keeps(c, left) && m in left && m in ids
      ensures keeps(AddOne(st, c, m, pending[m] + 1), left - {m})
    {
      AddingOne(st, ctl.entries, pending, ids, c, left, m);
    }
    assert Adding(ctl.entries, pending, ids, ctl.entries, ids);
    AddAllInduct(st, ctl, pending, ids, keeps);
  }

  lemma RequeuedRight(before: map<nat, Entry>, after: Controller, pending: map<nat, nat>, ids: set<nat>,
                      tries: map<nat, nat>)
    requires CountedAs(before, after.entries, pending, ids) && PendingRight(pending, tries)
    requires forall m :: m in before ==> before[m].count == TriesOf(tries, m)
    ensures QueueRight(Queue(after), tries)
  {
  }

  lemma OwnedIsNotQueued(st: Store, k: KeyHub, c: nat)
    requires KeyInv(st, k) && c in k.consumers
    ensures forall m :: m in k.consumers[c].pending ==> m !in k.ctl.entries
  {
    forall m | m in k.consumers[c].pending ensures m !in k.ctl.entries {
      assert Owned(k.consumers, m);
      assert m in k.ctl.entries ==> m in AsHub(k).queue;
    }
  }

  lemma QueuedTries(k: KeyHub, tries: map<nat, nat>)
    requires QueueRight(Queue(k.ctl), tries)
    ensures forall m :: m in k.ctl.entries ==> k.ctl.entries[m].count == TriesOf(tries, m)
  {
    forall m | m in k.ctl.entries ensures k.ctl.entries[m].count == TriesOf(tries, m) {
      assert m in Queue(k.ctl);
    }
  }

  lemma {:induction false} KeyNackedCounts(st: Store, k: KeyHub, c: nat, ids: set<nat>, tries: map<nat, nat>)
    requires KeyInv(st, k) && Owns(st, k, c) && CountsRight(AsHub(k), tries)
    ensures CountsRight(AsHub(KeyNacked(st, k, c, ids)), tries)
  {
    var pending := k.consumers[c].pending;
    var back := ids * pending.Keys - st.acked;
    OwnedIsNotQueued(st, k, c);
    QueuedTries(k, tries);
    AddAllCounts(st, k.ctl, pending, back);
    assert AsHub(k).consumers == k.consumers;
    RequeuedRight(k.ctl.entries, KeyNacked(st, k, c, ids).ctl, pending, back, tries);
  }

  lemma {:induction false} KeyLeftCounts(st: Store, k: KeyHub, c: nat, tries: map<nat, nat>)
    requires KeyInv(st, k) && Owns(st, k, c) && CountsRight(AsHub(k), tries)
    ensures CountsRight(AsHub(KeyLeft(st, k, c)), tries)
  {
    var pending := k.consumers[c].pending;
    OwnedIsNotQueued(st, k, c);
    QueuedTries(k, tries);
    AddAllCounts(st, k.ctl, pending, pending.Keys);
    assert AsHub(k).consumers == k.consumers;
    RequeuedRight(k.ctl.entries, KeyLeft(st, k, c).ctl, pending, pending.Keys, tries);
  }

  lemma {:induction false} KeyAckedCounts(st: Store, k: KeyHub, ids: set<nat>, tries: map<nat, nat>)
    requires CountsRight(AsHub(k), tries)
    ensures CountsRight(AsHub(KeyAcked(st, k, ids)), tries)
  {
    var gone := OwnedAmong(k.consumers, ids);
    var mid := RemoveAll(k.ctl, gone);
    RemoveAllShape(k.ctl, gone);
    RemoveAllShape(mid, mid.entries.Keys * (st.acked + gone));
    QueuedTries(k, tries);
    assert AsHub(k).consumers == k.consumers;
    forall c | c in k.consumers ensures PendingRight(DropAll(k.consumers, gone)[c].pending, tries) {
      assert PendingRight(k.consumers[c].pending, tries);
    }
  }

  function KeyTriesAfter(tries: map<nat, nat>, s: KeySystem, e: KeyEvent): map<nat, nat> {
    if e.Pass? then KeyBatchTried(tries, s.st, Stage(s.hub, BatchSize(s.hub.total), 0, true), 0, e.envs) else tries
  }

  function KeyTries(st: Store, events: seq<KeyEvent>): map<nat, nat> {
    if events == [] then map[]
    else
      var n := |events| - 1;
      KeyTriesAfter(KeyTries(st, events[..n]), KeyRun(KeyInit(st), events[..n]), events[n])
  }

  lemma KeyServingCounts(s: KeySystem, e: KeyEvent, tries: map<nat, nat>)
    requires KeyInv(s.st, s.hub) && CountsRight(AsHub(s.hub), tries) && (e.Publish? || e.Join? || e.Flow? || e.Pass?)
    ensures CountsRight(AsHub(KeyNext(s, e).hub), KeyTriesAfter(tries, s, e))
  {
    match e
    case Publish(_) =>
    case Join(c) =>
    case Flow(c, n) =>
    case Pass(envs) => KeyBatchCounts(s.st, Stage(s.hub, BatchSize(s.hub.total), 0, true), 0, envs, tries);
  }

  lemma KeyCursorCounts(s: KeySystem, e: KeyEvent, tries: map<nat, nat>)
    requires KeyInv(s.st, s.hub) && CountsRight(AsHub(s.hub), tries) && (e.Ack? || e.Seek?)
    ensures CountsRight(AsHub(KeyNext(s, e).hub), KeyTriesAfter(tries, s, e))
  {
    match e
    case Ack(ids) => KeyAckedCounts(s.st, s.hub, ids, tries);
    case Seek(to, kept) => SoughtCounts(s.st, AsHub(s.hub), to, kept, tries);
  }

  lemma CountsAt(k: KeyHub, s: KeySystem, tries: map<nat, nat>, after: map<nat, nat>)
    requires CountsRight(AsHub(k), tries) && s.hub == k && after == tries
    ensures CountsRight(AsHub(s.hub), after)
  {
  }

  lemma KeyNackCounts(s: KeySystem, e: KeyEvent, tries: map<nat, nat>)
    requires KeyInv(s.st, s.hub) && CountsRight(AsHub(s.hub), tries) && e.Nack?
    ensures CountsRight(AsHub(KeyNext(s, e).hub), KeyTriesAfter(tries, s, e))
  {
    if Owns(s.st, s.hub, e.c) {
      KeyNackedCounts(s.st, s.hub, e.c, e.ids, tries);
      CountsAt(KeyNacked(s.st, s.hub, e.c, e.ids), KeyNext(s, e), tries, KeyTriesAfter(tries, s, e));
    } else {
      CountsAt(s.hub, KeyNext(s, e), tries, KeyTriesAfter(tries, s, e));
    }
  }

  lemma KeyLeaveCounts(s: KeySystem, e: KeyEvent, tries: map<nat, nat>)
    requires KeyInv(s.st, s.hub) && CountsRight(AsHub(s.hub), tries) && e.Leave?
    ensures CountsRight(AsHub(KeyNext(s, e).hub), KeyTriesAfter(tries, s, e))
  {
    if Owns(s.st, s.hub, e.c) {
      KeyLeftCounts(s.st, s.hub, e.c, tries);
      CountsAt(KeyLeft(s.st, s.hub, e.c), KeyNext(s, e), tries, KeyTriesAfter(tries, s, e));
    } else {
      CountsAt(s.hub, KeyNext(s, e), tries, KeyTriesAfter(tries, s, e));
    }
  }

  lemma {:induction false} KeyNextCounts(s: KeySystem, e: KeyEvent, tries: map<nat, nat>)
    requires KeyInv(s.st, s.hub) && CountsRight(AsHub(s.hub), tries)
    ensures CountsRight(AsHub(KeyNext(s, e).hub), KeyTriesAfter(tries, s, e))
  {
    if e.Nack? {
      KeyNackCounts(s, e, tries);
    } else if e.Leave? {
      KeyLeaveCounts(s, e, tries);
    } else if e.Ack? || e.Seek? {
      KeyCursorCounts(s, e, tries);
    } else {
      KeyServingCounts(s, e, tries);
    }
  }

  /** In every reachable state a redelivery count is the number of earlier attempts to deliver that message
      since it was last read from the log. */
  lemma {:induction false} KeyCountsAreAttempts(st: Store, events: seq<KeyEvent>)
    ensures CountsRight(AsHub(KeyRun(KeyInit(st), events).hub), KeyTries(st, events))
  {
    if events != [] {
      var n := |events| - 1;
      KeyCountsAreAttempts(st, events[..n]);
      KeyInitInv(st);
      KeyRunKeeps(KeyInit(st), events[..n]);
      KeyNextCounts(KeyRun(KeyInit(st), events[..n]), events[n], KeyTries(st, events[..n]));
    }
  }
}
