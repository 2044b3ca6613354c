/**
 How far a pass of the Key_Shared dispatcher gets, and why it stops.
 */
module KeyPasses {
  import opened Base
  import opened SharedDispatch
  import opened Redelivery
  import opened KeyShared
  import opened KeySharedRuns
  import opened KeyRunOrder
  import opened KeyProgress
  import opened KeyBudget

  // ---------------------------------------------------------------- why a pass stops

  /** Every stored message is acknowledged, pending or queued. */
  ghost predicate AllRead(st: Store, k: KeyHub) {
    forall m: nat :: m < |st.log| ==> m in st.acked || Owned(k.consumers, m) || m in k.ctl.entries
  }

  /** Nobody whose range has the hash can take a message. */
  ghost predicate NoTaker(k: KeyHub, writable: set<nat>, hash: int) {
    forall i :: 0 <= i < |k.shares| && k.shares[i].range.Has(hash) ==>
      !CanTake(k.consumers, writable, k.shares[i].consumer)
  }

  /** The first message that is neither acknowledged, pending nor queued; nothing of its hash is queued or in
      flight. */
  ghost predicate NextUnread(st: Store, k: KeyHub, m: nat) {
    && m < |st.log| && m !in st.acked && !Owned(k.consumers, m) && m !in k.ctl.entries
    && (forall x: nat :: x < m ==> x in st.acked || Owned(k.consumers, x) || x in k.ctl.entries)
    && (forall x :: x in k.ctl.entries && x < |st.log| ==> st.log[x].hash != st.log[m].hash)
    && !HashInFlight(k.ctl, st.log[m].hash)
  }

  ghost predicate NextRefused(st: Store, k: KeyHub, writable: set<nat>) {
    exists m: nat :: NextUnread(st, k, m) && NoTaker(k, writable, st.log[m].hash)
  }

  /** A message of the queue that could be redelivered. */
  ghost predicate QueuedRefused(st: Store, k: KeyHub, writable: set<nat>) {
    exists m :: Deliverable(st, k, writable, m)
  }

  /** The message read last is in the queue. */
  ghost predicate ReadRefused(k: KeyHub) {
    exists m :: m in k.ctl.entries && k.read == Some(m + 1)
  }

  /** `env` is what the connections did in the last iteration. */
  ghost predicate KeyStops(st: Store, k: KeyHub, env: Env) {
    || (!env.sent && QueuedRefused(st, k, env.writable))
    || (!env.sentFresh && ReadRefused(k))
    || AllRead(st, k)
    || NextRefused(st, k, env.writableFresh)
  }

  lemma {:induction false} SelectNone(k: KeyHub, writable: set<nat>, hash: int, i: nat)
    requires Select(k, writable, hash, i).None?
    ensures forall j :: i <= j < |k.shares| && k.shares[j].range.Has(hash) ==>
              !CanTake(k.consumers, writable, k.shares[j].consumer)
    decreases |k.shares| - i
  {
    if i < |k.shares| { SelectNone(k, writable, hash, i + 1); }
  }

  /** Everything before the message reading stands at is acknowledged, pending or queued. */
  lemma ReadCovers(st: Store, k: KeyHub, r: nat, x: nat)
    requires KeyInv(st, k) && ReadFrom(st, k.read) == Some(r) && x < SkipBusy(st, k.consumers, r)
    ensures x in st.acked || Owned(k.consumers, x) || x in k.ctl.entries
  {
    QueueKeys(k.ctl);
    if x < r && k.read.Some? { assert x in st.acked || x in AsHub(k).queue || Owned(k.consumers, x); }
  }

  lemma DeliverableAgain(st: Store, k: KeyHub, after: KeyHub, writable: set<nat>, m: nat)
    requires Deliverable(st, k, writable, m) && m in after.ctl.entries && after.ctl.inFlight == k.ctl.inFlight
    requires after.consumers == k.consumers && after.shares == k.shares
    ensures QueuedRefused(st, after, writable)
  {
    SelectSame(k, after, writable, st.log[m].hash, 0);
    assert Deliverable(st, after, writable, m);
  }

  lemma PutBackShape(st: Store, k: KeyHub, m: nat, c: nat)
    requires KeyInv(st, k) && Found(st, k, m, c)
    ensures var after := PutBack(st, k, m);
            && m in after.ctl.entries && after.ctl.inFlight == k.ctl.inFlight
            && after.consumers == k.consumers && after.shares == k.shares
  {
    TakeRestored(st, k.ctl, m, k.ctl.entries[m].count + 1);
    TakeShape(k.ctl, m, st.log[m].hash);
  }

  lemma RedeliverStops(st: Store, p: Stage, env: Env)
    requires KeyInv(st, p.hub) && p.go && !RedeliverPhase(st, p, env).go
    ensures !env.sent && QueuedRefused(st, RedeliverPhase(st, p, env).hub, env.writable)
  {
    var todo := p.hub.ctl.entries.Keys;
    var (k, found) := Scan(st, p.hub, todo, env.writable);
    ScanExact(st, p.hub, todo, env.writable);
    ScanKeepsRead(st, p.hub, todo, env.writable);
    ScanFindsFirst(st, p.hub, todo, env.writable);
    PutBackShape(st, k, found.value.0, found.value.1);
    DeliverableAgain(st, p.hub, PutBack(st, k, found.value.0), env.writable, found.value.0);
  }

  lemma AllReadAt(st: Store, k: KeyHub, after: KeyHub)
    requires KeyInv(st, k) && after.consumers == k.consumers && after.ctl == k.ctl
    requires match ReadFrom(st, k.read) case None => true case Some(r) => SkipBusy(st, k.consumers, r) >= |st.log|
    ensures AllRead(st, after)
  {
    var r := ReadFrom(st, k.read);
    if r.Some? {
      forall x: nat | x < |st.log| ensures x in st.acked || Owned(k.consumers, x) || x in k.ctl.entries {
        ReadCovers(st, k, r.value, x);
      }
    }
  }

  lemma NextRefusedAt(st: Store, k: KeyHub, after: KeyHub, writable: set<nat>, m: nat)
    requires KeyInv(st, k) && after.consumers == k.consumers && after.ctl == k.ctl && after.shares == k.shares
    requires ReadFrom(st, k.read).Some? && m == SkipBusy(st, k.consumers, ReadFrom(st, k.read).value) && m < |st.log|
    requires !Blocked(k.ctl, st.log[m].hash) && Select(k, writable, st.log[m].hash, 0).None?
    ensures NextRefused(st, after, writable)
  {
    forall x: nat | x < m ensures x in st.acked || Owned(k.consumers, x) || x in k.ctl.entries {
      ReadCovers(st, k, ReadFrom(st, k.read).value, x);
    }
    UnblockedIsNowhere(st, k, m);
    SelectNone(k, writable, st.log[m].hash, 0);
    assert NextUnread(st, after, m) && NoTaker(after, writable, st.log[m].hash);
  }

  lemma FreshStops(st: Store, p: Stage, env: Env)
    requires KeyInv(st, p.hub) && p.go && !FreshPhase(st, p, env).go
    ensures var k := FreshPhase(st, p, env).hub;
            (!env.sentFresh && ReadRefused(k)) || AllRead(st, k) || NextRefused(st, k, env.writableFresh)
  {
    var r, after := ReadFrom(st, p.hub.read), FreshPhase(st, p, env).hub;
    if r.None? {
      AllReadAt(st, p.hub, after);
    } else {
      var m := SkipBusy(st, p.hub.consumers, r.value);
      if m >= |st.log| {
        AllReadAt(st, p.hub, after);
      } else {
        var hash := st.log[m].hash;
        SelectSame(p.hub, p.hub.(read := Some(m)), env.writableFresh, hash, 0);
        if Select(p.hub, env.writableFresh, hash, 0).None? {
          NextRefusedAt(st, p.hub, after, env.writableFresh, m);
        } else {
          RestoreQueues(p.hub.ctl, m, Entry(1, Some(hash)));
        }
      }
    }
  }

  lemma RestoreQueues(ctl: Controller, m: nat, e: Entry)
    ensures m in Restore(ctl, m, e).entries
  {
    ReleaseShape(ctl, m);
    AddShape(Release(ctl, m), m, e);
  }

  lemma IterateStops(st: Store, p: Stage, env: Env)
    requires KeyInv(st, p.hub) && p.go && !KeyIterate(st, p, env).go
    ensures KeyStops(st, KeyIterate(st, p, env).hub, env)
  {
    var q := RedeliverPhase(st, p, env);
    if q.go {
      RedeliverPhaseKeeps(st, p, env);
      FreshStops(st, q, env);
    } else {
      RedeliverStops(st, p, env);
    }
  }

  // ---------------------------------------------------------------- a pass

  lemma NeverUnreads(st: Store, p: Stage, env: Env)
    ensures Unread(st, KeyIterate(st, p, env).hub.read) <= Unread(st, p.hub.read)
  {
    ScanKeepsRead(st, p.hub, p.hub.ctl.entries.Keys, env.writable);
    assert RedeliverPhase(st, p, env).hub.read == p.hub.read;
  }

  /** A pass spends its budget on messages sent, or stops for a reason. */
  lemma {:induction false} BatchSpends(st: Store, p: Stage, i: nat, envs: seq<Env>)
    requires KeyInv(st, p.hub) && p.go
    ensures KeyBatch(st, p, i, envs).go ==> |PassSent(st, p, i, envs)| >= p.left
    decreases Unread(st, p.hub.read)
  {
    if p.left != 0 {
      var env := EnvAt(envs, i);
      IterateReads(st, p, env);
      IterateBudget(st, p, env);
      if KeyIterate(st, p, env).go {
        IterateKeeps(st, p, env);
        BatchSpends(st, KeyIterate(st, p, env), i + 1, envs);
      }
    }
  }

  lemma StepStops(st: Store, p: Stage, env: Env, stops: (KeyHub, Env) -> bool)
    requires KeyInv(st, p.hub) && p.go && forall k, env | KeyStops(st, k, env) :: stops(k, env)
    ensures KeyInv(st, KeyIterate(st, p, env).hub)
    ensures KeyIterate(st, p, env).go || stops(KeyIterate(st, p, env).hub, env)
  {
    IterateKeeps(st, p, env);
    if !KeyIterate(st, p, env).go { IterateStops(st, p, env); }
  }

  /** The pass stops in iteration `last`; every iteration before it read a message. */
  lemma {:induction false} BatchStops(st: Store, p: Stage, i: nat, envs: seq<Env>, stops: (KeyHub, Env) -> bool)
    returns (last: nat)
    requires KeyInv(st, p.hub) && p.go && forall k, env | KeyStops(st, k, env) :: stops(k, env)
    ensures i <= last && last - i + Unread(st, KeyBatch(st, p, i, envs).hub.read) <= Unread(st, p.hub.read)
    ensures KeyBatch(st, p, i, envs).go || stops(KeyBatch(st, p, i, envs).hub, EnvAt(envs, last))
    decreases Unread(st, p.hub.read)
  {
    last := i;
    if p.left != 0 {
      IterateReads(st, p, EnvAt(envs, i));
      NeverUnreads(st, p, EnvAt(envs, i));
      StepStops(st, p, EnvAt(envs, i), stops);
      if KeyIterate(st, p, EnvAt(envs, i)).go {
        last := BatchStops(st, KeyIterate(st, p, EnvAt(envs, i)), i + 1, envs, stops);
      }
    }
  }

  // ---------------------------------------------------------------- what is handed out

  /** Distinct messages nobody owned. */
  ghost predicate Free(consumers: map<nat, Consumer>, sent: seq<nat>) {
    && (forall i :: 0 <= i < |sent| ==> !Owned(consumers, sent[i]))
    && forall i, j :: 0 <= i < j < |sent| ==> sent[i] != sent[j]
  }

  lemma FreeAgain(st: Store, a: KeyHub, b: KeyHub, s: seq<nat>, t: seq<nat>)
    requires Moved(st, a, b, s) && Free(a.consumers, s) && Free(b.consumers, t)
    ensures Free(a.consumers, s + t)
  {
    forall i, j | 0 <= i < |s| && 0 <= j < |t| ensures s[i] != t[j] {
      assert s[i] in s && Owned(b.consumers, s[i]);
    }
    forall j | 0 <= j < |t| ensures !Owned(a.consumers, t[j]) {
      assert !Owned(b.consumers, t[j]);
    }
  }

  lemma RedeliverFree(st: Store, p: Stage, env: Env)
    requires KeyInv(st, p.hub)
    ensures Free(p.hub.consumers, RedeliverSent(st, p, env))
  {
    ScanFindsFirst(st, p.hub, p.hub.ctl.entries.Keys, env.writable);
    if RedeliverSent(st, p, env) != [] { FoundIsUnowned(st, p.hub, RedeliverSent(st, p, env)[0]); }
  }

  lemma FreshFree(st: Store, p: Stage, env: Env)
    ensures Free(p.hub.consumers, FreshSent(st, p, env))
  {
  }

  lemma IterateMoves(st: Store, p: Stage, env: Env)
    requires KeyInv(st, p.hub)
    ensures Moved(st, p.hub, KeyIterate(st, p, env).hub, IterateSent(st, p, env))
    ensures Free(p.hub.consumers, IterateSent(st, p, env))
  {
    var q, s := RedeliverPhase(st, p, env), RedeliverSent(st, p, env);
    RedeliverMoves(st, p, env);
    RedeliverFree(st, p, env);
    if q.go {
      RedeliverPhaseKeeps(st, p, env);
      FreshMoves(st, q, env);
      FreshFree(st, q, env);
      MovedAgain(st, p.hub, q.hub, KeyIterate(st, p, env).hub, s, FreshSent(st, q, env));
      FreeAgain(st, p.hub, q.hub, s, FreshSent(st, q, env));
    } else {
      assert s + [] == s;
    }
  }

  lemma {:induction false} BatchMoves(st: Store, p: Stage, i: nat, envs: seq<Env>)
    requires KeyInv(st, p.hub) && p.go
    ensures Moved(st, p.hub, KeyBatch(st, p, i, envs).hub, PassSent(st, p, i, envs))
    ensures Free(p.hub.consumers, PassSent(st, p, i, envs))
    decreases Unread(st, p.hub.read)
  {
    if p.left != 0 {
      var env := EnvAt(envs, i);
      var q, s := KeyIterate(st, p, env), IterateSent(st, p, env);
      IterateReads(st, p, env);
      IterateMoves(st, p, env);
      if q.go {
        IterateKeeps(st, p, env);
        BatchMoves(st, q, i + 1, envs);
        MovedAgain(st, p.hub, q.hub, KeyBatch(st, q, i + 1, envs).hub, s, PassSent(st, q, i + 1, envs));
        FreeAgain(st, p.hub, q.hub, s, PassSent(st, q, i + 1, envs));
      } else {
        assert s + [] == s;
      }
    }
  }

  /** From `k` to `g` the messages `sent` were handed out, each unowned before: one for each permit there is in all,
      up to 20, or the pass stopped in iteration `last`, no later than it has read messages, because a connection
      refused a message, every message is read, or nobody can take the next one. */
  ghost predicate KeyFilled(st: Store, k: KeyHub, g: KeyHub, envs: seq<Env>, sent: seq<nat>, last: nat) {
    var limit := if k.total <= 0 then 0 else if k.total <= 20 then k.total else 20;
    && Moved(st, k, g, sent) && Free(k.consumers, sent) && last + Unread(st, g.read) <= Unread(st, k.read)
    && (|sent| >= limit || KeyStops(st, g, EnvAt(envs, last)))
  }

  lemma KeyPassFills(st: Store, k: KeyHub, envs: seq<Env>, g: KeyHub) returns (sent: seq<nat>, last: nat)
    requires KeyInv(st, k) && g == KeyDispatch(st, k, envs).hub
    ensures KeyFilled(st, k, g, envs, sent, last)
  {
    var p := Stage(k, BatchSize(k.total), 0, true);
    sent := PassSent(st, p, 0, envs);
    BatchMoves(st, p, 0, envs);
    BatchSpends(st, p, 0, envs);
    last := BatchStops(st, p, 0, envs, (a: KeyHub, env: Env) => KeyStops(st, a, env));
  }

  lemma ReachedKeyInv(st: Store, events: seq<KeyEvent>, s: KeySystem)
    requires s == KeyRun(KeyInit(st), events)
    ensures KeyInv(s.st, s.hub)
  {
    KeyInitInv(st);
    KeyRunKeeps(KeyInit(st), events);
  }

  /** In every reachable state. */
  lemma EveryKeyPassFills(st: Store, events: seq<KeyEvent>, s: KeySystem, envs: seq<Env>, g: KeyHub)
    returns (sent: seq<nat>, last: nat)
    requires s == KeyRun(KeyInit(st), events) && g == KeyDispatch(s.st, s.hub, envs).hub
    ensures KeyFilled(s.st, s.hub, g, envs, sent, last)
  {
    ReachedKeyInv(st, events, s);
    sent, last := KeyPassFills(s.st, s.hub, envs, g);
  }

  // ---------------------------------------------------------------- what a pass reports

  /** The message read next, if its hash is blocked: it is queued behind the redeliveries. */
  function FreshQueued(st: Store, k: KeyHub): seq<nat> {
    match ReadFrom(st, k.read)
    case None => []
    case Some(r) =>
      var m := SkipBusy(st, k.consumers, r);
      if m < |st.log| && Blocked(k.ctl, st.log[m].hash) then [m] else []
  }

  /** The messages a pass queues behind redeliveries of their hash, in order. */
  function PassQueued(st: Store, p: Stage, i: nat, envs: seq<Env>): seq<nat>
    requires p.go
    decreases Unread(st, p.hub.read)
  {
    if p.left == 0 then []
    else
      var env := EnvAt(envs, i);
      IterateReads(st, p, env);
      var q, after := RedeliverPhase(st, p, env), KeyIterate(st, p, env);
      (if q.go then FreshQueued(st, q.hub) else []) + if after.go then PassQueued(st, after, i + 1, envs) else []
  }

  lemma RedeliverReports(st: Store, p: Stage, env: Env)
    requires KeyInv(st, p.hub)
    ensures RedeliverPhase(st, p, env).progress == p.progress + |RedeliverSent(st, p, env)|
  {
    ScanExact(st, p.hub, p.hub.ctl.entries.Keys, env.writable);
  }

  lemma FreshReports(st: Store, p: Stage, env: Env)
    ensures FreshPhase(st, p, env).progress == p.progress + |FreshSent(st, p, env)| + |FreshQueued(st, p.hub)|
  {
    var r := ReadFrom(st, p.hub.read);
    if r.Some? {
      var m := SkipBusy(st, p.hub.consumers, r.value);
      if m < |st.log| { SelectSame(p.hub, p.hub.(read := Some(m)), env.writableFresh, st.log[m].hash, 0); }
    }
  }

  lemma {:induction false} BatchReports(st: Store, p: Stage, i: nat, envs: seq<Env>)
    requires KeyInv(st, p.hub) && p.go
    ensures KeyBatch(st, p, i, envs).progress ==
            p.progress + |PassSent(st, p, i, envs)| + |PassQueued(st, p, i, envs)|
    decreases Unread(st, p.hub.read)
  {
    if p.left != 0 {
      var env := EnvAt(envs, i);
      IterateReads(st, p, env);
      RedeliverReports(st, p, env);
      FreshReports(st, RedeliverPhase(st, p, env), env);
      if KeyIterate(st, p, env).go {
        IterateKeeps(st, p, env);
        BatchReports(st, KeyIterate(st, p, env), i + 1, envs);
      }
    }
  }

  /** The number a pass returns is the messages it handed out plus those it read and queued behind a redelivery of
      their hash. */
  lemma PassReports(st: Store, events: seq<KeyEvent>, s: KeySystem, envs: seq<Env>)
    requires s == KeyRun(KeyInit(st), events)
    ensures var p := Stage(s.hub, BatchSize(s.hub.total), 0, true);
            KeyDispatch(s.st, s.hub, envs).progress ==
            |PassSent(s.st, p, 0, envs)| + |PassQueued(s.st, p, 0, envs)|
  {
    ReachedKeyInv(st, events, s);
    BatchReports(s.st, Stage(s.hub, BatchSize(s.hub.total), 0, true), 0, envs);
  }

  // ---------------------------------------------------------------- with healthy connections

  /** Every connection takes whatever it is sent, in more iterations than there are messages. */
  ghost predicate Healthy(st: Store, k: KeyHub, envs: seq<Env>) {
    && |st.log| < |envs|
    && forall i :: 0 <= i < |envs| ==> envs[i].sent && envs[i].sentFresh && k.consumers.Keys <= envs[i].writableFresh
  }

  ghost predicate NoPermits(k: KeyHub, hash: int) {
    forall i :: 0 <= i < |k.shares| && k.shares[i].range.Has(hash) ==>
      k.shares[i].consumer !in k.consumers || k.consumers[k.shares[i].consumer].permits <= 0
  }

  /** The next message is of a hash whose owner has no permits. */
  ghost predicate NextUnpaid(st: Store, k: KeyHub) {
    exists m: nat :: NextUnread(st, k, m) && NoPermits(k, st.log[m].hash)
  }

  lemma RefusedIsUnpaid(st: Store, k: KeyHub, writable: set<nat>)
    requires NextRefused(st, k, writable) && k.consumers.Keys <= writable
    ensures NextUnpaid(st, k)
  {
    var m: nat :| NextUnread(st, k, m) && NoTaker(k, writable, st.log[m].hash);
    assert NextUnread(st, k, m) && NoPermits(k, st.log[m].hash);
  }

  lemma HealthyStops(st: Store, g: KeyHub, envs: seq<Env>, last: nat)
    requires Healthy(st, g, envs) && last <= |st.log| && KeyStops(st, g, EnvAt(envs, last))
    ensures AllRead(st, g) || NextUnpaid(st, g)
  {
    if NextRefused(st, g, envs[last].writableFresh) { RefusedIsUnpaid(st, g, envs[last].writableFresh); }
  }

  /** In every reachable state, when the connections take everything, a pass hands out one message for each permit
      there is in all, up to 20, or until every message is read or the owner of the next one has no permits. */
  lemma HealthyPassFills(st: Store, events: seq<KeyEvent>, s: KeySystem, envs: seq<Env>, g: KeyHub)
    returns (sent: seq<nat>)
    requires s == KeyRun(KeyInit(st), events) && g == KeyDispatch(s.st, s.hub, envs).hub && Healthy(s.st, g, envs)
    ensures Moved(s.st, s.hub, g, sent) && Free(s.hub.consumers, sent)
    ensures |sent| >= (if s.hub.total <= 0 then 0 else if s.hub.total <= 20 then s.hub.total else 20)
            || AllRead(s.st, g) || NextUnpaid(s.st, g)
  {
    var last;
    sent, last := EveryKeyPassFills(st, events, s, envs, g);
    var limit := if s.hub.total <= 0 then 0 else if s.hub.total <= 20 then s.hub.total else 20;
    if |sent| < limit { HealthyStops(s.st, g, envs, last); }
  }
}
