/**
 The Key_Shared dispatcher in ordered mode: hashes are owned by consumers, and a hash with an
 outstanding redelivery is blocked for fresh messages.
 */
module KeyShared {
  import opened Base
  import opened SharedDispatch
  import opened Redelivery
  import opened AutoSplit

  /** A pending ack records the hash of its message, which is the hash stored with the log entry. */
  datatype KeyHub = KeyHub(consumers: map<nat, Consumer>, shares: seq<Assigned>, total: int,
                           read: Option<nat>, ctl: Controller)

  /** Who can take writes when a consumer is selected, and whether the send then succeeds:
      first for the redelivery, then for the fresh message of one iteration. */
  datatype Env = Env(writable: set<nat>, sent: bool, writableFresh: set<nat>, sentFresh: bool)

  /** Where a pass stands: messages it may still send (a wrapping 32-bit counter), progress, whether it goes on. */
  datatype Stage = Stage(hub: KeyHub, left: nat, progress: nat, go: bool)

  predicate CanTake(consumers: map<nat, Consumer>, writable: set<nat>, c: nat) {
    c in consumers && consumers[c].permits > 0 && c in writable
  }

  /** The first assignment from index `i` on that covers the hash and can take a message. */
  function Select(k: KeyHub, writable: set<nat>, hash: int, i: nat): (c: Option<nat>)
    ensures c.Some? ==> CanTake(k.consumers, writable, c.value)
    decreases |k.shares| - i
  {
    if i >= |k.shares| then None
    else
      var a := k.shares[i];
      if a.range.Has(hash) && CanTake(k.consumers, writable, a.consumer) then Some(a.consumer)
      else Select(k, writable, hash, i + 1)
  }

  /** The recorded hash, else the one computed from the stored entry. */
  function HashOf(st: Store, ctl: Controller, m: nat): int
    requires m < |st.log|
  {
    if m in ctl.entries && ctl.entries[m].hash.Some? then ctl.entries[m].hash.value else st.log[m].hash
  }

  // ---------------------------------------------------------------- one iteration

  /** Visit the queued messages of `todo` in order: acknowledged ones leave the queue, the first one whose
      hash has no redelivery in flight and whose owner can take it is found. */
  function Scan(st: Store, k: KeyHub, todo: set<nat>, writable: set<nat>): (KeyHub, Option<(nat, nat)>)
    decreases |todo|
  {
    if todo == {} then (k, None)
    else
      var m := Least(todo);
      var rest := todo - {m};
      if m in st.acked || m >= |st.log| then Scan(st, k.(ctl := Remove(k.ctl, m)), rest, writable)
      else
        var hash := HashOf(st, k.ctl, m);
        if HashInFlight(k.ctl, hash) || m !in k.ctl.entries then Scan(st, k, rest, writable)
        else match Select(k, writable, hash, 0)
          case None => Scan(st, k, rest, writable)
          case Some(c) => (k, Some((m, c)))
  }

  function KeyDeliver(k: KeyHub, c: nat, m: nat, count: nat, n: nat): KeyHub
    requires c in k.consumers
  {
    var was := k.consumers[c];
    k.(consumers := k.consumers[c := Consumer(was.priority, was.permits - n, was.pending[m := count])],
       total := k.total - n)
  }

  function Spend(left: nat): nat {
    if left == 0 then U32_LIMIT - 1 else left - 1
  }

  /** The queued `m` goes to consumer `c` and is in flight from now on. */
  function HandOver(st: Store, k: KeyHub, m: nat, c: nat): KeyHub
    requires m < |st.log| && m in k.ctl.entries && c in k.consumers
  {
    var (taken, e) := Take(k.ctl, m, Some(HashOf(st, k.ctl, m)));
    KeyDeliver(k.(ctl := taken), c, m, e.count, st.log[m].messages)
  }

  /** Taken for delivery, but the send failed. */
  function PutBack(st: Store, k: KeyHub, m: nat): KeyHub
    requires m < |st.log| && m in k.ctl.entries
  {
    var hash := Some(HashOf(st, k.ctl, m));
    var (taken, e) := Take(k.ctl, m, hash);
    k.(ctl := Restore(taken, m, Entry(e.count + 1, hash)))
  }

  function SendQueued(st: Store, p: Stage, m: nat, c: nat, ok: bool): Stage
    requires m < |st.log| && m in p.hub.ctl.entries && c in p.hub.consumers
  {
    if ok then Stage(HandOver(st, p.hub, m, c), Spend(p.left), p.progress + 1, true)
    else Stage(PutBack(st, p.hub, m), Spend(p.left), p.progress, false)
  }

  function SendFound(st: Store, p: Stage, found: Option<(nat, nat)>, ok: bool): Stage {
    match found
    case None => p
    case Some((m, c)) =>
      if m < |st.log| && m in p.hub.ctl.entries && c in p.hub.consumers then SendQueued(st, p, m, c, ok) else p
  }

  function RedeliverPhase(st: Store, p: Stage, env: Env): Stage {
    var (k, found) := Scan(st, p.hub, p.hub.ctl.entries.Keys, env.writable);
    SendFound(st, p.(hub := k), found, env.sent)
  }

  /** A fresh message of a blocked hash is queued behind the redeliveries; otherwise its owner gets it. */
  function KeySendFresh(st: Store, p: Stage, m: nat, env: Env): Stage
    requires m < |st.log|
  {
    var k, hash := p.hub, st.log[m].hash;
    if Blocked(k.ctl, hash) then
      p.(hub := k.(ctl := Add(k.ctl, m, Entry(0, Some(hash))), read := Some(m + 1)), progress := p.progress + 1)
    else
      match Select(k, env.writableFresh, hash, 0)
      case None => p.(go := false)
      case Some(c) =>
        if env.sentFresh then
          Stage(KeyDeliver(k, c, m, 0, st.log[m].messages).(read := Some(m + 1)), Spend(p.left), p.progress + 1, true)
        else
          Stage(k.(ctl := Restore(k.ctl, m, Entry(1, Some(hash))), read := Some(m + 1)), Spend(p.left), p.progress,
                false)
  }

  function FreshPhase(st: Store, p: Stage, env: Env): Stage {
    match ReadFrom(st, p.hub.read)
    case None => p.(go := false)
    case Some(r) =>
      var m := SkipBusy(st, p.hub.consumers, r);
      var at := p.(hub := p.hub.(read := Some(m)));
      if m < |st.log| then KeySendFresh(st, at, m, env) else at.(go := false)
  }

  function KeyIterate(st: Store, p: Stage, env: Env): Stage {
    var q := RedeliverPhase(st, p, env);
    if q.go then FreshPhase(st, q, env) else q
  }

  /** Messages still ahead of the read position. */
  function Unread(st: Store, read: Option<nat>): nat {
    match ReadFrom(st, read)
    case None => 0
    case Some(r) => if r < |st.log| then |st.log| - r else 0
  }

  lemma ScanKeepsRead(st: Store, k: KeyHub, todo: set<nat>, writable: set<nat>)
    ensures Scan(st, k, todo, writable).0.read == k.read
    ensures Scan(st, k, todo, writable).0.consumers == k.consumers && Scan(st, k, todo, writable).0.shares == k.shares
    decreases |todo|
  {
  }

  /** An iteration that goes on has read at least one message, so a pass ends whatever its budget says. */
  lemma IterateReads(st: Store, p: Stage, env: Env)
    requires p.go
    ensures KeyIterate(st, p, env).go ==> Unread(st, KeyIterate(st, p, env).hub.read) < Unread(st, p.hub.read)
  {
    ScanKeepsRead(st, p.hub, p.hub.ctl.entries.Keys, env.writable);
    assert RedeliverPhase(st, p, env).hub.read == p.hub.read;
  }

  /** Past the end of `envs` no consumer can take anything. */
  function EnvAt(envs: seq<Env>, i: nat): Env {
    if i < |envs| then envs[i] else Env({}, false, {}, false)
  }

  function KeyBatch(st: Store, p: Stage, i: nat, envs: seq<Env>): Stage
    requires p.go
    decreases Unread(st, p.hub.read)
  {
    if p.left == 0 then p
    else
      IterateReads(st, p, EnvAt(envs, i));
      var q := KeyIterate(st, p, EnvAt(envs, i));
      if q.go then KeyBatch(st, q, i + 1, envs) else q
  }

  function KeyDispatch(st: Store, k: KeyHub, envs: seq<Env>): Stage {
    KeyBatch(st, Stage(k, BatchSize(k.total), 0, true), 0, envs)
  }

  // ---------------------------------------------------------------- invariants

  function Queue(ctl: Controller): map<nat, nat> {
    map m | m in ctl.entries :: ctl.entries[m].count
  }

  /** Key_Shared ownership seen as Shared ownership. */
  function AsHub(k: KeyHub): Hub {
    Hub(k.consumers, [], 0, k.total, k.read, Queue(k.ctl))
  }

  /** Hashes are those of the log, and each hash has at most one redelivery in flight. */
  ghost predicate Hashed(st: Store, entries: map<nat, Entry>, inFlight: map<nat, int>) {
    && (forall m :: m in entries ==> m < |st.log| && entries[m].hash == Some(st.log[m].hash))
    && (forall m :: m in inFlight ==> m < |st.log| && m !in st.acked && inFlight[m] == st.log[m].hash)
    && (forall m, n :: m in inFlight && n in inFlight && inFlight[m] == inFlight[n] ==> m == n)
  }

  ghost predicate Tracked(st: Store, ctl: Controller) {
    ctl.block && Counted(ctl) && Hashed(st, ctl.entries, ctl.inFlight)
  }

  ghost predicate KeyInv(st: Store, k: KeyHub) {
    Inv(st, AsHub(k)) && Tracked(st, k.ctl)
  }

  lemma HashedPut(st: Store, entries: map<nat, Entry>, inFlight: map<nat, int>, m: nat, e: Entry)
    requires Hashed(st, entries, inFlight) && m < |st.log| && e.hash == Some(st.log[m].hash)
    ensures Hashed(st, entries[m := e], inFlight)
  {
  }

  lemma HashedTake(st: Store, entries: map<nat, Entry>, inFlight: map<nat, int>, m: nat)
    requires Hashed(st, entries, inFlight) && m < |st.log| && m !in st.acked
    requires forall x :: x in inFlight ==> inFlight[x] != st.log[m].hash
    ensures Hashed(st, entries - {m}, inFlight[m := st.log[m].hash])
  {
  }

  lemma RemoveAckedTracked(st: Store, ctl: Controller, m: nat)
    requires Tracked(st, ctl) && m in st.acked
    ensures Tracked(st, Remove(ctl, m)) && Remove(ctl, m).inFlight == ctl.inFlight
    ensures Remove(ctl, m).entries == ctl.entries - {m}
  {
    RemoveCounted(ctl, m);
    RemoveShape(ctl, m);
    assert ctl.inFlight - {m} == ctl.inFlight;
  }

  lemma AddTracked(st: Store, ctl: Controller, m: nat, count: nat)
    requires Tracked(st, ctl) && m < |st.log|
    ensures Tracked(st, Add(ctl, m, Entry(count, Some(st.log[m].hash))))
  {
    var e := Entry(count, Some(st.log[m].hash));
    AddCounted(ctl, m, e);
    AddShape(ctl, m, e);
    HashedPut(st, ctl.entries, ctl.inFlight, m, Add(ctl, m, e).entries[m]);
  }

  lemma TakeTracked(st: Store, ctl: Controller, m: nat)
    requires Tracked(st, ctl) && m in ctl.entries && m !in st.acked && !HashInFlight(ctl, st.log[m].hash)
    ensures Tracked(st, Take(ctl, m, Some(st.log[m].hash)).0)
  {
    TakeCounted(ctl, m, Some(st.log[m].hash));
    TakeShape(ctl, m, st.log[m].hash);
    HashedTake(st, ctl.entries, ctl.inFlight, m);
  }

  /** Undoing a take only changes the entry's count. */
  lemma TakeRestored(st: Store, ctl: Controller, m: nat, count: nat)
    requires Tracked(st, ctl) && m in ctl.entries && m !in st.acked && !HashInFlight(ctl, st.log[m].hash)
    ensures var e := Entry(count, Some(st.log[m].hash));
            var after := Restore(Take(ctl, m, Some(st.log[m].hash)).0, m, e);
            Tracked(st, after) && after.entries == ctl.entries[m := e] && after.inFlight == ctl.inFlight
  {
    var e := Entry(count, Some(st.log[m].hash));
    var taken := Take(ctl, m, Some(st.log[m].hash)).0;
    TakeCounted(ctl, m, Some(st.log[m].hash));
    RestoreCounted(taken, m, e);
    TakeRestoreShape(ctl, m, st.log[m].hash, e);
    HashedPut(st, ctl.entries, ctl.inFlight, m, e);
  }

  lemma QueuePut(ctl: Controller, after: Controller, m: nat)
    requires m in after.entries && after.entries == ctl.entries[m := after.entries[m]]
    ensures Queue(after) == Queue(ctl)[m := after.entries[m].count]
  {
  }

  lemma QueueDrop(ctl: Controller, after: Controller, m: nat)
    requires after.entries == ctl.entries - {m}
    ensures Queue(after) == Queue(ctl) - {m}
  {
  }

  // ---------------------------------------------------------------- the scan

  /** Queued messages outside `todo` cannot be redelivered now. */
  ghost predicate Passed(st: Store, k: KeyHub, todo: set<nat>, writable: set<nat>) {
    forall x :: x in k.ctl.entries && x !in todo && x < |st.log| ==>
      HashInFlight(k.ctl, st.log[x].hash) || Select(k, writable, st.log[x].hash, 0).None?
  }

  /** The found message may be redelivered and is the lowest queued one of its hash. */
  ghost predicate Found(st: Store, k: KeyHub, m: nat, c: nat) {
    && m in k.ctl.entries && m < |st.log| && m !in st.acked && c in k.consumers && k.consumers[c].permits > 0
    && !HashInFlight(k.ctl, st.log[m].hash)
    && forall x :: x in k.ctl.entries && x < |st.log| && st.log[x].hash == st.log[m].hash ==> m <= x
  }

  lemma {:induction false} ScanExact(st: Store, k: KeyHub, todo: set<nat>, writable: set<nat>)
    requires KeyInv(st, k) && Passed(st, k, todo, writable) && forall x :: x in todo ==> x < |st.log|
    ensures var (after, found) := Scan(st, k, todo, writable);
            && KeyInv(st, after) && (found.Some? ==> Found(st, after, found.value.0, found.value.1))
            && after.ctl.inFlight == k.ctl.inFlight && k.ctl.entries.Keys - st.acked <= after.ctl.entries.Keys
    decreases |todo|
  {
    if todo != {} {
      var m := Least(todo);
      var rest := todo - {m};
      if m in st.acked {
        assert rest + {m} == todo;
        ScanAcked(st, k, m, rest, writable);
        ScanExact(st, k.(ctl := Remove(k.ctl, m)), rest, writable);
      } else if HashInFlight(k.ctl, HashOf(st, k.ctl, m)) || m !in k.ctl.entries {
        ScanExact(st, k, rest, writable);
      } else if Select(k, writable, HashOf(st, k.ctl, m), 0).None? {
        ScanExact(st, k, rest, writable);
      }
    }
  }

  lemma ScanAcked(st: Store, k: KeyHub, m: nat, rest: set<nat>, writable: set<nat>)
    requires KeyInv(st, k) && Passed(st, k, rest + {m}, writable) && m in st.acked
    ensures KeyInv(st, k.(ctl := Remove(k.ctl, m))) && Passed(st, k.(ctl := Remove(k.ctl, m)), rest, writable)
    ensures Remove(k.ctl, m).inFlight == k.ctl.inFlight && Remove(k.ctl, m).entries == k.ctl.entries - {m}
  {
    RemoveAckedTracked(st, k.ctl, m);
    QueueDrop(k.ctl, Remove(k.ctl, m), m);
    UnqueueKeepsInv(st, AsHub(k), m);
    PassedDrop(st, k, k.(ctl := Remove(k.ctl, m)), m, rest, writable);
  }

  lemma PassedDrop(st: Store, k: KeyHub, after: KeyHub, m: nat, rest: set<nat>, writable: set<nat>)
    requires Passed(st, k, rest + {m}, writable) && after == k.(ctl := after.ctl)
    requires after.ctl.inFlight == k.ctl.inFlight && after.ctl.entries == k.ctl.entries - {m}
    ensures Passed(st, after, rest, writable)
  {
    forall x | x in after.ctl.entries && x !in rest && x < |st.log|
      ensures HashInFlight(after.ctl, st.log[x].hash) || Select(after, writable, st.log[x].hash, 0).None?
    {
      SelectSame(k, after, writable, st.log[x].hash, 0);
      assert HashInFlight(k.ctl, st.log[x].hash) || Select(k, writable, st.log[x].hash, 0).None?;
    }
  }

  lemma SelectSame(k: KeyHub, after: KeyHub, writable: set<nat>, hash: int, i: nat)
    requires after.consumers == k.consumers && after.shares == k.shares
    ensures Select(after, writable, hash, i) == Select(k, writable, hash, i)
    decreases |k.shares| - i
  {
  }

  // ---------------------------------------------------------------- an iteration keeps the invariants

  lemma HandOverHub(st: Store, k: KeyHub, m: nat, c: nat)
    requires m < |st.log| && m in k.ctl.entries && c in k.consumers && k.ctl.block
    ensures var h := AsHub(k);
            AsHub(HandOver(st, k, m, c))
            == SharedDispatch.Deliver(h.(queue := h.queue - {m}), c, m, k.ctl.entries[m].count, st.log[m].messages)
  {
    TakeShape(k.ctl, m, HashOf(st, k.ctl, m));
    QueueDrop(k.ctl, HandOver(st, k, m, c).ctl, m);
  }

  lemma HandOverKeeps(st: Store, k: KeyHub, m: nat, c: nat)
    requires KeyInv(st, k) && Found(st, k, m, c)
    ensures Inv(st, AsHub(HandOver(st, k, m, c))) && Tracked(st, HandOver(st, k, m, c).ctl)
  {
    HandOverHub(st, k, m, c);
    MoveKeepsInv(st, AsHub(k), c, m, k.ctl.entries[m].count);
    TakeTracked(st, k.ctl, m);
  }

  lemma PutBackHub(st: Store, k: KeyHub, m: nat)
    requires m < |st.log| && m in k.ctl.entries && k.ctl.block && m !in k.ctl.inFlight
    ensures AsHub(PutBack(st, k, m)) == AsHub(k).(queue := AsHub(k).queue[m := k.ctl.entries[m].count + 1])
  {
    var hash := HashOf(st, k.ctl, m);
    TakeShape(k.ctl, m, hash);
    TakeRestoreShape(k.ctl, m, hash, Entry(k.ctl.entries[m].count + 1, Some(hash)));
    QueuePut(k.ctl, PutBack(st, k, m).ctl, m);
  }

  lemma PutBackInv(st: Store, k: KeyHub, m: nat)
    requires Inv(st, AsHub(k)) && m in k.ctl.entries && k.ctl.block && m !in k.ctl.inFlight && m < |st.log|
    ensures Inv(st, AsHub(PutBack(st, k, m)))
  {
    PutBackHub(st, k, m);
    assert m in AsHub(k).queue;
    QueueKeepsInv(st, AsHub(k), m, k.ctl.entries[m].count + 1);
  }

  lemma PutBackTracked(st: Store, k: KeyHub, m: nat)
    requires Tracked(st, k.ctl) && m in k.ctl.entries && m !in st.acked && !HashInFlight(k.ctl, st.log[m].hash)
    ensures Tracked(st, PutBack(st, k, m).ctl) && m !in k.ctl.inFlight
  {
    TakeShape(k.ctl, m, st.log[m].hash);
    TakeRestored(st, k.ctl, m, k.ctl.entries[m].count + 1);
  }

  lemma {:induction false} SendQueuedKeeps(st: Store, p: Stage, m: nat, c: nat, ok: bool)
    requires KeyInv(st, p.hub) && Found(st, p.hub, m, c)
    ensures KeyInv(st, SendQueued(st, p, m, c, ok).hub)
  {
    if ok {
      HandOverKeeps(st, p.hub, m, c);
    } else {
      PutBackTracked(st, p.hub, m);
      PutBackInv(st, p.hub, m);
    }
  }

  lemma {:induction false} SendFoundKeeps(st: Store, p: Stage, found: Option<(nat, nat)>, ok: bool)
    requires KeyInv(st, p.hub) && (found.Some? ==> Found(st, p.hub, found.value.0, found.value.1))
    ensures KeyInv(st, SendFound(st, p, found, ok).hub)
  {
    if found.Some? { SendQueuedKeeps(st, p, found.value.0, found.value.1, ok); }
  }

  lemma {:induction false} RedeliverPhaseKeeps(st: Store, p: Stage, env: Env)
    requires KeyInv(st, p.hub)
    ensures KeyInv(st, RedeliverPhase(st, p, env).hub)
  {
    var scan := Scan(st, p.hub, p.hub.ctl.entries.Keys, env.writable);
    ScanExact(st, p.hub, p.hub.ctl.entries.Keys, env.writable);
    SendFoundKeeps(st, p.(hub := scan.0), scan.1, env.sent);
  }

  /** What an unread message must be before it is sent or queued. */
  ghost predicate Next(st: Store, k: KeyHub, m: nat) {
    k.read == Some(m) && m < |st.log| && m !in st.acked && !Owned(k.consumers, m)
  }

  lemma AddFreshKeeps(st: Store, k: KeyHub, m: nat, count: nat)
    requires KeyInv(st, k) && Next(st, k, m)
    ensures KeyInv(st, k.(ctl := Add(k.ctl, m, Entry(count, Some(st.log[m].hash))), read := Some(m + 1)))
  {
    var e, h := Entry(count, Some(st.log[m].hash)), AsHub(k);
    var ctl := Add(k.ctl, m, e);
    var n := ctl.entries[m].count;
    AddTracked(st, k.ctl, m, count);
    AddShape(k.ctl, m, e);
    QueuePut(k.ctl, ctl, m);
    QueueKeepsInv(st, h, m, n);
    ReadPast(st, h.(queue := h.queue[m := n]), m);
    assert AsHub(k.(ctl := ctl, read := Some(m + 1))) == h.(queue := h.queue[m := n], read := Some(m + 1));
  }

  lemma UnblockedIsNowhere(st: Store, k: KeyHub, m: nat)
    requires KeyInv(st, k) && m < |st.log| && !Blocked(k.ctl, st.log[m].hash)
    ensures m !in k.ctl.entries && m !in k.ctl.inFlight
    ensures forall x :: x in k.ctl.entries ==> st.log[x].hash != st.log[m].hash
    ensures !HashInFlight(k.ctl, st.log[m].hash)
  {
    BlockedExact(k.ctl, st.log[m].hash);
    forall x | x in k.ctl.entries ensures st.log[x].hash != st.log[m].hash {
      assert x !in QueuedWith(k.ctl.entries, st.log[m].hash);
    }
  }

  lemma DeliverFreshKeeps(st: Store, k: KeyHub, c: nat, m: nat)
    requires KeyInv(st, k) && Next(st, k, m) && m !in k.ctl.entries && c in k.consumers
    ensures KeyInv(st, KeyDeliver(k, c, m, 0, st.log[m].messages).(read := Some(m + 1)))
  {
    var h := AsHub(k);
    DeliverKeepsInv(st, h, c, m, 0);
    ReadPast(st, SharedDispatch.Deliver(h, c, m, 0, st.log[m].messages), m);
    assert AsHub(KeyDeliver(k, c, m, 0, st.log[m].messages).(read := Some(m + 1)))
        == SharedDispatch.Deliver(h, c, m, 0, st.log[m].messages).(read := Some(m + 1));
  }

  lemma SendFreshKeeps(st: Store, p: Stage, m: nat, env: Env)
    requires KeyInv(st, p.hub) && Next(st, p.hub, m)
    ensures KeyInv(st, KeySendFresh(st, p, m, env).hub)
  {
    var k, hash := p.hub, st.log[m].hash;
    if Blocked(k.ctl, hash) {
      AddFreshKeeps(st, k, m, 0);
    } else {
      UnblockedIsNowhere(st, k, m);
      var chosen := Select(k, env.writableFresh, hash, 0);
      if chosen.Some? {
        if env.sentFresh { DeliverFreshKeeps(st, k, chosen.value, m); } else { AddFreshKeeps(st, k, m, 1); }
      }
    }
  }

  lemma FreshPhaseKeeps(st: Store, p: Stage, env: Env)
    requires KeyInv(st, p.hub)
    ensures KeyInv(st, FreshPhase(st, p, env).hub)
  {
    var from, h := ReadFrom(st, p.hub.read), AsHub(p.hub);
    if from.Some? {
      var m := SkipBusy(st, p.hub.consumers, from.value);
      ReadFromCovered(st, h);
      SkipBusyCovered(st, h.(read := from), from.value);
      var at := p.(hub := p.hub.(read := Some(m)));
      assert AsHub(at.hub) == h.(read := Some(m));
      if m < |st.log| { SendFreshKeeps(st, at, m, env); }
    }
  }

  lemma IterateKeeps(st: Store, p: Stage, env: Env)
    requires KeyInv(st, p.hub)
    ensures KeyInv(st, KeyIterate(st, p, env).hub)
  {
    RedeliverPhaseKeeps(st, p, env);
    FreshPhaseKeeps(st, RedeliverPhase(st, p, env), env);
  }

  lemma {:induction false} BatchKeeps(st: Store, p: Stage, i: nat, envs: seq<Env>)
    requires KeyInv(st, p.hub) && p.go
    ensures KeyInv(st, KeyBatch(st, p, i, envs).hub)
    decreases Unread(st, p.hub.read)
  {
    if p.left != 0 {
      IterateKeeps(st, p, EnvAt(envs, i));
      IterateReads(st, p, EnvAt(envs, i));
      var q := KeyIterate(st, p, EnvAt(envs, i));
      if q.go { BatchKeeps(st, q, i + 1, envs); }
    }
  }
}
