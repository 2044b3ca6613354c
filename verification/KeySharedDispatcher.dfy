/**
 The Key_Shared dispatcher object, its hash owners and its batch budget.
 */
module KeySharedDispatchers {
  import opened Base
  import opened SharedDispatch
  import opened Redelivery
  import opened AutoSplit
  import opened KeyShared
  import opened KeySharedRuns

  // ---------------------------------------------------------------- hash owners

  /** No assignment before the owner's covers the hash. */
  lemma {:induction false} SelectSkips(k: KeyHub, writable: set<nat>, hash: int, i: nat, j: nat)
    requires i <= j <= |k.shares| && forall x :: i <= x < j ==> !k.shares[x].range.Has(hash)
    ensures Select(k, writable, hash, i) == Select(k, writable, hash, j)
    decreases j - i
  {
    if i < j { SelectSkips(k, writable, hash, i + 1, j); }
  }

  /** With automatic ranges, selection returns the one owner of the hash if it can take a message, else nobody. */
  lemma SelectsOwner(k: KeyHub, writable: set<nat>, ids: seq<nat>, hash: nat) returns (i: nat)
    requires ids != [] && k.shares == Assignments(ids, |ids|) && hash < HASHES
    ensures i < |ids| && forall j :: 0 <= j < |ids| ==> (RangeOf(j, |ids|).Has(hash) <==> j == i)
    ensures Select(k, writable, hash, 0) == if CanTake(k.consumers, writable, ids[i]) then Some(ids[i]) else None
  {
    i := SplitPartitions(hash, |ids|);
    SelectSkips(k, writable, hash, 0, i);
    SelectSkips(k, writable, hash, i + 1, |ids|);
  }

  lemma {:induction false} SortedIdsExact(ids: set<nat>)
    ensures var s := SortedIds(ids);
            |s| == |ids| && (forall c :: c in s <==> c in ids) && forall i, j :: 0 <= i < j < |s| ==> s[i] < s[j]
    decreases |ids|
  {
    if ids != {} {
      var c := Least(ids);
      var rest := SortedIds(ids - {c});
      SortedIdsExact(ids - {c});
      forall j | 0 <= j < |rest| ensures c < rest[j] { assert rest[j] in rest; }
    }
  }

  // ---------------------------------------------------------------- the budget

  /** A fresh message is attempted: the next unread one is of no blocked hash and its owner can take it. */
  predicate FreshFollows(st: Store, k: KeyHub, writable: set<nat>) {
    match ReadFrom(st, k.read)
    case None => false
    case Some(r) =>
      var x := SkipBusy(st, k.consumers, r);
      x < |st.log| && !Blocked(k.ctl, st.log[x].hash) && Select(k, writable, st.log[x].hash, 0).Some?
  }

  /** A queued message is found and sent, and once it is handed over a fresh message is attempted. */
  predicate SendsTwice(st: Store, hub: KeyHub, env: Env) {
    var (k, found) := Scan(st, hub, hub.ctl.entries.Keys, env.writable);
    match found
    case None => false
    case Some((m, c)) =>
      && m < |st.log| && m in k.ctl.entries && c in k.consumers && env.sent
      && FreshFollows(st, HandOver(st, k, m, c), env.writableFresh)
  }

  lemma FreshSpends(st: Store, p: Stage, env: Env)
    requires p.go
    ensures FreshPhase(st, p, env).left == if FreshFollows(st, p.hub, env.writableFresh) then Spend(p.left) else p.left
  {
    var r := ReadFrom(st, p.hub.read);
    if r.Some? {
      var x := SkipBusy(st, p.hub.consumers, r.value);
      if x < |st.log| { SelectSame(p.hub, p.hub.(read := Some(x)), env.writableFresh, st.log[x].hash, 0); }
    }
  }

  /** The budget wraps exactly when its last unit pays for a redelivery and a fresh message is attempted after it. */
  lemma {:induction false} BudgetWraps(st: Store, p: Stage, env: Env)
    requires p.go && 0 < p.left < U32_LIMIT
    ensures KeyIterate(st, p, env).left > p.left <==> p.left == 1 && SendsTwice(st, p.hub, env)
    ensures KeyIterate(st, p, env).left > p.left ==> KeyIterate(st, p, env).left == U32_LIMIT - 1
  {
    var q := RedeliverPhase(st, p, env);
    if q.go { FreshSpends(st, q, env); }
  }

  lemma FoundIsFree(st: Store, k: KeyHub, m: nat, c: nat)
    requires KeyInv(st, k) && Found(st, k, m, c)
    ensures m !in k.ctl.inFlight && Counted(k.ctl)
  {
    assert m in k.ctl.inFlight ==> HashInFlight(k.ctl, st.log[m].hash);
  }

  lemma KeptByIterate(st: Store, p: Stage, env: Env)
    requires KeyInv(st, p.hub) && p.go
    ensures KeyInv(st, KeyIterate(st, p, env).hub) && Counted(RedeliverPhase(st, p, env).hub.ctl)
    ensures KeyIterate(st, p, env).go ==> Unread(st, KeyIterate(st, p, env).hub.read) < Unread(st, p.hub.read)
  {
    RedeliverPhaseKeeps(st, p, env);
    IterateKeeps(st, p, env);
    IterateReads(st, p, env);
  }

  // ---------------------------------------------------------------- the object

  class KeySharedDispatcher {
    var consumers: map<nat, Consumer>
    var shares: seq<Assigned>
    var total: int
    var read: Option<nat>
    const controller: RedeliveryController

    function View(): KeyHub
      reads this, controller
    {
      KeyHub(consumers, shares, total, read, controller.View())
    }

    constructor ()
      ensures View() == KeyInit(Store([], {})).hub && fresh(controller)
    {
      consumers, shares, total, read := map[], [], 0, None;
      controller := new RedeliveryController(true);
    }

    method SelectConsumer(writable: set<nat>, hash: int) returns (chosen: Option<nat>)
      ensures chosen == Select(View(), writable, hash, 0)
    {
      ghost var k := View();
      var i := 0;
      while i < |shares|
        invariant i <= |shares| && Select(k, writable, hash, 0) == Select(k, writable, hash, i)
      {
        var a := shares[i];
        if a.range.Has(hash) && CanTake(consumers, writable, a.consumer) {
          return Some(a.consumer);
        }
        i := i + 1;
      }
      return None;
    }

    /** Find a queued message to redeliver, dropping acknowledged ones on the way. */
    method PopDispatchable(st: Store, writable: set<nat>) returns (found: Option<(nat, nat)>)
      requires Counted(controller.View())
      modifies controller
      ensures (View(), found) == Scan(st, old(View()), old(controller.entries.Keys), writable)
      ensures Counted(controller.View())
    {
      var todo := controller.entries.Keys;
      ghost var result := Scan(st, View(), todo, writable);
      while todo != {}
        invariant Counted(controller.View()) && Scan(st, View(), todo, writable) == result
        decreases |todo|
      {
        var m := Least(todo);
        if m in st.acked || m >= |st.log| {
          var _ := controller.Discard(m);
        } else {
          var hash := HashOf(st, controller.View(), m);
          if !HashInFlight(controller.View(), hash) && m in controller.entries {
            var chosen := SelectConsumer(writable, hash);
            if chosen.Some? { return Some((m, chosen.value)); }
          }
        }
        todo := todo - {m};
      }
      return None;
    }

    method AddConsumer(c: nat) returns (added: bool)
      modifies this`consumers, this`shares
      ensures added == (c !in old(consumers)) && View() == KeyJoined(old(View()), c)
    {
      if c in consumers { return false; }
      consumers := consumers[c := Consumer(0, 0, map[])];
      RebuildAssignments();
      return true;
    }

    method RebuildAssignments()
      modifies this`shares
      ensures View() == Reassigned(old(View()))
    {
      shares := Rebuild(SortedIds(consumers.Keys));
    }

    method ResetAfterSeek(position: Option<nat>)
      modifies this`read, controller
      ensures View() == old(View()).(read := position, ctl := Empty(controller.block))
    {
      read := position;
      controller.Clear();
    }

    method DiscardAll(ids: set<nat>)
      requires Counted(controller.View())
      modifies controller
      ensures controller.View() == RemoveAll(old(controller.View()), ids) && Counted(controller.View())
    {
      ghost var result := RemoveAll(controller.View(), ids);
      var left := ids;
      while left != {}
        invariant Counted(controller.View()) && RemoveAll(controller.View(), left) == result
        decreases left
      {
        var m := Least(left);
        var _ := controller.Discard(m);
        left := left - {m};
      }
    }

    /** Exactly the owned messages among `ids` become acknowledged; their redelivery state goes. */
    method MessagesAcked(st: Store, ids: set<nat>) returns (after: Store)
      requires Counted(controller.View())
      modifies this`consumers, this`read, controller
      ensures after == AckedStore(st, AsHub(old(View())), ids) && View() == KeyAcked(st, old(View()), ids)
      ensures Counted(controller.View())
    {
      var owned := OwnedAmong(consumers, ids);
      after := st.(acked := st.acked + owned);
      if owned == {} { return; }
      consumers := DropAll(consumers, owned);
      DiscardAll(owned);
      DiscardAll(controller.entries.Keys * after.acked);
      read := ReadAfterAck(after, read);
    }

    /** Seek: move the cursor, restart reading there, clear the controller and drain every consumer. */
    method SeekTo(st: Store, to: nat) returns (after: Store)
      modifies this`consumers, this`read, controller
      ensures after == SoughtStore(st, to) && View() == KeySought(st, old(View()), to, {})
    {
      after := SoughtStore(st, to);
      ResetAfterSeek(FirstUnacked(after));
      var left := consumers.Keys;
      while left != {}
        invariant left <= consumers.Keys == old(consumers).Keys
        invariant read == FirstUnacked(after) && controller.View() == Empty(controller.block)
        invariant forall c :: c in consumers ==>
                    consumers[c] == if c in left then old(consumers)[c] else old(consumers)[c].(pending := map[])
        decreases left
      {
        var c :| c in left;
        consumers := consumers[c := consumers[c].(pending := map[])];
        left := left - {c};
      }
      assert consumers == Drained(old(consumers), {});
    }

    /** Charge a consumer, then either hand it the message or give the permits back. */
    method SendMessage(c: nat, m: nat, count: nat, n: nat, ok: bool)
      requires c in consumers
      modifies this`consumers, this`total
      ensures View() == if ok then KeyDeliver(old(View()), c, m, count, n) else old(View())
    {
      ghost var before := consumers;
      var k := consumers[c];
      total := total - n;
      if ok {
        consumers := consumers[c := Consumer(k.priority, k.permits - n, k.pending[m := count])];
      } else {
        consumers := consumers[c := k.(permits := k.permits - n)];
        consumers := consumers[c := consumers[c].(permits := consumers[c].permits + n)];
        total := total + n;
        assert consumers == before;
      }
    }

    method RedeliverFound(st: Store, m: nat, c: nat, ok: bool)
      requires Counted(controller.View()) && m < |st.log| && m in controller.entries && m !in controller.inFlight
      requires c in consumers
      modifies this`consumers, this`total, controller
      ensures View() == if ok then HandOver(st, old(View()), m, c) else PutBack(st, old(View()), m)
      ensures Counted(controller.View())
    {
      var hash := HashOf(st, controller.View(), m);
      var taken := controller.TakeForDelivery(m, Some(hash));
      SendMessage(c, m, taken.value.count, st.log[m].messages, ok);
      if !ok {
        controller.PutBack(m, Entry(taken.value.count + 1, Some(hash)));
      }
    }

    /** Give back what a consumer no longer owns, in message order. */
    method RequeueAll(st: Store, pending: map<nat, nat>, ids: set<nat>)
      requires Counted(controller.View()) && ids <= pending.Keys && forall m :: m in ids ==> m < |st.log|
      modifies controller
      ensures controller.View() == AddAll(st, old(controller.View()), pending, ids) && Counted(controller.View())
    {
      ghost var result := AddAll(st, controller.View(), pending, ids);
      var left := ids;
      while left != {}
        invariant left <= ids && Counted(controller.View())
        invariant AddAll(st, controller.View(), pending, left) == result
        decreases left
      {
        var m := Least(left);
        controller.Enqueue(m, Entry(pending[m] + 1, Some(st.log[m].hash)));
        left := left - {m};
      }
    }

    method RemoveConsumerWithRecovery(st: Store, c: nat)
      requires Counted(controller.View()) && (c in consumers ==> Owns(st, View(), c))
      modifies this, controller
      ensures View() == KeyLeft(st, old(View()), c) && Counted(controller.View())
    {
      if c !in consumers { return; }
      var k := consumers[c];
      consumers := consumers - {c};
      total := total - Max(k.permits, 0);
      RequeueAll(st, k.pending, k.pending.Keys);
      RebuildAssignments();
    }

    method RedeliverUnacknowledged(st: Store, c: nat, ids: set<nat>)
      requires Counted(controller.View()) && (c in consumers ==> Owns(st, View(), c))
      modifies this`consumers, controller
      ensures View() == KeyNacked(st, old(View()), c, ids) && Counted(controller.View())
    {
      if c !in consumers { return; }
      var pending := consumers[c].pending;
      var back := ids * pending.Keys;
      consumers := consumers[c := consumers[c].(pending := pending - back)];
      RequeueAll(st, pending, back - st.acked);
    }

    /** The next unread message that is neither acknowledged nor pending on anyone. */
    method NextDispatchable(st: Store) returns (m: Option<nat>)
      modifies this`read
      ensures match ReadFrom(st, old(read))
              case None => m == None && read == None
              case Some(r) =>
                var busy := SkipBusy(st, consumers, r);
                read == Some(busy) && m == if busy < |st.log| then read else None
    {
      if read.None? {
        read := FirstUnacked(st);
        if read.None? { return None; }
      }
      var at := read.value;
      ghost var target := SkipBusy(st, consumers, at);
      while at < |st.log| && (at in st.acked || Owned(consumers, at))
        invariant SkipBusy(st, consumers, at) == target
        decreases |st.log| - at
      {
        at := at + 1;
      }
      read := Some(at);
      return if at < |st.log| then read else None;
    }

    method RedeliverOne(st: Store, env: Env, left: nat, progress: nat) returns (left': nat, progress': nat, go: bool)
      requires KeyInv(st, View())
      modifies this`consumers, this`total, controller
      ensures Stage(View(), left', progress', go) == RedeliverPhase(st, Stage(old(View()), left, progress, true), env)
    {
      left', progress', go := left, progress, true;
      ScanExact(st, View(), controller.entries.Keys, env.writable);
      var found := PopDispatchable(st, env.writable);
      if found.Some? {
        var (m, c) := found.value;
        FoundIsFree(st, View(), m, c);
        RedeliverFound(st, m, c, env.sent);
        left' := Spend(left);
        if env.sent { progress' := progress + 1; } else { go := false; }
      }
    }

    method SendUnread(st: Store, env: Env, left: nat, progress: nat) returns (left': nat, progress': nat, go: bool)
      requires Counted(controller.View())
      modifies this`consumers, this`total, this`read, controller
      ensures Stage(View(), left', progress', go) == FreshPhase(st, Stage(old(View()), left, progress, true), env)
    {
      left', progress', go := left, progress, true;
      var candidate := NextDispatchable(st);
      if candidate.None? { go := false; return; }
      var m := candidate.value;
      var hash := st.log[m].hash;
      if Blocked(controller.View(), hash) {
        controller.Enqueue(m, Entry(0, Some(hash)));
        progress' := progress + 1;
      } else {
        var chosen := SelectConsumer(env.writableFresh, hash);
        if chosen.None? { go := false; return; }
        left' := Spend(left);
        SendMessage(chosen.value, m, 0, st.log[m].messages, env.sentFresh);
        if env.sentFresh {
          progress' := progress + 1;
        } else {
          controller.PutBack(m, Entry(1, Some(hash)));
          go := false;
        }
      }
      read := Some(m + 1);
    }

    /** One pass. Every iteration that goes on reads a message, so the pass ends. */
    method DispatchBatch(st: Store, envs: seq<Env>) returns (progress: nat)
      requires KeyInv(st, View())
      modifies this, controller
      ensures View() == KeyDispatch(st, old(View()), envs).hub &&
              progress == KeyDispatch(st, old(View()), envs).progress
    {
      ghost var result := KeyDispatch(st, View(), envs);
      progress := 0;
      var left := BatchSize(total);
      var i := 0;
      while left > 0
        invariant KeyInv(st, View()) && KeyBatch(st, Stage(View(), left, progress, true), i, envs) == result
        decreases Unread(st, read)
      {
        var go: bool;
        left, progress, go := DispatchOne(st, EnvAt(envs, i), left, progress);
        if !go { return; }
        i := i + 1;
      }
    }

    method DispatchOne(st: Store, env: Env, left: nat, progress: nat) returns (left': nat, progress': nat, go: bool)
      requires KeyInv(st, View())
      modifies this, controller
      ensures KeyInv(st, View())
      ensures Stage(View(), left', progress', go) == KeyIterate(st, Stage(old(View()), left, progress, true), env)
      ensures go ==> Unread(st, read) < Unread(st, old(read))
    {
      ghost var p := Stage(View(), left, progress, true);
      KeptByIterate(st, p, env);
      left', progress', go := RedeliverOne(st, env, left, progress);
      if go {
        left', progress', go := SendUnread(st, env, left', progress');
      }
    }
  }
}
