/**
 What the redelivery half of a Key_Shared iteration does hand out.
 */
module KeyProgress {
  import opened Base
  import opened SharedDispatch
  import opened Redelivery
  import opened AutoSplit
  import opened KeyShared
  import opened KeySharedRuns
  import opened KeyOrder
  import opened KeyAffinity
  import opened KeySharedDispatchers

  /** `m` is queued and unacknowledged, nothing of its hash is in flight, and its hash is owned by a consumer that
      can take it. */
  predicate Deliverable(st: Store, k: KeyHub, writable: set<nat>, m: nat) {
    && m in k.ctl.entries && m < |st.log| && m !in st.acked && !HashInFlight(k.ctl, st.log[m].hash)
    && Select(k, writable, st.log[m].hash, 0).Some?
  }

  ghost predicate FirstDeliverable(st: Store, k: KeyHub, todo: set<nat>, writable: set<nat>, m: nat) {
    m in todo && Deliverable(st, k, writable, m) && forall x :: x in todo && Deliverable(st, k, writable, x) ==> m <= x
  }

  lemma SameDeliverable(st: Store, k: KeyHub, m: nat, writable: set<nat>, x: nat)
    requires Tracked(st, k.ctl) && (m in st.acked || m >= |st.log|)
    ensures Deliverable(st, k.(ctl := Remove(k.ctl, m)), writable, x) <==> Deliverable(st, k, writable, x)
  {
    RemoveShape(k.ctl, m);
    assert k.ctl.inFlight - {m} == k.ctl.inFlight;
    if x < |st.log| { SelectSame(k, k.(ctl := Remove(k.ctl, m)), writable, st.log[x].hash, 0); }
  }

  /** A scan finds the first deliverable message it visits, for the owner selected, and nothing only when there is
      none. */
  lemma {:induction false} ScanFindsFirst(st: Store, k: KeyHub, todo: set<nat>, writable: set<nat>)
    requires Tracked(st, k.ctl)
    ensures var found := Scan(st, k, todo, writable).1;
            && (found.None? ==> forall x :: x in todo ==> !Deliverable(st, k, writable, x))
            && (found.Some? ==>
                  && FirstDeliverable(st, k, todo, writable, found.value.0)
                  && Select(k, writable, st.log[found.value.0].hash, 0) == Some(found.value.1))
    decreases |todo|
  {
    if todo != {} {
      var m := Least(todo);
      var rest := todo - {m};
      if m in st.acked || m >= |st.log| {
        var next := k.(ctl := Remove(k.ctl, m));
        RemoveAnyTracked(st, k.ctl, m);
        ScanFindsFirst(st, next, rest, writable);
        forall x: nat ensures Deliverable(st, next, writable, x) <==> Deliverable(st, k, writable, x) {
          SameDeliverable(st, k, m, writable, x);
        }
        var found := Scan(st, next, rest, writable).1;
        if found.Some? { SelectSame(k, next, writable, st.log[found.value.0].hash, 0); }
      } else if !Deliverable(st, k, writable, m) {
        ScanFindsFirst(st, k, rest, writable);
      }
    }
  }

  lemma SendFoundGains(st: Store, p: Stage, k: KeyHub, m: nat, c: nat, ok: bool, x: nat)
    requires KeyInv(st, k) && Found(st, k, m, c)
    ensures Gained(k, SendFound(st, p.(hub := k), Some((m, c)), ok).hub, x) <==> ok && x == m
  {
    if ok {
      HandOverOwned(st, k, m, c);
      FoundIsUnowned(st, k, m);
    }
  }

  lemma FoundIsUnowned(st: Store, k: KeyHub, m: nat)
    requires KeyInv(st, k) && m in k.ctl.entries
    ensures !Owned(k.consumers, m)
  {
    assert m in AsHub(k).queue;
  }

  /** The redelivery half hands out exactly the first deliverable message, and only if its send succeeds. */
  lemma RedeliveryExact(st: Store, p: Stage, env: Env, x: nat)
    requires KeyInv(st, p.hub)
    ensures Gained(p.hub, RedeliverPhase(st, p, env).hub, x) <==>
            env.sent && FirstDeliverable(st, p.hub, p.hub.ctl.entries.Keys, env.writable, x)
  {
    var todo := p.hub.ctl.entries.Keys;
    var (k, found) := Scan(st, p.hub, todo, env.writable);
    ScanExact(st, p.hub, todo, env.writable);
    ScanKeepsRead(st, p.hub, todo, env.writable);
    ScanFindsFirst(st, p.hub, todo, env.writable);
    if found.Some? { SendFoundGains(st, p, k, found.value.0, found.value.1, env.sent, x); }
  }

  /** A queued unacknowledged message whose hash has nothing in flight and whose owner can take it makes the
      redelivery half hand out a message, itself when no earlier one is deliverable. */
  lemma OwnerIsServed(st: Store, p: Stage, env: Env, m: nat, c: nat) returns (x: nat)
    requires KeyInv(st, p.hub) && KeyAffinity.Assigned(p.hub) && m in p.hub.ctl.entries && m !in st.acked
    requires 0 <= st.log[m].hash < HASHES && !HashInFlight(p.hub.ctl, st.log[m].hash) && env.sent
    requires OwnsHash(p.hub.consumers.Keys, st.log[m].hash, c) && CanTake(p.hub.consumers, env.writable, c)
    ensures x <= m && Deliverable(st, p.hub, env.writable, x) && Gained(p.hub, RedeliverPhase(st, p, env).hub, x)
    ensures (forall y: nat :: y < m ==> !Deliverable(st, p.hub, env.writable, y)) ==> x == m
  {
    var todo := p.hub.ctl.entries.Keys;
    var i := SelectsOwner(p.hub, env.writable, SortedIds(p.hub.consumers.Keys), st.log[m].hash);
    assert Deliverable(st, p.hub, env.writable, m);
    ScanFindsFirst(st, p.hub, todo, env.writable);
    x := Scan(st, p.hub, todo, env.writable).1.value.0;
    RedeliveryExact(st, p, env, x);
  }

  /** While a message is stuck, no message of its hash is deliverable. */
  lemma StuckBlocksHash(st: Store, k: KeyHub, writable: set<nat>, m: nat, x: nat)
    requires KeyInv(st, k) && Stuck(k, m) && x < |st.log| && st.log[x].hash == st.log[m].hash
    ensures !Deliverable(st, k, writable, x)
  {
    assert m in k.ctl.inFlight && k.ctl.inFlight[m] == st.log[m].hash;
  }

  /** A message handed back is deliverable again exactly when nothing of its hash was in flight and its owner can
      take it. */
  lemma NackDeliverable(st: Store, k: KeyHub, c: nat, ids: set<nat>, writable: set<nat>, m: nat)
    requires KeyInv(st, k) && Owns(st, k, c) && m in ids && m in k.consumers[c].pending && m !in st.acked
    ensures var after := KeyNacked(st, k, c, ids);
            Deliverable(st, after, writable, m) <==>
            !HashInFlight(k.ctl, st.log[m].hash) && Select(after, writable, st.log[m].hash, 0).Some?
  {
    var pending := k.consumers[c].pending;
    AddAllShape(st, k.ctl, pending, ids * pending.Keys - st.acked);
  }

  /** The same for a message whose consumer left. */
  lemma LeaveDeliverable(st: Store, k: KeyHub, c: nat, writable: set<nat>, m: nat)
    requires KeyInv(st, k) && Owns(st, k, c) && m in k.consumers[c].pending && m !in st.acked
    ensures var after := KeyLeft(st, k, c);
            Deliverable(st, after, writable, m) <==>
            !HashInFlight(k.ctl, st.log[m].hash) && Select(after, writable, st.log[m].hash, 0).Some?
  {
    AddAllShape(st, k.ctl, k.consumers[c].pending, k.consumers[c].pending.Keys);
  }
}
