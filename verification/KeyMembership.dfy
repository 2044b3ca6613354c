/**
 What a join or a leave does to key affinity: the ranges of all consumers are recomputed, so a hash can move
 from a consumer that still holds messages of it.
 */
module KeyMembership {
  import opened Base
  import opened SharedDispatch
  import opened AutoSplit
  import opened KeyShared
  import opened KeySharedRuns
  import opened KeyAffinity
  import opened KeySharedDispatchers

  // ---------------------------------------------------------------- positions in the split

  function Smaller(keys: set<nat>, c: nat): set<nat> {
    set d | d in keys && d < c
  }

  /** The position of a consumer in the split: how many connected consumers have a smaller id. */
  function Rank(keys: set<nat>, c: nat): nat {
    |Smaller(keys, c)|
  }

  lemma {:induction false} RankExact(keys: set<nat>, c: nat)
    requires c in keys
    ensures Rank(keys, c) < |SortedIds(keys)| && SortedIds(keys)[Rank(keys, c)] == c
    decreases |keys|
  {
    var first := Least(keys);
    assert SortedIds(keys) == [first] + SortedIds(keys - {first});
    if c == first {
      assert Smaller(keys, c) == {};
    } else {
      RankExact(keys - {first}, c);
      RankWithout(keys, first, c);
    }
  }

  lemma RankWithout(keys: set<nat>, first: nat, c: nat)
    requires first in keys && first < c
    ensures Rank(keys, c) == Rank(keys - {first}, c) + 1
  {
    assert Smaller(keys, c) == Smaller(keys - {first}, c) + {first};
  }

  /** A consumer owns the hashes of the range at its position. */
  lemma OwnsByRank(keys: set<nat>, hash: int, c: nat)
    requires c in keys
    ensures Rank(keys, c) < |keys|
    ensures OwnsHash(keys, hash, c) <==> RangeOf(Rank(keys, c), |keys|).Has(hash)
  {
    SortedIdsExact(keys);
    RankExact(keys, c);
  }

  /** The same in numbers: with `r` smaller ids among `n` consumers, the hashes above `r` and not above `r + 1` n-ths
      of the 65536. */
  lemma OwnsExact(keys: set<nat>, hash: nat, c: nat)
    requires c in keys
    ensures OwnsHash(keys, hash, c) <==>
            Rank(keys, c) * 65536 < (hash + 1) * |keys| <= (Rank(keys, c) + 1) * 65536
  {
    OwnsByRank(keys, hash, c);
    RangeExact(Rank(keys, c), |keys|, hash);
  }

  lemma RankAfterJoin(keys: set<nat>, d: nat, c: nat)
    requires d !in keys
    ensures Rank(keys + {d}, c) == Rank(keys, c) + if d < c then 1 else 0
  {
    if d < c {
      assert Smaller(keys + {d}, c) == Smaller(keys, c) + {d};
    } else {
      assert Smaller(keys + {d}, c) == Smaller(keys, c);
    }
  }

  lemma RankAfterLeave(keys: set<nat>, d: nat, c: nat)
    requires d in keys
    ensures Rank(keys - {d}, c) == Rank(keys, c) - if d < c then 1 else 0
  {
    assert keys - {d} + {d} == keys;
    RankAfterJoin(keys - {d}, d, c);
  }

  // ---------------------------------------------------------------- one join, one leave

  /** Once `d` joins `keys`, the range of `c` holds the hash. */
  predicate StaysOnJoin(keys: set<nat>, d: nat, c: nat, hash: int) {
    var i := Rank(keys, c) + if d < c then 1 else 0;
    i <= |keys| && RangeOf(i, |keys| + 1).Has(hash)
  }

  /** Once `d` leaves `keys`, the range of `c` holds the hash. */
  predicate StaysOnLeave(keys: set<nat>, d: nat, c: nat, hash: int) {
    var i := Rank(keys, c) - if d < c then 1 else 0;
    0 <= i < |keys| - 1 && RangeOf(i, |keys| - 1).Has(hash)
  }

  lemma JoinStays(keys: set<nat>, d: nat, c: nat, hash: int)
    requires c in keys && d !in keys
    ensures OwnsHash(keys + {d}, hash, c) <==> StaysOnJoin(keys, d, c, hash)
  {
    assert |keys + {d}| == |keys| + 1;
    OwnsByRank(keys + {d}, hash, c);
    RankAfterJoin(keys, d, c);
  }

  lemma LeaveStays(keys: set<nat>, d: nat, c: nat, hash: int)
    requires c in keys && d in keys && c != d
    ensures OwnsHash(keys - {d}, hash, c) <==> StaysOnLeave(keys, d, c, hash)
  {
    assert |keys - {d}| == |keys| - 1;
    OwnsByRank(keys - {d}, hash, c);
    RankAfterLeave(keys, d, c);
  }

  /** `c` holds message `m`, whose hash is one of those split over the consumers. */
  predicate Holds(log: seq<LogEntry>, k: KeyHub, c: nat, m: nat) {
    c in k.consumers && m in k.consumers[c].pending && m < |log| && 0 <= log[m].hash < HASHES
  }

  /** Every message pending now has its hash in the range its holder gets when `d` joins, computed from the ids
      connected now and the one joining. */
  ghost predicate JoinMovesNothing(log: seq<LogEntry>, k: KeyHub, d: nat) {
    forall c: nat, m: nat :: Holds(log, k, c, m) ==> StaysOnJoin(k.consumers.Keys, d, c, log[m].hash)
  }

  /** Every message pending on another consumer has its hash in the range its holder gets when `d` leaves. */
  ghost predicate LeaveMovesNothing(log: seq<LogEntry>, k: KeyHub, d: nat) {
    forall c: nat, m: nat :: Holds(log, k, c, m) && c != d ==> StaysOnLeave(k.consumers.Keys, d, c, log[m].hash)
  }

  /** `c` holds `m` and owns its hash among `keys`. */
  ghost predicate OwnsHeld(log: seq<LogEntry>, keys: set<nat>, c: nat, m: nat) {
    m < |log| && OwnsHash(keys, log[m].hash, c)
  }

  lemma HeldIsOwned(log: seq<LogEntry>, k: KeyHub)
    ensures HeldByOwners(log, k) <==>
            forall c: nat, m: nat :: Holds(log, k, c, m) ==> OwnsHeld(log, k.consumers.Keys, c, m)
  {
    if forall c: nat, m: nat :: Holds(log, k, c, m) ==> OwnsHeld(log, k.consumers.Keys, c, m) {
      forall c, m | c in k.consumers && m in k.consumers[c].pending && m < |log| && 0 <= log[m].hash < HASHES
        ensures OwnsHash(k.consumers.Keys, log[m].hash, c)
      {
        assert Holds(log, k, c, m);
      }
    }
  }

  lemma JoinMovesOne(log: seq<LogEntry>, k: KeyHub, d: nat, c: nat, m: nat)
    requires d !in k.consumers
    ensures var after := KeyJoined(k, d);
            && (Holds(log, after, c, m) <==> Holds(log, k, c, m))
            && (Holds(log, k, c, m) ==>
                  (OwnsHeld(log, after.consumers.Keys, c, m) <==> StaysOnJoin(k.consumers.Keys, d, c, log[m].hash)))
  {
    assert KeyJoined(k, d).consumers.Keys == k.consumers.Keys + {d};
    if Holds(log, k, c, m) { JoinStays(k.consumers.Keys, d, c, log[m].hash); }
  }

  /** After a join everything pending is with the owner of its hash exactly when the join moved none of it. */
  lemma JoinHeldExact(log: seq<LogEntry>, k: KeyHub, d: nat)
    requires d !in k.consumers
    ensures HeldByOwners(log, KeyJoined(k, d)) <==> JoinMovesNothing(log, k, d)
  {
    var after := KeyJoined(k, d);
    HeldIsOwned(log, after);
    forall c: nat, m: nat
      ensures Holds(log, after, c, m) <==> Holds(log, k, c, m)
      ensures Holds(log, k, c, m) ==>
              (OwnsHeld(log, after.consumers.Keys, c, m) <==> StaysOnJoin(k.consumers.Keys, d, c, log[m].hash))
    {
      JoinMovesOne(log, k, d, c, m);
    }
  }

  lemma LeaveMovesOne(st: Store, k: KeyHub, d: nat, c: nat, m: nat)
    requires Owns(st, k, d)
    ensures var after := KeyLeft(st, k, d);
            && (Holds(st.log, after, c, m) <==> Holds(st.log, k, c, m) && c != d)
            && (Holds(st.log, k, c, m) && c != d ==>
                  (OwnsHeld(st.log, after.consumers.Keys, c, m) <==>
                   StaysOnLeave(k.consumers.Keys, d, c, st.log[m].hash)))
  {
    assert KeyLeft(st, k, d).consumers.Keys == k.consumers.Keys - {d};
    if Holds(st.log, k, c, m) && c != d { LeaveStays(k.consumers.Keys, d, c, st.log[m].hash); }
  }

  /** After a leave everything pending is with the owner of its hash exactly when the leave moved none of what
      the others hold. */
  lemma LeaveHeldExact(st: Store, k: KeyHub, d: nat)
    requires Owns(st, k, d)
    ensures HeldByOwners(st.log, KeyLeft(st, k, d)) <==> LeaveMovesNothing(st.log, k, d)
  {
    var after := KeyLeft(st, k, d);
    HeldIsOwned(st.log, after);
    forall c: nat, m: nat
      ensures Holds(st.log, after, c, m) <==> Holds(st.log, k, c, m) && c != d
      ensures Holds(st.log, k, c, m) && c != d ==>
              (OwnsHeld(st.log, after.consumers.Keys, c, m) <==>
               StaysOnLeave(k.consumers.Keys, d, c, st.log[m].hash))
    {
      LeaveMovesOne(st, k, d, c, m);
    }
  }

  /** A join and a leave can also move a hash between two consumers that stay connected. */
  lemma SplitMovesBetween()
    ensures OwnsHash({1, 3}, 30000, 1) && !StaysOnJoin({1, 3}, 5, 1, 30000) && OwnsHash({1, 3, 5}, 30000, 3)
    ensures !StaysOnLeave({1, 3, 5}, 5, 3, 30000)
  {
    assert Smaller({1, 3}, 1) == {} && Smaller({1, 3, 5}, 3) == {1};
    OwnsByRank({1, 3}, 30000, 1);
    OwnsByRank({1, 3, 5}, 30000, 3);
  }

  // ---------------------------------------------------------------- whole runs

  /** Not a join or leave that takes a hash from a consumer still holding a message of it. */
  ghost predicate Harmless(s: KeySystem, e: KeyEvent) {
    match e
    case Join(d) => d in s.hub.consumers || JoinMovesNothing(s.st.log, s.hub, d)
    case Leave(d) => !Owns(s.st, s.hub, d) || LeaveMovesNothing(s.st.log, s.hub, d)
    case _ => true
  }

  lemma {:induction false} StepHeld(s: KeySystem, e: KeyEvent)
    requires KeyInv(s.st, s.hub) && KeyAffinity.Assigned(s.hub) && HeldByOwners(s.st.log, s.hub)
    ensures HeldByOwners(KeyNext(s, e).st.log, KeyNext(s, e).hub) <==> Harmless(s, e)
  {
    if e.Join? {
      if e.c !in s.hub.consumers { JoinHeldExact(s.st.log, s.hub, e.c); }
    } else if e.Leave? {
      if Owns(s.st, s.hub, e.c) { LeaveHeldExact(s.st, s.hub, e.c); }
    } else {
      NextHeld(s, e);
    }
  }

  /** The state after the first `n` events. */
  function After(st: Store, events: seq<KeyEvent>, n: nat): KeySystem {
    KeyRun(KeyInit(st), if n <= |events| then events[..n] else events)
  }

  ghost predicate HarmlessAt(st: Store, events: seq<KeyEvent>, n: nat) {
    n < |events| ==> Harmless(After(st, events, n), events[n])
  }

  ghost predicate TogetherAt(st: Store, events: seq<KeyEvent>, n: nat) {
    var s := After(st, events, n);
    HeldByOwners(s.st.log, s.hub)
  }

  lemma RunStepHeld(st: Store, events: seq<KeyEvent>, n: nat)
    requires n < |events| && TogetherAt(st, events, n)
    ensures TogetherAt(st, events, n + 1) <==> HarmlessAt(st, events, n)
  {
    KeyInitInv(st);
    KeyRunKeeps(KeyInit(st), events[..n]);
    RunAssigned(st, events[..n]);
    StepHeld(After(st, events, n), events[n]);
    assert events[..n + 1][..n] == events[..n];
  }

  /** All pending messages of a hash are with its owner throughout a run exactly when every join and leave of the
      run is harmless in the state it meets. */
  lemma TogetherExact(st: Store, events: seq<KeyEvent>)
    ensures (forall n: nat :: n <= |events| ==> TogetherAt(st, events, n)) <==>
            (forall n: nat :: n < |events| ==> HarmlessAt(st, events, n))
  {
    var held := (n: nat) => TogetherAt(st, events, n);
    var good := (n: nat) => HarmlessAt(st, events, n);
    forall n: nat | n < |events| && held(n) ensures held(n + 1) <==> good(n) { RunStepHeld(st, events, n); }
    assert held(0);
    Throughout(held, good, |events|);
    assert forall n: nat :: held(n) == TogetherAt(st, events, n) && good(n) == HarmlessAt(st, events, n);
  }
}
