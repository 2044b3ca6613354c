/**
 The redelivery controller: queued entries, hashes whose redelivery is in flight, and a count per
 blocked hash. Messages are named by their index in the topic's log.
 */
module Redelivery {
  import opened Base

  datatype Entry = Entry(count: nat, hash: Option<int>)

  datatype Controller = Controller(entries: map<nat, Entry>, inFlight: map<nat, int>, blocked: map<int, nat>,
                                   block: bool)

  function Empty(block: bool): Controller {
    Controller(map[], map[], map[], block)
  }

  function CountOf(blocked: map<int, nat>, h: int): nat {
    if h in blocked then blocked[h] else 0
  }

  function Increment(c: Controller, hash: Option<int>): Controller {
    if !c.block || hash.None? then c
    else c.(blocked := c.blocked[hash.value := CountOf(c.blocked, hash.value) + 1])
  }

  function Decrement(c: Controller, hash: Option<int>): Controller {
    if !c.block || hash.None? || hash.value !in c.blocked then c
    else
      var h := hash.value;
      if c.blocked[h] <= 1 then c.(blocked := c.blocked - {h}) else c.(blocked := c.blocked[h := c.blocked[h] - 1])
  }

  /** A message already queued keeps its larger count and its hash, if it has one. */
  function Add(c: Controller, m: nat, e: Entry): Controller {
    if m in c.entries then
      var was := c.entries[m];
      var count := if was.count < e.count then e.count else was.count;
      if was.hash.None? then Increment(c.(entries := c.entries[m := Entry(count, e.hash)]), e.hash)
      else c.(entries := c.entries[m := Entry(count, was.hash)])
    else Increment(c, e.hash).(entries := c.entries[m := e])
  }

  function Without(c: Controller, m: nat): Controller
    requires m in c.entries
  {
    Decrement(c.(entries := c.entries - {m}), c.entries[m].hash)
  }

  function Release(c: Controller, m: nat): Controller {
    if m in c.inFlight then Decrement(c.(inFlight := c.inFlight - {m}), Some(c.inFlight[m])) else c
  }

  function Remove(c: Controller, m: nat): Controller {
    var released := Release(c, m);
    if m in released.entries then Without(released, m) else released
  }

  function Restore(c: Controller, m: nat, e: Entry): Controller {
    Add(Release(c, m), m, e)
  }

  /** Hand an entry out for delivery: its hash stays blocked while it is in flight. */
  function Take(c: Controller, m: nat, hash: Option<int>): (Controller, Entry)
    requires m in c.entries
  {
    var e := c.entries[m];
    var known := e.(hash := if e.hash.None? then hash else e.hash);
    if !c.block then (Without(c, m), known)
    else
      var out := c.(entries := c.entries - {m});
      if known.hash.None? then (out, known)
      else
        var counted := if e.hash.None? then Increment(out, hash) else out;
        (counted.(inFlight := c.inFlight[m := known.hash.value]), known)
  }

  lemma AddShape(c: Controller, m: nat, e: Entry)
    ensures var after := Add(c, m, e);
            && after.block == c.block && after.inFlight == c.inFlight
            && m in after.entries && after.entries == c.entries[m := after.entries[m]]
            && after.entries[m].hash ==
               (if m in c.entries && c.entries[m].hash.Some? then c.entries[m].hash else e.hash)
            && (m !in c.entries ==> after.entries[m] == e)
            && (m in c.entries ==>
                  after.entries[m].count == if c.entries[m].count < e.count then e.count else c.entries[m].count)
  {
  }

  lemma ReleaseShape(c: Controller, m: nat)
    ensures var after := Release(c, m);
            && after.block == c.block && after.entries == c.entries
            && after.inFlight == if m in c.inFlight then c.inFlight - {m} else c.inFlight
  {
  }

  lemma RemoveShape(c: Controller, m: nat)
    ensures var after := Remove(c, m);
            after.block == c.block && after.entries == c.entries - {m} && after.inFlight == c.inFlight - {m}
  {
    assert m !in c.entries ==> c.entries - {m} == c.entries;
    assert m !in c.inFlight ==> c.inFlight - {m} == c.inFlight;
  }

  lemma TakeShape(c: Controller, m: nat, h: int)
    requires m in c.entries && c.block
    ensures var (after, e) := Take(c, m, Some(h));
            var hash := if c.entries[m].hash.Some? then c.entries[m].hash.value else h;
            && after.block && after.entries == c.entries - {m} && after.inFlight == c.inFlight[m := hash]
            && e == Entry(c.entries[m].count, Some(hash))
  {
  }

  /** Undoing a take only replaces the entry. */
  lemma TakeRestoreShape(c: Controller, m: nat, h: int, e: Entry)
    requires m in c.entries && c.block && m !in c.inFlight
    ensures var after := Restore(Take(c, m, Some(h)).0, m, e);
            after.block && after.entries == c.entries[m := e] && after.inFlight == c.inFlight
  {
    var taken := Take(c, m, Some(h)).0;
    TakeShape(c, m, h);
    ReleaseShape(taken, m);
    AddShape(Release(taken, m), m, e);
    assert taken.inFlight - {m} == c.inFlight;
    assert (c.entries - {m})[m := e] == c.entries[m := e];
  }

  predicate Blocked(c: Controller, h: int) {
    h in c.blocked
  }

  predicate HashInFlight(c: Controller, h: int) {
    exists m :: m in c.inFlight && c.inFlight[m] == h
  }

  // ---------------------------------------------------------------- counts

  ghost function QueuedWith(entries: map<nat, Entry>, h: int): set<nat> {
    set m | m in entries && entries[m].hash == Some(h)
  }

  ghost function FlyingWith(inFlight: map<nat, int>, h: int): set<nat> {
    set m | m in inFlight && inFlight[m] == h
  }

  ghost function Outstanding(c: Controller, h: int): nat {
    |QueuedWith(c.entries, h)| + |FlyingWith(c.inFlight, h)|
  }

  /** Every blocked count is the number of queued and in-flight redeliveries of its hash. */
  ghost predicate Counted(c: Controller) {
    if c.block then forall h :: CountOf(c.blocked, h) == Outstanding(c, h) && (h in c.blocked ==> c.blocked[h] > 0)
    else c.blocked == map[] && c.inFlight == map[]
  }

  lemma SizeAround(a: set<nat>, b: set<nat>, m: nat)
    requires a - {m} == b - {m}
    ensures |a| - (if m in a then 1 else 0) == |b| - (if m in b then 1 else 0)
  {
    assert a == a - {m} + if m in a then {m} else {};
    assert b == b - {m} + if m in b then {m} else {};
  }

  lemma QueuedPut(entries: map<nat, Entry>, m: nat, e: Entry, h: int)
    ensures var was := if m in entries && entries[m].hash == Some(h) then 1 else 0;
            |QueuedWith(entries[m := e], h)| == |QueuedWith(entries, h)| - was + if e.hash == Some(h) then 1 else 0
  {
    assert QueuedWith(entries[m := e], h) - {m} == QueuedWith(entries, h) - {m};
    SizeAround(QueuedWith(entries[m := e], h), QueuedWith(entries, h), m);
  }

  lemma QueuedDrop(entries: map<nat, Entry>, m: nat, h: int)
    requires m in entries
    ensures |QueuedWith(entries - {m}, h)| == |QueuedWith(entries, h)| - if entries[m].hash == Some(h) then 1 else 0
  {
    assert QueuedWith(entries - {m}, h) == QueuedWith(entries, h) - {m};
  }

  lemma FlyingPut(inFlight: map<nat, int>, m: nat, x: int, h: int)
    ensures var was := if m in inFlight && inFlight[m] == h then 1 else 0;
            |FlyingWith(inFlight[m := x], h)| == |FlyingWith(inFlight, h)| - was + if x == h then 1 else 0
  {
    assert FlyingWith(inFlight[m := x], h) - {m} == FlyingWith(inFlight, h) - {m};
    SizeAround(FlyingWith(inFlight[m := x], h), FlyingWith(inFlight, h), m);
  }

  lemma FlyingDrop(inFlight: map<nat, int>, m: nat, h: int)
    requires m in inFlight
    ensures |FlyingWith(inFlight - {m}, h)| == |FlyingWith(inFlight, h)| - if inFlight[m] == h then 1 else 0
  {
    assert FlyingWith(inFlight - {m}, h) == FlyingWith(inFlight, h) - {m};
  }

  // ---------------------------------------------------------------- every operation keeps the counts

  lemma AddCounted(c: Controller, m: nat, e: Entry)
    requires Counted(c)
    ensures Counted(Add(c, m, e))
  {
    var after := Add(c, m, e);
    if c.block {
      forall h
        ensures CountOf(after.blocked, h) == Outstanding(after, h) && (h in after.blocked ==> after.blocked[h] > 0)
      {
        QueuedPut(c.entries, m, after.entries[m], h);
      }
    }
  }

  lemma WithoutCounted(c: Controller, m: nat)
    requires Counted(c) && m in c.entries
    ensures Counted(Without(c, m))
  {
    var after := Without(c, m);
    if c.block {
      if x :| c.entries[m].hash == Some(x) { assert m in QueuedWith(c.entries, x); }
      forall h
        ensures CountOf(after.blocked, h) == Outstanding(after, h) && (h in after.blocked ==> after.blocked[h] > 0)
      {
        QueuedDrop(c.entries, m, h);
      }
    }
  }

  lemma ReleaseCounted(c: Controller, m: nat)
    requires Counted(c)
    ensures Counted(Release(c, m))
  {
    var after := Release(c, m);
    if c.block && m in c.inFlight {
      assert m in FlyingWith(c.inFlight, c.inFlight[m]);
      forall h
        ensures CountOf(after.blocked, h) == Outstanding(after, h) && (h in after.blocked ==> after.blocked[h] > 0)
      {
        FlyingDrop(c.inFlight, m, h);
      }
    }
  }

  lemma RemoveCounted(c: Controller, m: nat)
    requires Counted(c)
    ensures Counted(Remove(c, m))
  {
    ReleaseCounted(c, m);
    if m in c.entries { WithoutCounted(Release(c, m), m); }
  }

  lemma RestoreCounted(c: Controller, m: nat, e: Entry)
    requires Counted(c)
    ensures Counted(Restore(c, m, e))
  {
    ReleaseCounted(c, m);
    AddCounted(Release(c, m), m, e);
  }

  /** Taking keeps the counts exactly when the message is not already in flight or no hash is tracked. */
  lemma TakeCounted(c: Controller, m: nat, hash: Option<int>)
    requires Counted(c) && m in c.entries
    ensures Counted(Take(c, m, hash).0) <==>
            !c.block || m !in c.inFlight || (c.entries[m].hash.None? && hash.None?)
  {
    var after := Take(c, m, hash).0;
    if !c.block {
      WithoutCounted(c, m);
    } else if c.entries[m].hash.None? && hash.None? {
      forall h
        ensures CountOf(after.blocked, h) == Outstanding(after, h) && (h in after.blocked ==> after.blocked[h] > 0)
      {
        QueuedDrop(c.entries, m, h);
      }
    } else if m !in c.inFlight {
      forall h
        ensures CountOf(after.blocked, h) == Outstanding(after, h) && (h in after.blocked ==> after.blocked[h] > 0)
      {
        QueuedDrop(c.entries, m, h);
        FlyingPut(c.inFlight, m, after.inFlight[m], h);
      }
    } else {
      var h := c.inFlight[m];
      QueuedDrop(c.entries, m, h);
      FlyingPut(c.inFlight, m, after.inFlight[m], h);
      assert CountOf(after.blocked, h) != Outstanding(after, h);
    }
  }

  /** A hash is unblocked exactly when no redelivery of it is queued or in flight. */
  lemma BlockedExact(c: Controller, h: int)
    requires Counted(c) && c.block
    ensures Blocked(c, h) <==> QueuedWith(c.entries, h) != {} || HashInFlight(c, h)
  {
    if HashInFlight(c, h) {
      var m :| m in c.inFlight && c.inFlight[m] == h;
      assert m in FlyingWith(c.inFlight, h);
    }
    if m :| m in FlyingWith(c.inFlight, h) {
      assert m in c.inFlight && c.inFlight[m] == h;
    }
    assert CountOf(c.blocked, h) == Outstanding(c, h);
  }

  // ---------------------------------------------------------------- the object

  class RedeliveryController {
    var entries: map<nat, Entry>
    var inFlight: map<nat, int>
    var blocked: map<int, nat>
    const block: bool

    function View(): Controller
      reads this
    {
      Controller(entries, inFlight, blocked, block)
    }

    constructor (blockHashes: bool)
      ensures View() == Empty(blockHashes) && Counted(View())
    {
      entries, inFlight, blocked, block := map[], map[], map[], blockHashes;
    }

    method IncrementHash(hash: Option<int>)
      modifies this`blocked
      ensures View() == Increment(old(View()), hash)
    {
      if !block || hash.None? { return; }
      blocked := blocked[hash.value := CountOf(blocked, hash.value) + 1];
    }

    method DecrementHash(hash: Option<int>)
      modifies this`blocked
      ensures View() == Decrement(old(View()), hash)
    {
      if !block || hash.None? || hash.value !in blocked { return; }
      var h := hash.value;
      var count := if blocked[h] > 0 then blocked[h] - 1 else 0;
      blocked := blocked[h := count];
      if count == 0 {
        blocked := blocked - {h};
        assert blocked == old(blocked) - {h};
      }
    }

    method Enqueue(m: nat, e: Entry)
      requires Counted(View())
      modifies this`entries, this`blocked
      ensures View() == Add(old(View()), m, e) && Counted(View())
    {
      AddCounted(View(), m, e);
      if m in entries {
        var was := entries[m];
        var count := if was.count < e.count then e.count else was.count;
        if was.hash.None? {
          entries := entries[m := Entry(count, e.hash)];
          IncrementHash(e.hash);
        } else {
          entries := entries[m := Entry(count, was.hash)];
        }
      } else {
        IncrementHash(e.hash);
        entries := entries[m := e];
      }
    }

    method ReleaseInFlight(m: nat)
      requires Counted(View())
      modifies this`inFlight, this`blocked
      ensures View() == Release(old(View()), m) && Counted(View())
    {
      ReleaseCounted(View(), m);
      if m !in inFlight { return; }
      var h := inFlight[m];
      inFlight := inFlight - {m};
      DecrementHash(Some(h));
    }

    method Discard(m: nat) returns (removed: Option<Entry>)
      requires Counted(View())
      modifies this`entries, this`inFlight, this`blocked
      ensures View() == Remove(old(View()), m) && Counted(View())
      ensures removed == if m in old(entries) then Some(old(entries)[m]) else None
    {
      RemoveCounted(View(), m);
      ReleaseInFlight(m);
      if m !in entries { return None; }
      var e := entries[m];
      entries := entries - {m};
      DecrementHash(e.hash);
      return Some(e);
    }

    method PutBack(m: nat, e: Entry)
      requires Counted(View())
      modifies this`entries, this`inFlight, this`blocked
      ensures View() == Restore(old(View()), m, e) && Counted(View())
    {
      ReleaseInFlight(m);
      Enqueue(m, e);
    }

    method TakeForDelivery(m: nat, hash: Option<int>) returns (taken: Option<Entry>)
      requires Counted(View())
      modifies this`entries, this`inFlight, this`blocked
      ensures m !in old(entries) ==> taken == None && View() == old(View())
      ensures m in old(entries) ==>
                View() == Take(old(View()), m, hash).0 && taken == Some(Take(old(View()), m, hash).1)
      ensures m !in old(inFlight) ==> Counted(View())
    {
      if m !in entries { return None; }
      TakeCounted(View(), m, hash);
      var e := entries[m];
      var supplied := e.hash.None? && hash.Some?;
      entries := entries - {m};
      if supplied { e := e.(hash := hash); }
      if block {
        if e.hash.Some? {
          if supplied { IncrementHash(e.hash); }
          inFlight := inFlight[m := e.hash.value];
        }
      } else {
        DecrementHash(e.hash);
      }
      return Some(e);
    }

    method Clear()
      modifies this`entries, this`inFlight, this`blocked
      ensures View() == Empty(block) && Counted(View())
    {
      entries, inFlight, blocked := map[], map[], map[];
    }
  }
}
