/**
 Whole runs of the Key_Shared dispatcher in ordered mode.
 */
module KeySharedRuns {
  import opened Base
  import opened SharedDispatch
  import opened Redelivery
  import opened AutoSplit
  import opened KeyShared

  // ---------------------------------------------------------------- steps

  function RemoveAll(ctl: Controller, ids: set<nat>): Controller
    decreases |ids|
  {
    if ids == {} then ctl
    else var m := Least(ids); RemoveAll(Remove(ctl, m), ids - {m})
  }

  function AddOne(st: Store, ctl: Controller, m: nat, count: nat): Controller
    requires m < |st.log|
  {
    Add(ctl, m, Entry(count, Some(st.log[m].hash)))
  }

  /** Queue messages that lost their owner, each with one more redelivery than recorded. */
  function AddAll(st: Store, ctl: Controller, pending: map<nat, nat>, ids: set<nat>): Controller
    requires ids <= pending.Keys && forall m :: m in ids ==> m < |st.log|
    decreases |ids|
  {
    if ids == {} then ctl
    else
      var m := Least(ids);
      AddAll(st, AddOne(st, ctl, m, pending[m] + 1), pending, ids - {m})
  }

  function SortedIds(ids: set<nat>): seq<nat>
    decreases |ids|
  {
    if ids == {} then [] else var c := Least(ids); [c] + SortedIds(ids - {c})
  }

  function Reassigned(k: KeyHub): KeyHub {
    var ids := SortedIds(k.consumers.Keys);
    k.(shares := Assignments(ids, |ids|))
  }

  function KeyJoined(k: KeyHub, c: nat): KeyHub {
    if c in k.consumers then k else Reassigned(k.(consumers := k.consumers[c := Consumer(0, 0, map[])]))
  }

  function KeyFlowed(k: KeyHub, c: nat, n: nat): KeyHub {
    if c !in k.consumers then k
    else
      var was := k.consumers[c];
      k.(consumers := k.consumers[c := was.(permits := was.permits + n)], total := k.total + n)
  }

  function KeyLeft(st: Store, k: KeyHub, c: nat): KeyHub
    requires c in k.consumers ==> forall m :: m in k.consumers[c].pending ==> m < |st.log|
  {
    if c !in k.consumers then k
    else
      var was := k.consumers[c];
      Reassigned(k.(consumers := k.consumers - {c}, total := k.total - Max(was.permits, 0),
                    ctl := AddAll(st, k.ctl, was.pending, was.pending.Keys)))
  }

  function KeyNacked(st: Store, k: KeyHub, c: nat, ids: set<nat>): KeyHub
    requires c in k.consumers ==> forall m :: m in k.consumers[c].pending ==> m < |st.log|
  {
    if c !in k.consumers then k
    else
      var was := k.consumers[c];
      var back := ids * was.pending.Keys;
      k.(consumers := k.consumers[c := was.(pending := was.pending - back)],
         ctl := AddAll(st, k.ctl, was.pending, back - st.acked))
  }

  function KeyAcked(st: Store, k: KeyHub, ids: set<nat>): KeyHub {
    var owned := OwnedAmong(k.consumers, ids);
    if owned == {} then k
    else
      var after := st.(acked := st.acked + owned);
      var ctl := RemoveAll(k.ctl, owned);
      k.(consumers := DropAll(k.consumers, owned), ctl := RemoveAll(ctl, ctl.entries.Keys * after.acked),
         read := ReadAfterAck(after, k.read))
  }

  function KeySought(st: Store, k: KeyHub, to: nat, kept: set<nat>): KeyHub {
    k.(consumers := Drained(k.consumers, kept), ctl := Empty(k.ctl.block), read := FirstUnacked(SoughtStore(st, to)))
  }

  // ---------------------------------------------------------------- shapes

  lemma DropRest<V>(f: map<nat, V>, m: nat, ids: set<nat>)
    requires m in ids
    ensures f - {m} - (ids - {m}) == f - ids
  {
  }

  lemma {:induction false} RemoveAllShape(ctl: Controller, ids: set<nat>)
    ensures var after := RemoveAll(ctl, ids);
            after.block == ctl.block && after.entries == ctl.entries - ids && after.inFlight == ctl.inFlight - ids
    decreases |ids|
  {
    if ids == {} {
      assert ctl.entries - ids == ctl.entries && ctl.inFlight - ids == ctl.inFlight;
    } else {
      var m := Least(ids);
      RemoveShape(ctl, m);
      RemoveAllShape(Remove(ctl, m), ids - {m});
      DropRest(ctl.entries, m, ids);
      DropRest(ctl.inFlight, m, ids);
    }
  }

  lemma {:induction false} RemoveAllCounted(ctl: Controller, ids: set<nat>)
    requires Counted(ctl)
    ensures Counted(RemoveAll(ctl, ids))
    decreases |ids|
  {
    if ids != {} {
      var m := Least(ids);
      RemoveCounted(ctl, m);
      RemoveAllCounted(Remove(ctl, m), ids - {m});
    }
  }

  lemma AddOneShape(st: Store, ctl: Controller, m: nat, count: nat)
    requires m < |st.log|
    ensures AddOne(st, ctl, m, count).entries.Keys == ctl.entries.Keys + {m}
    ensures AddOne(st, ctl, m, count).inFlight == ctl.inFlight
  {
    AddShape(ctl, m, Entry(count, Some(st.log[m].hash)));
  }

  /** What adding one message keeps, adding all of them keeps. */
  lemma {:induction false} AddAllInduct(st: Store, ctl: Controller, pending: map<nat, nat>, ids: set<nat>,
                                        keeps: (Controller, set<nat>) -> bool)
    requires ids <= pending.Keys && (forall m :: m in ids ==> m < |st.log|) && keeps(ctl, ids)
    requires forall c, left, m :: keeps(c, left) && m in left && m in ids ==>
               keeps(AddOne(st, c, m, pending[m] + 1), left - {m})
    ensures keeps(AddAll(st, ctl, pending, ids), {})
    decreases |ids|
  {
    if ids != {} {
      var m := Least(ids);
      AddAllInduct(st, AddOne(st, ctl, m, pending[m] + 1), pending, ids - {m}, keeps);
    }
  }

  lemma AddAllShape(st: Store, ctl: Controller, pending: map<nat, nat>, ids: set<nat>)
    requires ids <= pending.Keys && forall m :: m in ids ==> m < |st.log|
    ensures var after := AddAll(st, ctl, pending, ids);
            after.entries.Keys == ctl.entries.Keys + ids && after.inFlight == ctl.inFlight
  {
    var keeps := (c: Controller, left: set<nat>) =>
      left <= ids && c.entries.Keys == ctl.entries.Keys + (ids - left) && c.inFlight == ctl.inFlight;
    forall c, left, m | keeps(c, left) && m in left && m in ids
      ensures keeps(AddOne(st, c, m, pending[m] + 1), left - {m})
    {
      AddOneShape(st, c, m, pending[m] + 1);
      assert ids - (left - {m}) == ids - left + {m};
    }
    assert ctl.entries.Keys + (ids - ids) == ctl.entries.Keys && ids - {} == ids;
    AddAllInduct(st, ctl, pending, ids, keeps);
  }

  lemma AddAllTracked(st: Store, ctl: Controller, pending: map<nat, nat>, ids: set<nat>)
    requires Tracked(st, ctl) && ids <= pending.Keys && forall m :: m in ids ==> m < |st.log|
    ensures Tracked(st, AddAll(st, ctl, pending, ids))
  {
    var keeps := (c: Controller, left: set<nat>) => Tracked(st, c);
    forall c, left, m | keeps(c, left) && m in left && m in ids
      ensures keeps(AddOne(st, c, m, pending[m] + 1), left - {m})
    {
      AddTracked(st, c, m, pending[m] + 1);
    }
    AddAllInduct(st, ctl, pending, ids, keeps);
  }

  // ---------------------------------------------------------------- each step keeps the invariants

  lemma QueueKeys(ctl: Controller)
    ensures Queue(ctl).Keys == ctl.entries.Keys
  {
  }

  /** The Shared step `g` and the Key_Shared step `k'` agree up to redelivery counts. */
  lemma SameSafety(st: Store, g: Hub, k: KeyHub)
    requires Inv(st, g) && g.consumers == k.consumers && g.order == [] && g.rr == 0 && g.total == k.total
    requires g.read == k.read && g.queue.Keys == k.ctl.entries.Keys
    ensures Inv(st, AsHub(k))
  {
    QueueKeys(k.ctl);
    CountsKeepInv(st, g, Queue(k.ctl));
    assert AsHub(k) == g.(queue := Queue(k.ctl));
  }

  lemma KeyLeftKeeps(st: Store, k: KeyHub, c: nat)
    requires KeyInv(st, k) && c in k.consumers && forall m :: m in k.consumers[c].pending ==> m < |st.log|
    ensures KeyInv(st, KeyLeft(st, k, c))
  {
    var pending := k.consumers[c].pending;
    AddAllShape(st, k.ctl, pending, pending.Keys);
    AddAllTracked(st, k.ctl, pending, pending.Keys);
    LeftKeepsInv(st, AsHub(k), c);
    QueueKeys(k.ctl);
    SameSafety(st, Left(AsHub(k), c), KeyLeft(st, k, c));
  }

  lemma KeyNackedKeeps(st: Store, k: KeyHub, c: nat, ids: set<nat>)
    requires KeyInv(st, k) && c in k.consumers && forall m :: m in k.consumers[c].pending ==> m < |st.log|
    ensures KeyInv(st, KeyNacked(st, k, c, ids))
  {
    var pending := k.consumers[c].pending;
    AddAllShape(st, k.ctl, pending, ids * pending.Keys - st.acked);
    AddAllTracked(st, k.ctl, pending, ids * pending.Keys - st.acked);
    NackedKeepsInv(st, AsHub(k), c, ids);
    QueueKeys(k.ctl);
    SameSafety(st, Nacked(st, AsHub(k), c, ids), KeyNacked(st, k, c, ids));
  }

  lemma KeyAckedKeeps(st: Store, k: KeyHub, ids: set<nat>)
    requires KeyInv(st, k)
    ensures KeyInv(AckedStore(st, AsHub(k), ids), KeyAcked(st, k, ids))
  {
    var owned := OwnedAmong(k.consumers, ids);
    var after := AckedStore(st, AsHub(k), ids);
    AckedKeepsInv(st, AsHub(k), ids);
    if owned == {} {
      assert after.acked == st.acked;
    } else {
      var mid := RemoveAll(k.ctl, owned);
      RemoveAllShape(k.ctl, owned);
      RemoveAllShape(mid, mid.entries.Keys * after.acked);
      KeyAckedTracked(st, k, ids);
      QueueKeys(k.ctl);
      SameSafety(after, Acked(st, AsHub(k), ids), KeyAcked(st, k, ids));
    }
  }

  lemma KeyAckedTracked(st: Store, k: KeyHub, ids: set<nat>)
    requires KeyInv(st, k) && OwnedAmong(k.consumers, ids) != {}
    ensures Tracked(AckedStore(st, AsHub(k), ids), KeyAcked(st, k, ids).ctl)
  {
    var owned := OwnedAmong(k.consumers, ids);
    var mid := RemoveAll(k.ctl, owned);
    RemoveAllShape(k.ctl, owned);
    RemoveAllCounted(k.ctl, owned);
    RemoveAllShape(mid, mid.entries.Keys * (st.acked + owned));
    RemoveAllCounted(mid, mid.entries.Keys * (st.acked + owned));
  }

  lemma KeySoughtKeeps(st: Store, k: KeyHub, to: nat, kept: set<nat>)
    requires KeyInv(st, k)
    ensures KeyInv(SoughtStore(st, to), KeySought(st, k, to, kept))
  {
    SoughtKeepsInv(st, AsHub(k), to, kept);
    assert AsHub(KeySought(st, k, to, kept)) == Sought(st, AsHub(k), to, kept);
  }

  lemma KeyJoinedKeeps(st: Store, k: KeyHub, c: nat)
    requires KeyInv(st, k)
    ensures KeyInv(st, KeyJoined(k, c))
  {
    SamePendingKeepsInv(st, AsHub(k), AsHub(KeyJoined(k, c)));
  }

  lemma KeyFlowedKeeps(st: Store, k: KeyHub, c: nat, n: nat)
    requires KeyInv(st, k)
    ensures KeyInv(st, KeyFlowed(k, c, n))
  {
    SamePendingKeepsInv(st, AsHub(k), AsHub(KeyFlowed(k, c, n)));
  }

  // ---------------------------------------------------------------- whole runs

  datatype KeySystem = KeySystem(st: Store, hub: KeyHub)

  datatype KeyEvent =
    | Publish(entry: LogEntry)
    | Join(c: nat)
    | Flow(c: nat, n: nat)
    | Pass(envs: seq<Env>)
    | Ack(ids: set<nat>)
    | Nack(c: nat, ids: set<nat>)
    | Leave(c: nat)
    | Seek(to: nat, kept: set<nat>)

  /** A consumer may hand back or leave behind only what is stored. */
  predicate Owns(st: Store, k: KeyHub, c: nat) {
    c in k.consumers && forall m :: m in k.consumers[c].pending ==> m < |st.log|
  }

  function KeyNext(s: KeySystem, e: KeyEvent): KeySystem {
    match e
    case Publish(entry) => s.(st := s.st.(log := s.st.log + [entry]))
    case Join(c) => s.(hub := KeyJoined(s.hub, c))
    case Flow(c, n) => s.(hub := KeyFlowed(s.hub, c, n))
    case Pass(envs) => s.(hub := KeyDispatch(s.st, s.hub, envs).hub)
    case Ack(ids) => KeySystem(AckedStore(s.st, AsHub(s.hub), ids), KeyAcked(s.st, s.hub, ids))
    case Nack(c, ids) => if Owns(s.st, s.hub, c) then s.(hub := KeyNacked(s.st, s.hub, c, ids)) else s
    case Leave(c) => if Owns(s.st, s.hub, c) then s.(hub := KeyLeft(s.st, s.hub, c)) else s
    case Seek(to, kept) => KeySystem(SoughtStore(s.st, to), KeySought(s.st, s.hub, to, kept))
  }

  function KeyRun(s: KeySystem, events: seq<KeyEvent>): KeySystem {
    if events == [] then s else KeyNext(KeyRun(s, events[..|events| - 1]), events[|events| - 1])
  }

  function KeyInit(st: Store): KeySystem {
    KeySystem(st, KeyHub(map[], [], 0, None, Empty(true)))
  }

  lemma KeyPublishKeeps(st: Store, k: KeyHub, e: LogEntry)
    requires KeyInv(st, k)
    ensures KeyInv(st.(log := st.log + [e]), k)
  {
    PublishKeepsInv(st, AsHub(k), e);
  }

  lemma {:induction false} KeyPassKeeps(st: Store, k: KeyHub, envs: seq<Env>)
    requires KeyInv(st, k)
    ensures KeyInv(st, KeyDispatch(st, k, envs).hub)
  {
    BatchKeeps(st, Stage(k, BatchSize(k.total), 0, true), 0, envs);
  }

  lemma KeyInvAt(st: Store, k: KeyHub, s: KeySystem)
    requires KeyInv(st, k) && s == KeySystem(st, k)
    ensures KeyInv(s.st, s.hub)
  {
  }

  lemma KeyServingKeeps(s: KeySystem, e: KeyEvent)
    requires KeyInv(s.st, s.hub) && (e.Publish? || e.Join? || e.Flow? || e.Pass?)
    ensures KeyInv(KeyNext(s, e).st, KeyNext(s, e).hub)
  {
    match e
    case Publish(entry) => KeyPublishKeeps(s.st, s.hub, entry);
    case Join(c) => KeyJoinedKeeps(s.st, s.hub, c);
    case Flow(c, n) => KeyFlowedKeeps(s.st, s.hub, c, n);
    case Pass(envs) => KeyPassKeeps(s.st, s.hub, envs);
  }

  lemma KeyCursorKeeps(s: KeySystem, e: KeyEvent)
    requires KeyInv(s.st, s.hub) && (e.Ack? || e.Seek?)
    ensures KeyInv(KeyNext(s, e).st, KeyNext(s, e).hub)
  {
    match e
    case Ack(ids) =>
      KeyAckedKeeps(s.st, s.hub, ids);
      KeyInvAt(AckedStore(s.st, AsHub(s.hub), ids), KeyAcked(s.st, s.hub, ids), KeyNext(s, e));
    case Seek(to, kept) =>
      KeySoughtKeeps(s.st, s.hub, to, kept);
      KeyInvAt(SoughtStore(s.st, to), KeySought(s.st, s.hub, to, kept), KeyNext(s, e));
  }

  lemma KeyNackKeeps(s: KeySystem, e: KeyEvent)
    requires KeyInv(s.st, s.hub) && e.Nack?
    ensures KeyInv(KeyNext(s, e).st, KeyNext(s, e).hub)
  {
    if Owns(s.st, s.hub, e.c) {
      KeyNackedKeeps(s.st, s.hub, e.c, e.ids);
      KeyInvAt(s.st, KeyNacked(s.st, s.hub, e.c, e.ids), KeyNext(s, e));
    } else {
      KeyInvAt(s.st, s.hub, KeyNext(s, e));
    }
  }

  lemma KeyLeaveKeeps(s: KeySystem, e: KeyEvent)
    requires KeyInv(s.st, s.hub) && e.Leave?
    ensures KeyInv(KeyNext(s, e).st, KeyNext(s, e).hub)
  {
    if Owns(s.st, s.hub, e.c) {
      KeyLeftKeeps(s.st, s.hub, e.c);
      KeyInvAt(s.st, KeyLeft(s.st, s.hub, e.c), KeyNext(s, e));
    } else {
      KeyInvAt(s.st, s.hub, KeyNext(s, e));
    }
  }

  lemma KeyNextKeeps(s: KeySystem, e: KeyEvent)
    requires KeyInv(s.st, s.hub)
    ensures KeyInv(KeyNext(s, e).st, KeyNext(s, e).hub)
  {
    if e.Nack? {
      KeyNackKeeps(s, e);
    } else if e.Leave? {
      KeyLeaveKeeps(s, e);
    } else if e.Ack? || e.Seek? {
      KeyCursorKeeps(s, e);
    } else {
      KeyServingKeeps(s, e);
    }
  }

  lemma KeyInitInv(st: Store)
    ensures KeyInv(st, KeyInit(st).hub)
  {
  }

  lemma {:induction false} KeyRunKeeps(s: KeySystem, events: seq<KeyEvent>)
    requires KeyInv(s.st, s.hub)
    ensures KeyInv(KeyRun(s, events).st, KeyRun(s, events).hub)
  {
    if events != [] {
      KeyRunKeeps(s, events[..|events| - 1]);
      KeyNextKeeps(KeyRun(s, events[..|events| - 1]), events[|events| - 1]);
    }
  }

  /** Nothing lost, one owner each, exact counts, known hashes, one redelivery in flight per hash. */
  ghost predicate KeySafe(s: KeySystem) {
    NoLoss(s.st, AsHub(s.hub)) && SingleOwner(AsHub(s.hub)) && Tracked(s.st, s.hub.ctl)
  }

  lemma KeyInvIsSafe(s: KeySystem)
    requires KeyInv(s.st, s.hub)
    ensures KeySafe(s)
  {
    CoveredIsNoLoss(s.st, AsHub(s.hub));
  }

  lemma {:induction false} KeySharedDeliveryIsSafe(st: Store, events: seq<KeyEvent>)
    ensures KeySafe(KeyRun(KeyInit(st), events))
  {
    KeyInitInv(st);
    KeyRunKeeps(KeyInit(st), events);
    KeyInvIsSafe(KeyRun(KeyInit(st), events));
  }
}
