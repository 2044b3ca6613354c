/**
 What every other step of the Key_Shared dispatcher changes, and what it leaves alone.
 */
module KeySteps {
  import opened Base
  import opened SharedDispatch
  import opened SharedHistory
  import opened Redelivery
  import opened KeyShared
  import opened KeySharedRuns
  import opened KeyPasses

  /** A nack takes back exactly the named messages that the consumer holds, and queues those of them that are not
      acknowledged. What is in flight stays so. */
  lemma KeyNackedExact(st: Store, k: KeyHub, c: nat, ids: set<nat>)
    requires Owns(st, k, c)
    ensures var g := KeyNacked(st, k, c, ids);
            var before := k.consumers[c];
            && g.consumers.Keys == k.consumers.Keys
            && (forall d :: d in k.consumers && d != c ==> g.consumers[d] == k.consumers[d])
            && g.consumers[c] == before.(pending := before.pending - ids)
            && g.shares == k.shares && g.total == k.total && g.read == k.read && g.ctl.inFlight == k.ctl.inFlight
            && forall m: nat :: m in g.ctl.entries <==>
                 m in k.ctl.entries || (m in ids && m in before.pending && m !in st.acked)
  {
    var pending := k.consumers[c].pending;
    AddAllShape(st, k.ctl, pending, ids * pending.Keys - st.acked);
    assert pending - ids * pending.Keys == pending - ids;
  }

  /** A nack of messages the consumer does not hold, or of an unknown consumer, changes nothing. */
  lemma KeyNackedNothing(st: Store, k: KeyHub, c: nat, ids: set<nat>)
    requires c in k.consumers ==> Owns(st, k, c) && forall m: nat :: m in ids ==> m !in k.consumers[c].pending
    ensures KeyNacked(st, k, c, ids) == k
  {
    if c in k.consumers {
      var was, g := k.consumers[c], KeyNacked(st, k, c, ids);
      assert ids * was.pending.Keys == {};
      assert g.consumers[c].pending == was.pending;
      assert g.consumers == k.consumers;
    }
  }

  // ---------------------------------------------------------------- seek

  /** A seek drains exactly the consumers outside `kept` and forgets everything queued or in flight; permits and
      ranges stay. */
  lemma KeySoughtDrains(st: Store, k: KeyHub, to: nat, kept: set<nat>)
    ensures var g := KeySought(st, k, to, kept);
            && g.consumers.Keys == k.consumers.Keys && g.shares == k.shares && g.total == k.total
            && g.ctl.entries == map[] && g.ctl.inFlight == map[] && (forall hash :: !Blocked(g.ctl, hash))
            && (forall c :: c in k.consumers && c in kept ==> g.consumers[c] == k.consumers[c])
            && forall c :: c in k.consumers && c !in kept ==>
                 g.consumers[c] == Consumer(k.consumers[c].priority, k.consumers[c].permits, map[])
  {
  }

  /** After a seek that drains everyone the target is the first message to be sent. */
  lemma KeySeekReplays(st: Store, k: KeyHub, to: nat)
    requires to < |st.log|
    ensures var g, after := KeySought(st, k, to, {}), SoughtStore(st, to);
            && (forall m: nat :: !Owned(g.consumers, m)) && g.read == Some(to) && NextUnread(after, g, to)
            && forall m: nat :: m < |st.log| ==> (m in after.acked <==> m < to)
  {
    KeySoughtDrains(st, k, to, {});
    SoughtExact(st, AsHub(k), to, {});
  }

  // ---------------------------------------------------------------- flow, join and leave

  /** Permits and the aggregate grow by what is granted. */
  lemma KeyFlowedExact(k: KeyHub, c: nat, n: nat)
    ensures var g := KeyFlowed(k, c, n);
            if c !in k.consumers then g == k
            else
              && g == k.(consumers := g.consumers, total := k.total + n) && g.consumers.Keys == k.consumers.Keys
              && (forall d :: d in k.consumers && d != c ==> g.consumers[d] == k.consumers[d])
              && g.consumers[c].permits == k.consumers[c].permits + n
              && g.consumers[c].priority == k.consumers[c].priority && g.consumers[c].pending == k.consumers[c].pending
  {
  }

  /** Two grants are one grant of their sum. */
  lemma KeyFlowedTwice(k: KeyHub, c: nat, a: nat, b: nat)
    ensures KeyFlowed(KeyFlowed(k, c, a), c, b) == KeyFlowed(k, c, a + b)
  {
    if c in k.consumers {
      assert KeyFlowed(KeyFlowed(k, c, a), c, b).consumers == KeyFlowed(k, c, a + b).consumers;
    }
  }

  /** A consumer joins without permits or messages; nothing but the ranges changes for the others. */
  lemma KeyJoinedExact(k: KeyHub, c: nat)
    requires c !in k.consumers
    ensures var g := KeyJoined(k, c);
            && g.consumers == k.consumers[c := Consumer(0, 0, map[])]
            && g.total == k.total && g.read == k.read && g.ctl == k.ctl
  {
  }

  /** A leaver's permits go, unless it owes, and its messages are queued; nothing but the ranges changes for the
      others. */
  lemma KeyLeftExact(st: Store, k: KeyHub, c: nat)
    requires Owns(st, k, c)
    ensures var g := KeyLeft(st, k, c);
            var permits := k.consumers[c].permits;
            && g.consumers == k.consumers - {c} && g.read == k.read
            && g.total == k.total - (if permits > 0 then permits else 0)
            && g.ctl.inFlight == k.ctl.inFlight
            && forall m: nat :: m in g.ctl.entries <==> m in k.ctl.entries || m in k.consumers[c].pending
  {
    var pending := k.consumers[c].pending;
    AddAllShape(st, k.ctl, pending, pending.Keys);
  }

  // ---------------------------------------------------------------- acknowledgement

  /** An acknowledgement takes exactly the named messages that somebody holds; nothing acknowledged stays queued or in
      flight, and reading goes on as in Shared mode. */
  lemma KeyAckedExact(st: Store, k: KeyHub, ids: set<nat>)
    requires KeyInv(st, k) && OwnedAmong(k.consumers, ids) != {}
    ensures var g, after := KeyAcked(st, k, ids), AckedStore(st, AsHub(k), ids);
            && g.consumers == Acked(st, AsHub(k), ids).consumers && g.read == Acked(st, AsHub(k), ids).read
            && g.shares == k.shares && g.total == k.total
            && (forall m: nat :: m in g.ctl.entries <==> m in k.ctl.entries && m !in after.acked)
            && (forall m: nat :: m in g.ctl.inFlight <==> m in k.ctl.inFlight && m !in after.acked)
            && (forall m: nat :: m in g.ctl.entries ==> g.ctl.entries[m] == k.ctl.entries[m])
  {
    var owned := OwnedAmong(k.consumers, ids);
    var mid := RemoveAll(k.ctl, owned);
    RemoveAllShape(k.ctl, owned);
    RemoveAllShape(mid, mid.entries.Keys * (st.acked + owned));
  }
}
