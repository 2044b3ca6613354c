/**
 The store holds exactly the requests that got a receipt.
 */
module WriteReplies {
  import opened Base
  import opened Positions
  import opened LedgerLog
  import opened ManagedLedgers
  import opened LedgerRolls
  import opened WriteQueues

  // ---------------------------------------------------------------- the receipts of one ledger

  ghost predicate IsReceipt(r: Reply, k: nat) {
    r.item.ledger == k && r.at.Some?
  }

  /** The positions receipts name on one ledger, in the order of the replies. */
  ghost function Places(replies: seq<Reply>, k: nat): seq<Pos> {
    if replies == [] then []
    else
      var n := |replies| - 1;
      Places(replies[..n], k) + if IsReceipt(replies[n], k) then [replies[n].at.value] else []
  }

  /** The messages of those requests. */
  ghost function Kept(replies: seq<Reply>, k: nat): seq<Message> {
    if replies == [] then []
    else
      var n := |replies| - 1;
      Kept(replies[..n], k) + if IsReceipt(replies[n], k) then [replies[n].item.message] else []
  }

  lemma {:induction false} PlacesMore(a: seq<Reply>, b: seq<Reply>, k: nat)
    ensures Places(a + b, k) == Places(a, k) + Places(b, k)
    decreases |b|
  {
    if b == [] {
      assert a + b == a;
    } else {
      var n := |b| - 1;
      PlacesMore(a, b[..n], k);
      assert (a + b)[..|a| + n] == a + b[..n] && (a + b)[|a| + n] == b[n];
    }
  }

  lemma {:induction false} KeptMore(a: seq<Reply>, b: seq<Reply>, k: nat)
    ensures Kept(a + b, k) == Kept(a, k) + Kept(b, k)
    decreases |b|
  {
    if b == [] {
      assert a + b == a;
    } else {
      var n := |b| - 1;
      KeptMore(a, b[..n], k);
      assert (a + b)[..|a| + n] == a + b[..n] && (a + b)[|a| + n] == b[n];
    }
  }

  lemma {:induction false} NoPlaces(replies: seq<Reply>, k: nat)
    requires forall i :: 0 <= i < |replies| ==> !IsReceipt(replies[i], k)
    ensures Places(replies, k) == [] && Kept(replies, k) == []
  {
    if replies != [] { NoPlaces(replies[..|replies| - 1], k); }
  }

  lemma {:induction false} AllPlaces(replies: seq<Reply>, k: nat, ps: seq<Pos>, ms: seq<Message>)
    requires |replies| == |ps| == |ms|
    requires forall i :: 0 <= i < |replies| ==>
               IsReceipt(replies[i], k) && replies[i].at.value == ps[i] && replies[i].item.message == ms[i]
    ensures Places(replies, k) == ps && Kept(replies, k) == ms
  {
    if replies != [] {
      var n := |replies| - 1;
      AllPlaces(replies[..n], k, ps[..n], ms[..n]);
      assert ps == ps[..n] + [ps[n]] && ms == ms[..n] + [ms[n]];
    }
  }

  lemma {:induction false} RefusalsPlaces(replies: seq<Reply>, group: seq<Item>, k: nat)
    ensures Places(replies + Refusals(group), k) == Places(replies, k)
    ensures Kept(replies + Refusals(group), k) == Kept(replies, k)
  {
    RefusalsAt(group);
    NoPlaces(Refusals(group), k);
    PlacesMore(replies, Refusals(group), k);
    KeptMore(replies, Refusals(group), k);
  }

  lemma {:induction false} ReceiptsPlaces(replies: seq<Reply>, group: seq<Item>, ps: seq<Pos>, k: nat, j: nat)
    requires |ps| == |group| && forall i :: 0 <= i < |group| ==> group[i].ledger == k
    ensures Places(replies + Receipts(group, ps), j) == Places(replies, j) + if j == k then ps else []
    ensures Kept(replies + Receipts(group, ps), j) == Kept(replies, j) + if j == k then Messages(group) else []
  {
    ReceiptsAt(group, ps);
    MessagesAt(group);
    PlacesMore(replies, Receipts(group, ps), j);
    KeptMore(replies, Receipts(group, ps), j);
    if j == k {
      AllPlaces(Receipts(group, ps), k, ps, Messages(group));
    } else {
      NoPlaces(Receipts(group, ps), j);
    }
  }

  // ---------------------------------------------------------------- every step keeps store and receipts equal

  /** The log of the ledger is what receipts name, and holds their messages. */
  ghost predicate Matches(l: Ledger, ps: seq<Pos>, ms: seq<Message>) {
    Holds(l.entries, Log(l.info)) && Log(l.info) == ps && Contents(l.entries, Log(l.info)) == ms
  }

  ghost predicate MirrorAt(w: Worker, k: nat) {
    if k in w.ledgers then Matches(w.ledgers[k], Places(w.replies, k), Kept(w.replies, k))
    else Places(w.replies, k) == [] && Kept(w.replies, k) == []
  }

  ghost predicate Mirrors(w: Worker) {
    forall k: nat :: MirrorAt(w, k)
  }

  lemma {:induction false} LedgerOfMatches(w: Worker, k: nat)
    requires Sound(w) && MirrorAt(w, k)
    ensures Matches(LedgerOf(w, k), Places(w.replies, k), Kept(w.replies, k))
  {
    LedgerOfSound(w, k);
    if k !in w.ledgers { OpenExact(map[], None, w.nextId, w.max); }
  }

  lemma {:induction false} StoredMirrors(w: Worker, k: nat, group: seq<Item>, j: nat)
    requires Sound(w) && Mirrors(w) && forall i :: 0 <= i < |group| ==> group[i].ledger == k
    ensures MirrorAt(Serve(w, k, group, Stored), j)
  {
    var l := LedgerOf(w, k);
    assert MirrorAt(w, k) && MirrorAt(w, j);
    LedgerOfSound(w, k);
    LedgerOfMatches(w, k);
    var ps := AppendExact(l, Messages(group));
    ReceiptsPlaces(w.replies, group, ps, k, j);
  }

  lemma MatchesAt(l: Ledger, after: Ledger, ps: seq<Pos>, ms: seq<Message>)
    requires Matches(l, ps, ms) && after.entries == l.entries && after.info == l.info
    ensures Matches(after, ps, ms)
  {
  }

  lemma {:induction false} FailedMatches(w: Worker, k: nat, group: seq<Item>, ids: nat)
    requires Sound(w) && MirrorAt(w, k)
    ensures Matches(AppendFailed(LedgerOf(w, k), Messages(group), ids), Places(w.replies, k), Kept(w.replies, k))
  {
    var l := LedgerOf(w, k);
    LedgerOfSound(w, k);
    LedgerOfMatches(w, k);
    MatchesAt(l, AppendFailed(l, Messages(group), ids), Places(w.replies, k), Kept(w.replies, k));
  }

  lemma {:induction false} RefusedMirrors(w: Worker, k: nat, group: seq<Item>, outcome: Outcome, j: nat)
    requires Sound(w) && Mirrors(w) && !outcome.Stored?
    ensures MirrorAt(Serve(w, k, group, outcome), j)
  {
    assert MirrorAt(w, k) && MirrorAt(w, j);
    LedgerOfSound(w, k);
    RefusalsPlaces(w.replies, group, j);
    if outcome.AppendError? { FailedMatches(w, k, group, outcome.ids); }
  }

  lemma {:induction false} ServeMirrors(w: Worker, k: nat, group: seq<Item>, outcome: Outcome)
    requires Sound(w) && Mirrors(w) && forall i :: 0 <= i < |group| ==> group[i].ledger == k
    ensures Mirrors(Serve(w, k, group, outcome))
  {
    forall j: nat ensures MirrorAt(Serve(w, k, group, outcome), j) {
      if outcome.Stored? { StoredMirrors(w, k, group, j); } else { RefusedMirrors(w, k, group, outcome, j); }
    }
  }

  lemma {:induction false} BatchMirrors(w: Worker, batch: seq<Item>, outcomes: seq<Outcome>, i: nat, future: seq<Item>)
    requires WriteQueues.Ready(w, batch, future) && Mirrors(w)
    ensures Mirrors(ServeBatch(w, batch, outcomes, i))
    decreases |batch|
  {
    if batch != [] {
      var k, outcome := batch[0].ledger, OutcomeAt(outcomes, i);
      var group := With(batch, k);
      WithoutFirst(batch);
      WithMembers(batch, k);
      forall x | 0 <= x < |group| ensures group[x].ledger == k { assert group[x] in group; }
      ServeMirrors(w, k, group, outcome);
      GroupInOrder(w, batch, k, outcome, future);
      BatchMirrors(Serve(w, k, group, outcome), Without(batch, k), outcomes, i + 1, future);
    }
  }

  lemma {:induction false} RunMirrors(w: Worker, work: seq<Work>)
    requires Sound(w) && InOrder(w.replies) && Mirrors(w)
    requires WriteQueues.Ascending(Arrivals(work)) && Earlier(w.replies, Arrivals(work))
    ensures Mirrors(ServeAll(w, work))
    decreases |work|
  {
    if work != [] {
      var batch, future := work[0].batch, Arrivals(work[1..]);
      AscendingSplit(batch, future);
      BatchMirrors(w, batch, work[0].outcomes, 0, future);
      BatchInOrder(w, batch, work[0].outcomes, 0, future);
      RunMirrors(ServeBatch(w, batch, work[0].outcomes, 0), work[1..]);
    }
  }

  /** In every run from an empty store the log of each ledger is exactly what its receipts name, in the order of the
      replies, and holds exactly their messages: what was refused is not stored, and what is stored has its receipt. */
  lemma {:induction false} StoreHoldsReceipts(max: nat, work: seq<Work>, k: nat)
    requires 1 <= max < U64_LIMIT && WriteQueues.Ascending(Arrivals(work))
    ensures var w := ServeAll(Worker(max, map[], 0, []), work);
            if k in w.ledgers then
              && Log(w.ledgers[k].info) == Places(w.replies, k)
              && Holds(w.ledgers[k].entries, Log(w.ledgers[k].info))
              && Contents(w.ledgers[k].entries, Log(w.ledgers[k].info)) == Kept(w.replies, k)
            else Places(w.replies, k) == []
  {
    var w := ServeAll(Worker(max, map[], 0, []), work);
    RunMirrors(Worker(max, map[], 0, []), work);
    assert MirrorAt(w, k);
  }

  /** Replies that answer the requests of a group in turn. */
  ghost predicate Answers(before: seq<Reply>, after: seq<Reply>, group: seq<Item>, i: nat, at: Option<Pos>) {
    |after| == |before| + |group| && i < |group| && after[|before| + i] == Reply(group[i], at)
  }

  lemma {:induction false} StoredAnswers(w: Worker, k: nat, group: seq<Item>, i: nat, ps: seq<Pos>)
    requires LedgerOf(w, k).info != [] && i < |group|
    requires ps == Assign(Start(LedgerOf(w, k)), LedgerOf(w, k).max, Messages(group), |group|).positions
    ensures |ps| == |group| && Answers(w.replies, Serve(w, k, group, Stored).replies, group, i, Some(ps[i]))
  {
    ReceiptsAt(group, ps);
  }

  lemma {:induction false} RefusedAnswers(w: Worker, k: nat, group: seq<Item>, outcome: Outcome, i: nat)
    requires LedgerOf(w, k).info != [] && i < |group| && !outcome.Stored?
    ensures Answers(w.replies, Serve(w, k, group, outcome).replies, group, i, None)
  {
    RefusalsAt(group);
  }

  lemma {:induction false} NextPlace(l: Ledger, items: seq<Message>, i: nat, ps: seq<Pos>)
    requires LedgerInv(l) && i < |items| && ps == Assign(Start(l), l.max, items, |items|).positions
    ensures |ps| == |items| && ps[i] == PlaceOf(l.cur.id, l.nextId, l.max, l.cur.entries + i)
  {
    AppendPlaces(l, items, i, ps[i]);
  }

  /** A request is refused exactly when its group fails, and otherwise gets its place at the end of the ledger. */
  lemma {:induction false} ServeDecides(w: Worker, k: nat, group: seq<Item>, outcome: Outcome, i: nat, l: Ledger)
    returns (p: Pos)
    requires Sound(w) && i < |group| && l == LedgerOf(w, k)
    ensures l.max > 0 && p == PlaceOf(l.cur.id, l.nextId, l.max, l.cur.entries + i)
    ensures Answers(w.replies, Serve(w, k, group, outcome).replies, group, i, if outcome.Stored? then Some(p) else None)
  {
    LedgerOfSound(w, k);
    var ps := Assign(Start(l), l.max, Messages(group), |group|).positions;
    NextPlace(l, Messages(group), i, ps);
    p := ps[i];
    if outcome.Stored? {
      StoredAnswers(w, k, group, i, ps);
    } else {
      RefusedAnswers(w, k, group, outcome, i);
    }
  }
}
