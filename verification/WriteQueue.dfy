/**
 The write queue: one worker cuts the arrivals into batches, groups each batch by ledger, appends
 each group and answers every request.
 */
module WriteQueues {
  import opened Base
  import opened Positions
  import opened LedgerLog
  import opened ManagedLedgers

  /** A request, numbered by arrival. */
  datatype Item = Item(id: nat, ledger: nat, message: Message)

  /** The answer to a request: where its message is stored, or an error. */
  datatype Reply = Reply(item: Item, at: Option<Pos>)

  /** A failed append has taken up to `ids` ledger ids. */
  datatype Outcome = Stored | AppendError(ids: nat) | OpenError

  /** `ledgers` holds every ledger ever opened; ledger ids come from one shared counter. */
  datatype Worker = Worker(max: nat, ledgers: map<nat, Ledger>, nextId: nat, replies: seq<Reply>)

  // ---------------------------------------------------------------- grouping

  /** The requests for one ledger, in arrival order. */
  function With(batch: seq<Item>, k: nat): seq<Item> {
    if batch == [] then []
    else (if batch[0].ledger == k then [batch[0]] else []) + With(batch[1..], k)
  }

  function Without(batch: seq<Item>, k: nat): (r: seq<Item>)
    ensures |r| <= |batch|
  {
    if batch == [] then []
    else (if batch[0].ledger != k then [batch[0]] else []) + Without(batch[1..], k)
  }

  /** The ledgers of a batch by first appearance. */
  function Order(batch: seq<Item>): seq<nat>
    decreases |batch|
  {
    if batch == [] then []
    else
      WithoutFirst(batch);
      [batch[0].ledger] + Order(Without(batch, batch[0].ledger))
  }

  lemma WithoutFirst(batch: seq<Item>)
    requires batch != []
    ensures |Without(batch, batch[0].ledger)| < |batch|
  {
  }

  // ---------------------------------------------------------------- one group, one batch, all batches

  function LedgerOf(w: Worker, k: nat): Ledger {
    if k in w.ledgers then w.ledgers[k].(nextId := w.nextId) else Open(map[], None, w.nextId, w.max)
  }

  function Messages(group: seq<Item>): (r: seq<Message>)
    ensures |r| == |group|
  {
    if group == [] then [] else [group[0].message] + Messages(group[1..])
  }

  function Refusals(group: seq<Item>): seq<Reply> {
    if group == [] then [] else [Reply(group[0], None)] + Refusals(group[1..])
  }

  function Receipts(group: seq<Item>, ps: seq<Pos>): seq<Reply>
    requires |ps| == |group|
  {
    if group == [] then [] else [Reply(group[0], Some(ps[0]))] + Receipts(group[1..], ps[1..])
  }

  function Serve(w: Worker, k: nat, group: seq<Item>, outcome: Outcome): Worker {
    var l := LedgerOf(w, k);
    if outcome.OpenError? || l.info == [] then w.(replies := w.replies + Refusals(group))
    else if outcome.AppendError? then
      var after := AppendFailed(l, Messages(group), outcome.ids);
      w.(ledgers := w.ledgers[k := after], nextId := after.nextId, replies := w.replies + Refusals(group))
    else
      var after := Append(l, Messages(group));
      var ps := Assign(Start(l), l.max, Messages(group), |group|).positions;
      w.(ledgers := w.ledgers[k := after], nextId := after.nextId, replies := w.replies + Receipts(group, ps))
  }

  function OutcomeAt(outcomes: seq<Outcome>, i: nat): Outcome {
    if i < |outcomes| then outcomes[i] else Stored
  }

  /** Serve the groups of a batch by first appearance, the `i`th with its own outcome. */
  function ServeBatch(w: Worker, batch: seq<Item>, outcomes: seq<Outcome>, i: nat): Worker
    decreases |batch|
  {
    if batch == [] then w
    else
      var k := batch[0].ledger;
      WithoutFirst(batch);
      ServeBatch(Serve(w, k, With(batch, k), OutcomeAt(outcomes, i)), Without(batch, k), outcomes, i + 1)
  }

  datatype Work = Work(batch: seq<Item>, outcomes: seq<Outcome>)

  function ServeAll(w: Worker, work: seq<Work>): Worker
    decreases |work|
  {
    if work == [] then w
    else ServeAll(ServeBatch(w, work[0].batch, work[0].outcomes, 0), work[1..])
  }

  function Arrivals(work: seq<Work>): seq<Item> {
    if work == [] then [] else work[0].batch + Arrivals(work[1..])
  }

  // ---------------------------------------------------------------- exactly one reply each

  function Answered(replies: seq<Reply>): seq<Item> {
    if replies == [] then [] else [replies[0].item] + Answered(replies[1..])
  }

  lemma {:induction false} SplitBatch(batch: seq<Item>, k: nat)
    ensures multiset(batch) == multiset(With(batch, k)) + multiset(Without(batch, k))
  {
    if batch != [] {
      var x, rest := batch[0], batch[1..];
      SplitBatch(rest, k);
      assert batch == [x] + rest;
      ConsCounts(x, rest);
      if x.ledger == k {
        ConsCounts(x, With(rest, k));
        assert With(batch, k) == [x] + With(rest, k) && Without(batch, k) == Without(rest, k);
      } else {
        ConsCounts(x, Without(rest, k));
        assert Without(batch, k) == [x] + Without(rest, k) && With(batch, k) == With(rest, k);
      }
    }
  }

  lemma ConsCounts(x: Item, s: seq<Item>)
    ensures multiset([x] + s) == multiset{x} + multiset(s)
  {
  }

  lemma {:induction false} AnsweredMore(a: seq<Reply>, b: seq<Reply>)
    ensures Answered(a + b) == Answered(a) + Answered(b)
  {
    if a == [] {
      assert a + b == b;
    } else {
      AnsweredMore(a[1..], b);
      assert (a + b)[1..] == a[1..] + b;
      assert Answered(a + b) == [a[0].item] + Answered(a[1..] + b);
    }
  }

  lemma {:induction false} RefusalsAnswer(group: seq<Item>)
    ensures Answered(Refusals(group)) == group
  {
    if group != [] { RefusalsAnswer(group[1..]); }
  }

  lemma {:induction false} ReceiptsAnswer(group: seq<Item>, ps: seq<Pos>)
    requires |ps| == |group|
    ensures Answered(Receipts(group, ps)) == group
  {
    if group != [] { ReceiptsAnswer(group[1..], ps[1..]); }
  }

  lemma {:induction false} ServeAnswers(w: Worker, k: nat, group: seq<Item>, outcome: Outcome)
    ensures Answered(Serve(w, k, group, outcome).replies) == Answered(w.replies) + group
  {
    RefusalsAnswer(group);
    AnsweredMore(w.replies, Refusals(group));
    var l := LedgerOf(w, k);
    if l.info != [] && outcome.Stored? {
      var ps := Assign(Start(l), l.max, Messages(group), |group|).positions;
      ReceiptsAnswer(group, ps);
      AnsweredMore(w.replies, Receipts(group, ps));
    }
  }

  lemma {:induction false} BatchAnswers(w: Worker, batch: seq<Item>, outcomes: seq<Outcome>, i: nat)
    ensures multiset(Answered(ServeBatch(w, batch, outcomes, i).replies)) ==
            multiset(Answered(w.replies)) + multiset(batch)
    decreases |batch|
  {
    if batch != [] {
      var k := batch[0].ledger;
      var next := Serve(w, k, With(batch, k), OutcomeAt(outcomes, i));
      WithoutFirst(batch);
      SplitBatch(batch, k);
      ServeAnswers(w, k, With(batch, k), OutcomeAt(outcomes, i));
      BatchAnswers(next, Without(batch, k), outcomes, i + 1);
    }
  }

  /** However the arrivals are cut into batches, every request gets exactly one reply. */
  lemma {:induction false} EveryRequestAnswered(w: Worker, work: seq<Work>)
    ensures multiset(Answered(ServeAll(w, work).replies)) == multiset(Answered(w.replies)) + multiset(Arrivals(work))
    decreases |work|
  {
    if work != [] {
      BatchAnswers(w, work[0].batch, work[0].outcomes, 0);
      EveryRequestAnswered(ServeBatch(w, work[0].batch, work[0].outcomes, 0), work[1..]);
    }
  }

  // ---------------------------------------------------------------- arrival order decides

  /** On one ledger, `a` arrived before `b`, and its message is stored before that of `b`. */
  predicate Precedes(a: Reply, b: Reply) {
    a.item.ledger == b.item.ledger ==>
      a.item.id < b.item.id && (a.at.Some? && b.at.Some? ==> a.at.value.Lt(b.at.value))
  }

  ghost predicate InOrder(replies: seq<Reply>) {
    forall i, j :: 0 <= i < j < |replies| ==> Precedes(replies[i], replies[j])
  }

  ghost predicate AllPrecede(a: seq<Reply>, b: seq<Reply>) {
    forall i, j :: 0 <= i < |a| && 0 <= j < |b| ==> Precedes(a[i], b[j])
  }

  /** Whatever was answered on a ledger arrived before these requests for it. */
  ghost predicate Earlier(replies: seq<Reply>, items: seq<Item>) {
    forall i, x :: 0 <= i < |replies| && x in items && replies[i].item.ledger == x.ledger ==> replies[i].item.id < x.id
  }

  ghost predicate Ascending(items: seq<Item>) {
    forall i, j :: 0 <= i < j < |items| ==> items[i].id < items[j].id
  }

  /** Every ledger is intact and every receipt names the place of its own message. */
  ghost predicate Sound(w: Worker) {
    SoundLedgers(w.max, w.ledgers, w.nextId) && AllLocated(w.ledgers, w.replies)
  }

  lemma InOrderMore(a: seq<Reply>, b: seq<Reply>)
    requires InOrder(a) && InOrder(b) && AllPrecede(a, b)
    ensures InOrder(a + b)
  {
  }

  lemma {:induction false} ReceiptAt(group: seq<Item>, ps: seq<Pos>, i: nat)
    requires |ps| == |group| && i < |group|
    ensures |Receipts(group, ps)| == |group| && Receipts(group, ps)[i] == Reply(group[i], Some(ps[i]))
  {
    if |group| > 1 { ReceiptAt(group[1..], ps[1..], if i > 0 then i - 1 else 0); }
  }

  lemma {:induction false} ReceiptsAt(group: seq<Item>, ps: seq<Pos>)
    requires |ps| == |group|
    ensures |Receipts(group, ps)| == |group|
    ensures forall i :: 0 <= i < |group| ==> Receipts(group, ps)[i] == Reply(group[i], Some(ps[i]))
  {
    forall i: nat | i < |group|
      ensures |Receipts(group, ps)| == |group| && Receipts(group, ps)[i] == Reply(group[i], Some(ps[i]))
    {
      ReceiptAt(group, ps, i);
    }
  }

  lemma {:induction false} RefusalsAt(group: seq<Item>)
    ensures |Refusals(group)| == |group| && forall i :: 0 <= i < |group| ==> Refusals(group)[i] == Reply(group[i], None)
  {
    if group != [] { RefusalsAt(group[1..]); }
  }

  lemma {:induction false} RefusalsInOrder(replies: seq<Reply>, group: seq<Item>)
    requires InOrder(replies) && Earlier(replies, group) && Ascending(group)
    ensures InOrder(replies + Refusals(group))
  {
    RefusalsAt(group);
    forall i, j | 0 <= i < |replies| && 0 <= j < |group| ensures Precedes(replies[i], Refusals(group)[j]) {
      assert group[j] in group;
    }
    InOrderMore(replies, Refusals(group));
  }

  /** Positions appended to a ledger come after each other and after everything already there. */
  lemma AppendedAfter(info: Info, info': Info, ps: seq<Pos>, p: Pos, i: nat)
    requires WellFormed(info') && Log(info') == Log(info) + ps && i < |ps|
    ensures p in Log(info) ==> p.Lt(ps[i])
    ensures forall j :: i < j < |ps| ==> ps[i].Lt(ps[j])
  {
    var n := |Log(info)|;
    assert Log(info')[n + i] == ps[i];
    if p in Log(info) {
      var x: nat :| x < n && Log(info)[x] == p;
      assert Log(info')[x] == p;
      LogOrder(info', x, n + i);
    }
    forall j | i < j < |ps| ensures ps[i].Lt(ps[j]) {
      assert Log(info')[n + j] == ps[j];
      LogOrder(info', n + i, n + j);
    }
  }

  lemma {:induction false} LedgerOfSound(w: Worker, k: nat)
    requires Sound(w)
    ensures LedgerInv(LedgerOf(w, k)) && LedgerOf(w, k).nextId >= w.nextId
    ensures k in w.ledgers ==>
            LedgerOf(w, k).info == w.ledgers[k].info && LedgerOf(w, k).entries == w.ledgers[k].entries
  {
    if k !in w.ledgers { OpenExact(map[], None, w.nextId, w.max); }
  }

  lemma RaisedId(l: Ledger, n: nat)
    requires LedgerInv(l) && n >= l.nextId
    ensures LedgerInv(l.(nextId := n))
  {
  }

  ghost predicate SoundLedgers(max: nat, ledgers: map<nat, Ledger>, nextId: nat) {
    1 <= max < U64_LIMIT && forall k :: k in ledgers ==> LedgerInv(ledgers[k].(nextId := nextId))
  }

  /** A receipt names a stored position, and the request's own message is stored there. */
  ghost predicate Located(ledgers: map<nat, Ledger>, r: Reply) {
    r.at.Some? ==> r.item.ledger in ledgers && Holding(ledgers[r.item.ledger], r.at.value, r.item.message)
  }

  ghost predicate Holding(l: Ledger, p: Pos, m: Message) {
    p in Log(l.info) && p in l.entries && l.entries[p] == m
  }

  /** Everything `l` holds is still held. */
  ghost predicate Keeps(l: Ledger, after: Ledger) {
    forall p, m :: Holding(l, p, m) ==> Holding(after, p, m)
  }

  ghost predicate AllLocated(ledgers: map<nat, Ledger>, replies: seq<Reply>) {
    forall i :: 0 <= i < |replies| ==> Located(ledgers, replies[i])
  }

  lemma SoundLedgersPut(max: nat, ledgers: map<nat, Ledger>, nextId: nat, k: nat, after: Ledger)
    requires SoundLedgers(max, ledgers, nextId) && LedgerInv(after) && after.nextId >= nextId
    ensures SoundLedgers(max, ledgers[k := after], after.nextId)
  {
    var all := ledgers[k := after];
    forall x | x in all ensures LedgerInv(all[x].(nextId := after.nextId)) {
      if x != k { RaisedId(ledgers[x].(nextId := nextId), after.nextId); }
    }
  }

  lemma LocatedPut(ledgers: map<nat, Ledger>, k: nat, after: Ledger, replies: seq<Reply>)
    requires AllLocated(ledgers, replies) && (k in ledgers ==> Keeps(ledgers[k], after))
    ensures AllLocated(ledgers[k := after], replies)
  {
    forall i | 0 <= i < |replies| ensures Located(ledgers[k := after], replies[i]) {
      assert Located(ledgers, replies[i]);
    }
  }

  lemma LocatedMore(ledgers: map<nat, Ledger>, a: seq<Reply>, b: seq<Reply>)
    requires AllLocated(ledgers, a) && AllLocated(ledgers, b)
    ensures AllLocated(ledgers, a + b)
  {
  }

  /** What a group's receipts say about the ledger it was appended to. */
  lemma {:induction false} ReceiptsLocated(ledgers: map<nat, Ledger>, k: nat, after: Ledger, group: seq<Item>,
                                           ps: seq<Pos>)
    requires |ps| == |group| && (forall i :: 0 <= i < |group| ==> group[i].ledger == k)
    requires forall i :: 0 <= i < |ps| ==> Holding(after, ps[i], group[i].message)
    ensures AllLocated(ledgers[k := after], Receipts(group, ps))
  {
    ReceiptsAt(group, ps);
  }

  lemma {:induction false} ReceiptsInOrder(ledgers: map<nat, Ledger>, k: nat, replies: seq<Reply>, group: seq<Item>,
                                           info: Info, info': Info, ps: seq<Pos>)
    requires InOrder(replies) && Earlier(replies, group) && Ascending(group) && AllLocated(ledgers, replies)
    requires |ps| == |group| && forall i :: 0 <= i < |group| ==> group[i].ledger == k
    requires WellFormed(info') && Log(info') == Log(info) + ps && (k in ledgers ==> ledgers[k].info == info)
    ensures InOrder(replies + Receipts(group, ps))
  {
    var fresher := Receipts(group, ps);
    ReceiptsAt(group, ps);
    forall i, j | 0 <= i < |replies| && 0 <= j < |fresher| ensures Precedes(replies[i], fresher[j]) {
      assert Located(ledgers, replies[i]) && group[j] in group;
      if replies[i].at.Some? { AppendedAfter(info, info', ps, replies[i].at.value, j); }
    }
    forall i, j | 0 <= i < j < |fresher| ensures Precedes(fresher[i], fresher[j]) {
      AppendedAfter(info, info', ps, ps[i], i);
    }
    InOrderMore(replies, fresher);
  }

  /** What storing a group does to its ledger. */
  lemma {:induction false} StoredShape(w: Worker, k: nat, group: seq<Item>) returns (after: Ledger, ps: seq<Pos>)
    requires Sound(w)
    ensures LedgerInv(after) && after.nextId >= w.nextId && |ps| == |group|
    ensures Log(after.info) == Log(LedgerOf(w, k).info) + ps && Keeps(LedgerOf(w, k), after)
    ensures forall i :: 0 <= i < |ps| ==> Holding(after, ps[i], group[i].message)
    ensures Serve(w, k, group, Stored)
            == w.(ledgers := w.ledgers[k := after], nextId := after.nextId, replies := w.replies + Receipts(group, ps))
  {
    var l := LedgerOf(w, k);
    LedgerOfSound(w, k);
    ps := AppendExact(l, Messages(group));
    after := Append(l, Messages(group));
    AssignMonotone(Start(l), l.max, Messages(group), 0, |group|);
    AppendHolds(l, after, ps, group);
  }

  lemma {:induction false} MessagesAt(group: seq<Item>)
    ensures forall i :: 0 <= i < |group| ==> Messages(group)[i] == group[i].message
  {
    if group != [] { MessagesAt(group[1..]); }
  }

  lemma {:induction false} AppendHolds(l: Ledger, after: Ledger, ps: seq<Pos>, group: seq<Item>)
    requires Holds(l.entries, Log(l.info)) && Holds(after.entries, Log(after.info)) && |ps| == |group|
    requires Log(after.info) == Log(l.info) + ps
    requires Contents(after.entries, Log(after.info)) == Contents(l.entries, Log(l.info)) + Messages(group)
    ensures Keeps(l, after) && forall i :: 0 <= i < |ps| ==> Holding(after, ps[i], group[i].message)
  {
    var before, now, n := Contents(l.entries, Log(l.info)), Contents(after.entries, Log(after.info)), |Log(l.info)|;
    MessagesAt(group);
    forall p, m | Holding(l, p, m) ensures Holding(after, p, m) {
      var x: nat :| x < n && Log(l.info)[x] == p;
      assert Log(after.info)[x] == p && now[x] == before[x];
    }
    forall i | 0 <= i < |ps| ensures Holding(after, ps[i], group[i].message) {
      assert Log(after.info)[n + i] == ps[i] && now[n + i] == Messages(group)[i];
    }
  }

  /** Serving a group keeps every ledger intact and every reply in arrival order. */
  lemma {:induction false} ServeStored(w: Worker, k: nat, group: seq<Item>)
    requires Sound(w) && InOrder(w.replies) && Earlier(w.replies, group) && Ascending(group)
    requires forall i :: 0 <= i < |group| ==> group[i].ledger == k
    ensures Sound(Serve(w, k, group, Stored)) && InOrder(Serve(w, k, group, Stored).replies)
  {
    LedgerOfSound(w, k);
    var after, ps := StoredShape(w, k, group);
    SoundLedgersPut(w.max, w.ledgers, w.nextId, k, after);
    LocatedPut(w.ledgers, k, after, w.replies);
    ReceiptsLocated(w.ledgers, k, after, group, ps);
    LocatedMore(w.ledgers[k := after], w.replies, Receipts(group, ps));
    ReceiptsInOrder(w.ledgers, k, w.replies, group, LedgerOf(w, k).info, after.info, ps);
  }

  lemma {:induction false} RefusalsLocated(ledgers: map<nat, Ledger>, group: seq<Item>)
    ensures AllLocated(ledgers, Refusals(group))
  {
    RefusalsAt(group);
  }

  lemma {:induction false} ServeRefused(w: Worker, k: nat, group: seq<Item>, outcome: Outcome)
    requires Sound(w) && InOrder(w.replies) && Earlier(w.replies, group) && Ascending(group) && !outcome.Stored?
    ensures Sound(Serve(w, k, group, outcome)) && InOrder(Serve(w, k, group, outcome).replies)
  {
    var l := LedgerOf(w, k);
    LedgerOfSound(w, k);
    RefusalsInOrder(w.replies, group);
    if outcome.OpenError? {
      RefusalsLocated(w.ledgers, group);
      LocatedMore(w.ledgers, w.replies, Refusals(group));
    } else {
      var after := AppendFailed(l, Messages(group), outcome.ids);
      AppendFailedExact(l, Messages(group), outcome.ids);
      SoundLedgersPut(w.max, w.ledgers, w.nextId, k, after);
      LocatedPut(w.ledgers, k, after, w.replies);
      RefusalsLocated(w.ledgers[k := after], group);
      LocatedMore(w.ledgers[k := after], w.replies, Refusals(group));
    }
  }

  /** Requests of the first list for a ledger arrived before those of the second. */
  ghost predicate Sooner(a: seq<Item>, b: seq<Item>) {
    forall x, y :: x in a && y in b && x.ledger == y.ledger ==> x.id < y.id
  }

  lemma EarlierMore(a: seq<Reply>, b: seq<Reply>, group: seq<Item>, rest: seq<Item>)
    requires Earlier(a, rest) && Sooner(group, rest) && |b| == |group|
    requires forall i :: 0 <= i < |b| ==> b[i].item == group[i]
    ensures Earlier(a + b, rest)
  {
    forall i, x | 0 <= i < |a + b| && x in rest && (a + b)[i].item.ledger == x.ledger
      ensures (a + b)[i].item.id < x.id
    {
      assert i >= |a| ==> (a + b)[i].item == group[i - |a|] && group[i - |a|] in group;
    }
  }

  /** The new replies are those of the group. */
  lemma {:induction false} ServeEarlier(w: Worker, k: nat, group: seq<Item>, outcome: Outcome, rest: seq<Item>)
    requires Earlier(w.replies, rest) && Sooner(group, rest)
    ensures Earlier(Serve(w, k, group, outcome).replies, rest)
  {
    RefusalsAt(group);
    EarlierMore(w.replies, Refusals(group), group, rest);
    var l := LedgerOf(w, k);
    if l.info != [] {
      var ps := Assign(Start(l), l.max, Messages(group), |group|).positions;
      ReceiptsAt(group, ps);
      EarlierMore(w.replies, Receipts(group, ps), group, rest);
    }
  }

  lemma {:induction false} WithMembers(batch: seq<Item>, k: nat)
    ensures forall x :: x in With(batch, k) <==> x in batch && x.ledger == k
    ensures forall x :: x in Without(batch, k) <==> x in batch && x.ledger != k
  {
    if batch != [] {
      WithMembers(batch[1..], k);
      assert batch == [batch[0]] + batch[1..];
    }
  }

  lemma {:induction false} WithAscending(batch: seq<Item>, k: nat)
    requires Ascending(batch)
    ensures Ascending(With(batch, k)) && Ascending(Without(batch, k))
  {
    if batch != [] {
      var rest := batch[1..];
      WithAscending(rest, k);
      WithMembers(rest, k);
      ConsAscending(batch[0], With(rest, k), rest);
      ConsAscending(batch[0], Without(rest, k), rest);
    }
  }

  lemma ConsAscending(x: Item, s: seq<Item>, rest: seq<Item>)
    requires Ascending(s) && (forall y :: y in s ==> y in rest) && forall i :: 0 <= i < |rest| ==> x.id < rest[i].id
    ensures Ascending([x] + s)
  {
    forall j | 0 <= j < |s| ensures x.id < s[j].id {
      assert s[j] in rest;
    }
  }

  /** Everything still waiting arrived after everything answered on its ledger. */
  ghost predicate Ready(w: Worker, batch: seq<Item>, future: seq<Item>) {
    && Sound(w) && InOrder(w.replies) && Ascending(batch)
    && Earlier(w.replies, batch) && Earlier(w.replies, future) && Sooner(batch, future)
  }

  lemma {:induction false} GroupInOrder(w: Worker, batch: seq<Item>, k: nat, outcome: Outcome, future: seq<Item>)
    requires Ready(w, batch, future)
    ensures Ready(Serve(w, k, With(batch, k), outcome), Without(batch, k), future)
  {
    var group, rest := With(batch, k), Without(batch, k);
    WithMembers(batch, k);
    WithAscending(batch, k);
    forall i | 0 <= i < |group| ensures group[i].ledger == k { assert group[i] in group; }
    if outcome.Stored? { ServeStored(w, k, group); } else { ServeRefused(w, k, group, outcome); }
    ServeEarlier(w, k, group, outcome, rest);
    ServeEarlier(w, k, group, outcome, future);
  }

  lemma {:induction false} BatchInOrder(w: Worker, batch: seq<Item>, outcomes: seq<Outcome>, i: nat, future: seq<Item>)
    requires Ready(w, batch, future)
    ensures Ready(ServeBatch(w, batch, outcomes, i), [], future)
    decreases |batch|
  {
    if batch != [] {
      var k := batch[0].ledger;
      WithoutFirst(batch);
      GroupInOrder(w, batch, k, OutcomeAt(outcomes, i), future);
      BatchInOrder(Serve(w, k, With(batch, k), OutcomeAt(outcomes, i)), Without(batch, k), outcomes, i + 1, future);
    }
  }

  lemma AscendingSplit(a: seq<Item>, b: seq<Item>)
    requires Ascending(a + b)
    ensures Ascending(a) && Ascending(b) && Sooner(a, b)
  {
    forall i | 0 <= i < |a| ensures a[i] == (a + b)[i] { }
    forall i | 0 <= i < |b| ensures b[i] == (a + b)[|a| + i] { }
    forall x, y | x in a && y in b ensures x.id < y.id {
      var i :| 0 <= i < |a| && a[i] == x;
      var j :| 0 <= j < |b| && b[j] == y;
      assert (a + b)[i].id < (a + b)[|a| + j].id;
    }
  }

  /** Whatever the cut points and failures, replies on a ledger come in arrival order, and of two stored
      requests the earlier arrival gets the smaller position. */
  lemma {:induction false} ArrivalOrderDecides(w: Worker, work: seq<Work>)
    requires Sound(w) && InOrder(w.replies) && Ascending(Arrivals(work)) && Earlier(w.replies, Arrivals(work))
    ensures Sound(ServeAll(w, work)) && InOrder(ServeAll(w, work).replies)
    decreases |work|
  {
    if work != [] {
      var batch, future := work[0].batch, Arrivals(work[1..]);
      AscendingSplit(batch, future);
      BatchInOrder(w, batch, work[0].outcomes, 0, future);
      ArrivalOrderDecides(ServeBatch(w, batch, work[0].outcomes, 0), work[1..]);
    }
  }

  /** From an empty store, every run answers every request exactly once, in order, with the place of its message. */
  lemma {:induction false} QueueIsFaithful(max: nat, work: seq<Work>)
    requires 1 <= max < U64_LIMIT && Ascending(Arrivals(work))
    ensures var w := ServeAll(Worker(max, map[], 0, []), work);
            && multiset(Answered(w.replies)) == multiset(Arrivals(work))
            && InOrder(w.replies) && AllLocated(w.ledgers, w.replies)
  {
    EveryRequestAnswered(Worker(max, map[], 0, []), work);
    ArrivalOrderDecides(Worker(max, map[], 0, []), work);
  }

  // ---------------------------------------------------------------- the worker

  /** Serve the listed ledgers of a batch in turn. */
  function ServeOrder(w: Worker, batch: seq<Item>, order: seq<nat>, outcomes: seq<Outcome>, i: nat): Worker
    decreases |order|
  {
    if order == [] then w
    else ServeOrder(Serve(w, order[0], With(batch, order[0]), OutcomeAt(outcomes, i)), batch, order[1..], outcomes,
                    i + 1)
  }

  lemma {:induction false} WithAfterWithout(batch: seq<Item>, k: nat, j: nat)
    requires j != k
    ensures With(Without(batch, k), j) == With(batch, j)
  {
    if batch != [] {
      WithAfterWithout(batch[1..], k, j);
      if batch[0].ledger != k {
        assert Without(batch, k)[1..] == Without(batch[1..], k);
      } else {
        assert Without(batch, k) == Without(batch[1..], k);
      }
    }
  }

  lemma {:induction false} OrderMembers(batch: seq<Item>, k: nat)
    ensures k in Order(batch) <==> With(batch, k) != []
    decreases |batch|
  {
    if batch != [] {
      var first := batch[0].ledger;
      WithoutFirst(batch);
      if k != first {
        OrderMembers(Without(batch, first), k);
        WithAfterWithout(batch, first, k);
      }
    }
  }

  lemma {:induction false} ServeOrderWithout(w: Worker, batch: seq<Item>, k: nat, order: seq<nat>,
                                             outcomes: seq<Outcome>, i: nat)
    requires k !in order
    ensures ServeOrder(w, Without(batch, k), order, outcomes, i) == ServeOrder(w, batch, order, outcomes, i)
    decreases |order|
  {
    if order != [] {
      WithAfterWithout(batch, k, order[0]);
      ServeOrderWithout(Serve(w, order[0], With(batch, order[0]), OutcomeAt(outcomes, i)), batch, k, order[1..],
                        outcomes, i + 1);
    }
  }

  /** Serving by first appearance is serving group after group. */
  lemma {:induction false} ServeOrderIsBatch(w: Worker, batch: seq<Item>, outcomes: seq<Outcome>, i: nat)
    ensures ServeOrder(w, batch, Order(batch), outcomes, i) == ServeBatch(w, batch, outcomes, i)
    decreases |batch|
  {
    if batch != [] {
      var k := batch[0].ledger;
      var next := Serve(w, k, With(batch, k), OutcomeAt(outcomes, i));
      WithoutFirst(batch);
      ServeOrderIsBatch(next, Without(batch, k), outcomes, i + 1);
      OrderMembers(Without(batch, k), k);
      WithoutNone(batch, k);
      ServeOrderWithout(next, batch, k, Order(Without(batch, k)), outcomes, i + 1);
    }
  }

  lemma {:induction false} WithoutNone(batch: seq<Item>, k: nat)
    ensures With(Without(batch, k), k) == []
  {
    if batch != [] {
      WithoutNone(batch[1..], k);
      if batch[0].ledger != k {
        assert Without(batch, k)[1..] == Without(batch[1..], k);
      } else {
        assert Without(batch, k) == Without(batch[1..], k);
      }
    }
  }

  lemma {:induction false} WithSnoc(batch: seq<Item>, x: Item, k: nat)
    ensures With(batch + [x], k) == With(batch, k) + if x.ledger == k then [x] else []
    ensures Without(batch + [x], k) == Without(batch, k) + if x.ledger != k then [x] else []
  {
    if batch != [] {
      WithSnoc(batch[1..], x, k);
      assert (batch + [x])[1..] == batch[1..] + [x];
    }
  }

  lemma {:induction false} OrderSnoc(batch: seq<Item>, x: Item)
    ensures Order(batch + [x]) == if x.ledger in Order(batch) then Order(batch) else Order(batch) + [x.ledger]
    decreases |batch|
  {
    if batch != [] {
      var k := batch[0].ledger;
      WithoutFirst(batch);
      WithSnoc(batch, x, k);
      if x.ledger != k {
        OrderSnoc(Without(batch, k), x);
      } else {
        assert Without(batch, k) + [] == Without(batch, k);
      }
    }
  }

  /** Group a batch in one pass. */
  method GroupByLedger(batch: seq<Item>) returns (order: seq<nat>, groups: map<nat, seq<Item>>)
    ensures order == Order(batch)
    ensures forall k :: k in order ==> k in groups && groups[k] == With(batch, k)
  {
    order, groups := [], map[];
    var i := 0;
    while i < |batch|
      invariant i <= |batch| && order == Order(batch[..i])
      invariant forall k :: k in groups <==> k in order
      invariant forall k :: k in groups ==> groups[k] == With(batch[..i], k)
    {
      var x := batch[i];
      assert batch[..i + 1] == batch[..i] + [x];
      OrderSnoc(batch[..i], x);
      OrderMembers(batch[..i], x.ledger);
      forall k ensures With(batch[..i + 1], k) == With(batch[..i], k) + if x.ledger == k then [x] else [] {
        WithSnoc(batch[..i], x, k);
      }
      if x.ledger !in groups {
        order := order + [x.ledger];
        groups := groups[x.ledger := [x]];
      } else {
        groups := groups[x.ledger := groups[x.ledger] + [x]];
      }
      i := i + 1;
    }
    assert batch[..i] == batch;
  }

  class WriteQueueWorker {
    const max: nat
    var ledgers: map<nat, Ledger>
    var nextId: nat
    var replies: seq<Reply>

    function View(): Worker
      reads this
    {
      Worker(max, ledgers, nextId, replies)
    }

    constructor (maxEntries: nat)
      ensures View() == Worker(maxEntries, map[], 0, [])
    {
      max, ledgers, nextId, replies := maxEntries, map[], 0, [];
    }

    method ServeOne(k: nat, group: seq<Item>, outcome: Outcome)
      modifies this`ledgers, this`nextId, this`replies
      ensures View() == Serve(old(View()), k, group, outcome)
    {
      var l := LedgerOf(View(), k);
      if outcome.OpenError? || l.info == [] {
        replies := replies + Refusals(group);
        return;
      }
      if outcome.AppendError? {
        l := AppendFailed(l, Messages(group), outcome.ids);
        replies := replies + Refusals(group);
      } else {
        var ps := Assign(Start(l), l.max, Messages(group), |group|).positions;
        l := Append(l, Messages(group));
        replies := replies + Receipts(group, ps);
      }
      ledgers := ledgers[k := l];
      nextId := l.nextId;
    }

    method ServeQueueBatch(batch: seq<Item>, outcomes: seq<Outcome>)
      modifies this`ledgers, this`nextId, this`replies
      ensures View() == ServeBatch(old(View()), batch, outcomes, 0)
    {
      ghost var result := ServeBatch(View(), batch, outcomes, 0);
      ServeOrderIsBatch(View(), batch, outcomes, 0);
      var order, groups := GroupByLedger(batch);
      var i := 0;
      while i < |order|
        invariant i <= |order| && ServeOrder(View(), batch, order[i..], outcomes, i) == result
      {
        var k := order[i];
        assert order[i..][1..] == order[i + 1..];
        ServeOne(k, groups[k], OutcomeAt(outcomes, i));
        i := i + 1;
      }
    }
  }
}
