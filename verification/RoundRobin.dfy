/**
 Priority round-robin selection over the dispatcher's ordered consumers.
 */
module RoundRobin {
  import opened Base

  /** A connected consumer as selection sees it; priority 0 is the highest expected level. */
  datatype Slot = Slot(id: nat, priority: int, permits: int)

  predicate Sorted(c: seq<Slot>) {
    forall i, j :: 0 <= i < j < |c| ==> c[i].priority <= c[j].priority
  }

  /** First index in `lo..hi` with permits. */
  function FirstAvailable(c: seq<Slot>, lo: nat, hi: nat): (r: Option<nat>)
    requires lo <= hi <= |c|
    ensures match r
            case Some(i) => lo <= i < hi && c[i].permits > 0 && forall k :: lo <= k < i ==> c[k].permits <= 0
            case None => forall k :: lo <= k < hi ==> c[k].permits <= 0
    decreases hi - lo
  {
    if lo == hi then None
    else if c[lo].permits > 0 then Some(lo)
    else FirstAvailable(c, lo + 1, hi)
  }

  /** First index of the consumers sharing the priority of `cur`. */
  function RunStart(c: seq<Slot>, cur: nat): (f: nat)
    requires cur < |c|
    ensures f <= cur && forall k :: f <= k <= cur ==> c[k].priority == c[cur].priority
    ensures f > 0 ==> c[f - 1].priority != c[cur].priority
  {
    if cur > 0 && c[cur - 1].priority == c[cur].priority then RunStart(c, cur - 1) else cur
  }

  /** One past the last of them. */
  function RunEnd(c: seq<Slot>, cur: nat): (e: nat)
    requires cur < |c|
    ensures cur < e <= |c| && forall k :: cur <= k < e ==> c[k].priority == c[cur].priority
    ensures e < |c| ==> c[e].priority != c[cur].priority
    decreases |c| - cur
  {
    if cur + 1 < |c| && c[cur + 1].priority == c[cur].priority then RunEnd(c, cur + 1) else cur + 1
  }

  function OrElse(a: Option<nat>, b: Option<nat>): Option<nat> {
    if a.Some? then a else b
  }

  /** Around the run of `cur`, then the lower priorities. */
  function SameOrLower(c: seq<Slot>, cur: nat): Option<nat>
    requires cur < |c|
  {
    var f, e := RunStart(c, cur), RunEnd(c, cur);
    OrElse(FirstAvailable(c, cur, e), OrElse(FirstAvailable(c, f, cur), FirstAvailable(c, e, |c|)))
  }

  function Higher(c: seq<Slot>, cur: nat): Option<nat>
    requires cur < |c|
  {
    FirstAvailable(c, 0, RunStart(c, cur))
  }

  /** The index chosen when the round-robin index stands at `rr`. */
  function Pick(c: seq<Slot>, rr: nat): (r: Option<nat>)
    ensures r.Some? ==> r.value < |c| && c[r.value].permits > 0
  {
    if c == [] then None else PickFrom(c, rr % |c|)
  }

  function PickFrom(c: seq<Slot>, cur: nat): (r: Option<nat>)
    requires cur < |c|
    ensures r.Some? ==> r.value < |c| && c[r.value].permits > 0
  {
    if c[cur].priority != 0 && Higher(c, cur).Some? then Higher(c, cur) else SameOrLower(c, cur)
  }

  /** The index stored after choosing `i`. */
  function After(c: seq<Slot>, i: nat): (n: nat)
    requires i < |c|
    ensures n == if i + 1 == |c| then 0 else i + 1
  {
    (i + 1) % |c|
  }

  // ---------------------------------------------------------------- the scans

  lemma RunIsPriority(c: seq<Slot>, cur: nat, k: nat)
    requires Sorted(c) && cur < |c| && k < |c|
    ensures c[k].priority == c[cur].priority <==> RunStart(c, cur) <= k < RunEnd(c, cur)
    ensures k < RunStart(c, cur) ==> c[k].priority < c[cur].priority
    ensures k >= RunEnd(c, cur) ==> c[k].priority > c[cur].priority
  {
    var f, e := RunStart(c, cur), RunEnd(c, cur);
    if k < f {
      assert c[k].priority <= c[f - 1].priority <= c[f].priority;
    } else if k >= e {
      assert c[e - 1].priority <= c[e].priority <= c[k].priority;
    }
  }

  method FirstOfPriority(c: seq<Slot>, cur: nat) returns (f: nat)
    requires Sorted(c) && cur < |c|
    ensures f == RunStart(c, cur)
  {
    f := 0;
    RunIsPriority(c, cur, cur);
    while c[f].priority != c[cur].priority
      invariant f <= RunStart(c, cur)
      decreases |c| - f
    {
      f := f + 1;
    }
    RunIsPriority(c, cur, f);
  }

  method FindHigher(c: seq<Slot>, cur: nat) returns (r: Option<nat>)
    requires Sorted(c) && cur < |c|
    ensures r == Higher(c, cur)
  {
    var i := 0;
    while i < cur
      invariant i <= cur && i <= RunStart(c, cur)
      invariant FirstAvailable(c, 0, RunStart(c, cur)) == FirstAvailable(c, i, RunStart(c, cur))
    {
      RunIsPriority(c, cur, i);
      if c[i].priority >= c[cur].priority {
        return None;
      }
      if c[i].permits > 0 {
        return Some(i);
      }
      i := i + 1;
    }
    return None;
  }

  /** The circular scan of the run, then the linear scan of the rest. */
  method FindSameOrLower(c: seq<Slot>, cur: nat) returns (r: Option<nat>)
    requires Sorted(c) && cur < |c|
    ensures r == SameOrLower(c, cur)
  {
    if c[cur].permits > 0 {
      return Some(cur);
    }
    ghost var f, e := RunStart(c, cur), RunEnd(c, cur);
    var scan, end := cur + 1, cur;
    ghost var wrapped := false;
    while scan != cur
      invariant if wrapped then f <= scan <= cur && end == e else cur < scan <= e
      invariant !wrapped ==> FirstAvailable(c, cur, e) == FirstAvailable(c, scan, e)
      invariant wrapped ==> FirstAvailable(c, cur, e) == None
      invariant wrapped ==> FirstAvailable(c, f, cur) == FirstAvailable(c, scan, cur)
      decreases !wrapped, if wrapped then cur - scan else e - scan
    {
      if scan < |c| && c[scan].priority == c[cur].priority {
        RunIsPriority(c, cur, scan);
        if c[scan].permits > 0 {
          return Some(scan);
        }
        scan := scan + 1;
      } else {
        end := scan;
        scan := FirstOfPriority(c, cur);
        wrapped := true;
      }
    }
    r := FindFrom(c, end);
  }

  method FindFrom(c: seq<Slot>, lo: nat) returns (r: Option<nat>)
    requires lo <= |c|
    ensures r == FirstAvailable(c, lo, |c|)
  {
    var i := lo;
    while i < |c|
      invariant lo <= i <= |c|
      invariant FirstAvailable(c, lo, |c|) == FirstAvailable(c, i, |c|)
    {
      if c[i].permits > 0 {
        return Some(i);
      }
      i := i + 1;
    }
    return None;
  }

  method Choose(c: seq<Slot>, cur: nat) returns (r: Option<nat>)
    requires Sorted(c) && cur < |c|
    ensures r == PickFrom(c, cur)
  {
    if c[cur].priority != 0 {
      r := FindHigher(c, cur);
      if r.Some? { return; }
    }
    r := FindSameOrLower(c, cur);
  }

  // ---------------------------------------------------------------- what is picked

  ghost predicate Best(c: seq<Slot>, i: nat) {
    && i < |c| && c[i].permits > 0
    && forall j :: 0 <= j < |c| && c[j].permits > 0 ==> c[i].priority <= c[j].priority
  }

  /** A level-0 consumer is never compared with the levels above it, so a negative level is missed. */
  ghost predicate Hidden(c: seq<Slot>, cur: nat)
    requires cur < |c|
  {
    c[cur].priority == 0 && exists j :: 0 <= j < |c| && c[j].permits > 0 && c[j].priority < 0
  }

  lemma SameOrLowerExact(c: seq<Slot>, cur: nat)
    requires Sorted(c) && cur < |c|
    ensures match SameOrLower(c, cur)
            case Some(i) =>
              && i < |c| && c[i].permits > 0 && c[i].priority >= c[cur].priority
              && forall j :: 0 <= j < |c| && c[j].permits > 0 && c[j].priority >= c[cur].priority ==>
                   c[i].priority <= c[j].priority
            case None => forall j :: 0 <= j < |c| && c[j].priority >= c[cur].priority ==> c[j].permits <= 0
  {
    forall j | 0 <= j < |c|
      ensures c[j].priority >= c[cur].priority <==> j >= RunStart(c, cur)
    {
      RunIsPriority(c, cur, j);
    }
  }

  lemma HigherExact(c: seq<Slot>, cur: nat)
    requires Sorted(c) && cur < |c|
    ensures match Higher(c, cur)
            case Some(i) => Best(c, i) && c[i].priority < c[cur].priority
            case None => forall j :: 0 <= j < |c| && c[j].priority < c[cur].priority ==> c[j].permits <= 0
  {
    forall j | 0 <= j < |c|
      ensures c[j].priority < c[cur].priority <==> j < RunStart(c, cur)
    {
      RunIsPriority(c, cur, j);
    }
  }

  /** Selection finds a best-priority consumer with permits, unless negative levels are hidden. */
  lemma PickExact(c: seq<Slot>, cur: nat)
    requires Sorted(c) && cur < |c|
    ensures !Hidden(c, cur) ==> (PickFrom(c, cur).Some? <==> exists j :: 0 <= j < |c| && c[j].permits > 0)
    ensures !Hidden(c, cur) && PickFrom(c, cur).Some? ==> Best(c, PickFrom(c, cur).value)
    ensures Hidden(c, cur) && PickFrom(c, cur).Some? ==> !Best(c, PickFrom(c, cur).value)
  {
    SameOrLowerExact(c, cur);
    HigherExact(c, cur);
  }

  /** With no negative level, wherever the round-robin index stands, selection finds a consumer exactly when one has
      permits, and then a best one. */
  lemma NonNegativeNeverHidden(c: seq<Slot>, rr: nat)
    requires Sorted(c) && forall j :: 0 <= j < |c| ==> c[j].priority >= 0
    ensures Pick(c, rr).Some? <==> exists j :: 0 <= j < |c| && c[j].permits > 0
    ensures Pick(c, rr).Some? ==> Best(c, Pick(c, rr).value)
  {
    if c != [] { PickExact(c, rr % |c|); }
  }

  /** A connected consumer with permits that selection does not find. */
  lemma HiddenConsumer()
    ensures var c := [Slot(1, -1, 5), Slot(2, 0, 0)]; Sorted(c) && Hidden(c, 1) && Pick(c, 1) == None
  {
    var c := [Slot(1, -1, 5), Slot(2, 0, 0)];
    assert RunStart(c, 1) == 1 && RunEnd(c, 1) == 2;
    assert c[0].permits > 0;
  }

  // ---------------------------------------------------------------- fairness

  /** Going round from `i`, `j` is the next best consumer. */
  ghost predicate NextBest(c: seq<Slot>, i: nat, j: nat) {
    && Best(c, j)
    && if i < j then forall k :: i < k < j ==> !Best(c, k)
       else forall k: nat :: k < j || i < k ==> !Best(c, k)
  }

  lemma BestRun(c: seq<Slot>, i: nat, k: nat)
    requires Sorted(c) && Best(c, i)
    ensures Best(c, k) <==> RunStart(c, i) <= k < RunEnd(c, i) && c[k].permits > 0
  {
    if k < |c| { RunIsPriority(c, i, k); }
  }

  lemma RunSame(c: seq<Slot>, i: nat, cur: nat)
    requires Sorted(c) && i < |c| && RunStart(c, i) <= cur < RunEnd(c, i)
    ensures RunStart(c, cur) == RunStart(c, i) && RunEnd(c, cur) == RunEnd(c, i)
  {
    RunIsPriority(c, i, cur);
  }

  lemma PickInRun(c: seq<Slot>, i: nat, cur: nat)
    requires Sorted(c) && Best(c, i) && RunStart(c, i) <= cur < RunEnd(c, i)
    ensures PickFrom(c, cur) == OrElse(FirstAvailable(c, cur, RunEnd(c, i)), FirstAvailable(c, RunStart(c, i), cur))
  {
    RunSame(c, i, cur);
    RunIsPriority(c, i, cur);
    HigherExact(c, cur);
  }

  lemma PickOutside(c: seq<Slot>, i: nat, cur: nat)
    requires Sorted(c) && Best(c, i) && cur < |c| && c[cur].priority != c[i].priority && !Hidden(c, cur)
    ensures PickFrom(c, cur) == FirstAvailable(c, 0, |c|)
  {
    if c[cur].priority < c[i].priority {
      BelowBest(c, i, cur);
    } else {
      AboveBest(c, i, cur);
    }
  }

  lemma AboveBest(c: seq<Slot>, i: nat, cur: nat)
    requires Sorted(c) && Best(c, i) && cur < |c| && c[cur].priority > c[i].priority
    ensures Higher(c, cur).Some? && Higher(c, cur) == FirstAvailable(c, 0, |c|)
  {
    RunIsPriority(c, cur, i);
    FirstUnique(c, Higher(c, cur).value);
  }

  lemma FirstUnique(c: seq<Slot>, j: nat)
    requires j < |c| && c[j].permits > 0 && forall k :: 0 <= k < j ==> c[k].permits <= 0
    ensures FirstAvailable(c, 0, |c|) == Some(j)
  {
  }

  lemma BelowBest(c: seq<Slot>, i: nat, cur: nat)
    requires Sorted(c) && Best(c, i) && cur < |c| && c[cur].priority < c[i].priority
    ensures Higher(c, cur) == None && SameOrLower(c, cur) == FirstAvailable(c, 0, |c|)
  {
    HigherExact(c, cur);
    var e := RunEnd(c, cur);
    forall k | 0 <= k < e ensures c[k].permits <= 0 {
      RunIsPriority(c, cur, k);
    }
    SkipUnavailable(c, 0, e);
  }

  lemma SkipUnavailable(c: seq<Slot>, lo: nat, mid: nat)
    requires lo <= mid <= |c| && forall k :: lo <= k < mid ==> c[k].permits <= 0
    ensures FirstAvailable(c, lo, |c|) == FirstAvailable(c, mid, |c|)
  {
  }

  lemma NextInRun(c: seq<Slot>, i: nat)
    requires Sorted(c) && Best(c, i) && c[After(c, i)].priority == c[i].priority
    ensures PickFrom(c, After(c, i)).Some? && NextBest(c, i, PickFrom(c, After(c, i)).value)
  {
    var cur := After(c, i);
    RunIsPriority(c, i, cur);
    PickInRun(c, i, cur);
    BestIsRun(c, i);
  }

  lemma BestIsRun(c: seq<Slot>, i: nat)
    requires Sorted(c) && Best(c, i)
    ensures forall k: nat :: Best(c, k) <==> RunStart(c, i) <= k < RunEnd(c, i) && c[k].permits > 0
  {
    forall k: nat ensures Best(c, k) <==> RunStart(c, i) <= k < RunEnd(c, i) && c[k].permits > 0 {
      BestRun(c, i, k);
    }
  }

  lemma NextOutside(c: seq<Slot>, i: nat)
    requires Sorted(c) && Best(c, i) && c[After(c, i)].priority != c[i].priority && !Hidden(c, After(c, i))
    ensures PickFrom(c, After(c, i)).Some? && NextBest(c, i, PickFrom(c, After(c, i)).value)
  {
    PickOutside(c, i, After(c, i));
    PickExact(c, After(c, i));
    BestIsRun(c, i);
    if i + 1 < |c| { RunIsPriority(c, i, i + 1); }
  }

  /** After `i`, selection moves on to the next best consumer. */
  lemma PickAdvances(c: seq<Slot>, i: nat)
    requires Sorted(c) && Best(c, i) && !Hidden(c, After(c, i))
    ensures PickFrom(c, After(c, i)).Some? && NextBest(c, i, PickFrom(c, After(c, i)).value)
  {
    if c[After(c, i)].priority == c[i].priority {
      NextInRun(c, i);
    } else {
      NextOutside(c, i);
    }
  }

  /** `b` is the ascending list of the best consumers. */
  ghost predicate ListsBest(c: seq<Slot>, b: seq<nat>) {
    && (forall x :: 0 <= x < |b| ==> Best(c, b[x]))
    && (forall x, y :: 0 <= x < y < |b| ==> b[x] < b[y])
    && forall i: nat :: Best(c, i) ==> i in b
  }

  function Rotate(m: nat, t: nat, k: nat): nat
    requires m < k && t < k
  {
    if m + t < k then m + t else m + t - k
  }

  lemma NextInList(c: seq<Slot>, b: seq<nat>, m: nat, j: nat)
    requires ListsBest(c, b) && m < |b| && NextBest(c, b[m], j)
    ensures j == if m + 1 < |b| then b[m + 1] else b[0]
  {
    var x: nat :| x < |b| && b[x] == j;
    if m + 1 < |b| {
      assert Best(c, b[m + 1]);
    } else {
      assert Best(c, b[0]);
    }
  }

  lemma PickRotates(c: seq<Slot>, b: seq<nat>, m: nat)
    requires Sorted(c) && ListsBest(c, b) && m < |b| && Best(c, b[m]) && !Hidden(c, After(c, b[m]))
    ensures PickFrom(c, After(c, b[m])) == Some(if m + 1 < |b| then b[m + 1] else b[0])
  {
    PickAdvances(c, b[m]);
    NextInList(c, b, m, PickFrom(c, After(c, b[m])).value);
  }

  /** The same consumers are best, in the same places. */
  ghost predicate SameBest(c: seq<Slot>, d: seq<Slot>) {
    |c| == |d| && forall i: nat :: Best(c, i) <==> Best(d, i)
  }

  lemma SameList(c: seq<Slot>, d: seq<Slot>, b: seq<nat>)
    requires SameBest(c, d) && ListsBest(c, b)
    ensures ListsBest(d, b)
  {
  }

  /** Choosing from `c` after `i` gives `j`. */
  ghost predicate Picks(c: seq<Slot>, i: nat, j: nat) {
    i < |c| && !Hidden(c, After(c, i)) && PickFrom(c, After(c, i)) == Some(j)
  }

  ghost predicate PickAt(cs: seq<seq<Slot>>, ps: seq<nat>, t: nat)
    requires 0 < t < |cs| == |ps|
  {
    Sorted(cs[t]) && SameBest(cs[0], cs[t]) && Picks(cs[t], ps[t - 1], ps[t])
  }

  /** Consecutive picks, each over the consumers as they are at that moment. */
  ghost predicate IsPickRun(cs: seq<seq<Slot>>, start: nat, ps: seq<nat>) {
    && |cs| == |ps| > 0 && Sorted(cs[0]) && start < |cs[0]|
    && !Hidden(cs[0], start) && PickFrom(cs[0], start) == Some(ps[0])
    && forall t: nat :: 0 < t < |cs| ==> PickAt(cs, ps, t)
  }

  lemma {:induction false} PicksRotate(cs: seq<seq<Slot>>, start: nat, ps: seq<nat>, b: seq<nat>, m: nat, t: nat)
    requires IsPickRun(cs, start, ps) && ListsBest(cs[0], b) && t < |ps| && t < |b|
    requires m < |b| && b[m] == ps[0]
    ensures ps[t] == b[Rotate(m, t, |b|)]
  {
    if t > 0 {
      PicksRotate(cs, start, ps, b, m, t - 1);
      assert PickAt(cs, ps, t);
      RotateStep(cs[0], cs[t], b, m, t, ps[t]);
    }
  }

  lemma {:induction false} RotateStep(c: seq<Slot>, d: seq<Slot>, b: seq<nat>, m: nat, t: nat, j: nat)
    requires ListsBest(c, b) && Sorted(d) && SameBest(c, d) && m < |b| && 0 < t < |b|
    requires Picks(d, b[Rotate(m, t - 1, |b|)], j)
    ensures j == b[Rotate(m, t, |b|)]
  {
    SameList(c, d, b);
    PickRotates(d, b, Rotate(m, t - 1, |b|));
  }

  /** As many consecutive picks as there are best consumers choose each of them exactly once. */
  lemma {:induction false} PicksAreFair(cs: seq<seq<Slot>>, start: nat, ps: seq<nat>, b: seq<nat>)
    requires IsPickRun(cs, start, ps) && ListsBest(cs[0], b) && |ps| >= |b|
    ensures forall t, u :: 0 <= t < u < |b| ==> ps[t] != ps[u]
    ensures forall i: nat :: Best(cs[0], i) <==> i in ps[..|b|]
  {
    PickExact(cs[0], start);
    var m: nat :| m < |b| && b[m] == ps[0];
    forall t: nat | t < |b| ensures ps[t] == b[Rotate(m, t, |b|)] {
      PicksRotate(cs, start, ps, b, m, t);
    }
    Rotation(b, ps[..|b|], m);
  }

  lemma Rotation(b: seq<nat>, p: seq<nat>, m: nat)
    requires m < |b| == |p| && forall t: nat :: t < |b| ==> p[t] == b[Rotate(m, t, |b|)]
    requires forall x, y :: 0 <= x < y < |b| ==> b[x] < b[y]
    ensures forall t, u :: 0 <= t < u < |b| ==> p[t] != p[u]
    ensures forall i: nat :: i in b <==> i in p
  {
    forall i: nat | i in b ensures i in p {
      var x: nat :| x < |b| && b[x] == i;
      var t := if x >= m then x - m else x + |b| - m;
      assert Rotate(m, t, |b|) == x && p[t] == i;
    }
  }

  // ---------------------------------------------------------------- keeping the order

  /** Before the first consumer of a lower priority. */
  function InsertAt(c: seq<Slot>, priority: int): (i: nat)
    ensures i <= |c| && (forall k :: 0 <= k < i ==> c[k].priority <= priority)
    ensures i < |c| ==> c[i].priority > priority
  {
    if c == [] || c[0].priority > priority then 0 else 1 + InsertAt(c[1..], priority)
  }

  function Inserted<T>(c: seq<T>, i: nat, x: T): (d: seq<T>)
    requires i <= |c|
    ensures |d| == |c| + 1
    ensures forall k :: 0 <= k < |d| ==> d[k] == if k < i then c[k] else if k == i then x else c[k - 1]
  {
    c[..i] + [x] + c[i..]
  }

  function Removed<T>(c: seq<T>, i: nat): (d: seq<T>)
    requires i < |c|
    ensures |d| == |c| - 1
    ensures forall k :: 0 <= k < |d| ==> d[k] == if k < i then c[k] else c[k + 1]
  {
    c[..i] + c[i + 1..]
  }

  lemma SortedInserted(c: seq<Slot>, i: nat, s: Slot)
    requires Sorted(c) && i <= |c|
    requires (forall k :: 0 <= k < i ==> c[k].priority <= s.priority) && (i < |c| ==> c[i].priority > s.priority)
    ensures Sorted(Inserted(c, i, s)) && forall k :: i <= k < |c| ==> c[k].priority > s.priority
  {
    assert forall k :: i <= k < |c| ==> c[i].priority <= c[k].priority;
  }

  /** Joining keeps the order, behind everyone of the same priority and before every lower one. */
  lemma InsertedExact(c: seq<Slot>, s: Slot)
    requires Sorted(c)
    ensures var i := InsertAt(c, s.priority);
            && Sorted(Inserted(c, i, s))
            && (forall k :: 0 <= k < i ==> c[k].priority <= s.priority)
            && (forall k :: i <= k < |c| ==> c[k].priority > s.priority)
  {
    SortedInserted(c, InsertAt(c, s.priority), s);
  }

  /** The round-robin index after removing index `i` of `n`. */
  function Shifted(n: nat, i: nat, rr: nat): nat
    requires i < n
  {
    if n == 1 then 0
    else if rr > i then rr - 1
    else if rr >= n - 1 then rr % (n - 1)
    else rr
  }

  lemma ShiftedExact(n: nat, i: nat, rr: nat)
    requires i < n && rr < n && n > 1
    ensures Shifted(n, i, rr) == if rr > i then rr - 1 else if rr == n - 1 then 0 else rr
  {
  }

  /** Leaving keeps the order and whose turn it is; the turn of a leaver passes to the next in line. */
  lemma RemovedExact(c: seq<Slot>, i: nat, rr: nat)
    requires Sorted(c) && i < |c| && rr < |c|
    ensures Sorted(Removed(c, i))
    ensures |c| > 1 ==> Shifted(|c|, i, rr) < |c| - 1
    ensures |c| > 1 ==> Removed(c, i)[Shifted(|c|, i, rr)] == if rr == i then c[After(c, i)] else c[rr]
  {
    if |c| > 1 { ShiftedExact(|c|, i, rr); }
  }
}
