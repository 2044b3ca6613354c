/**
 The segmented log: a topic's ledgers, and the flat sequence of stored positions
 they stand for.
 */
module LedgerLog {
  import opened Base
  import opened Positions

  datatype LedgerInfo = LedgerInfo(id: nat, entries: nat, size: nat)

  type Info = seq<LedgerInfo>

  ghost predicate Ascending(info: Info) {
    forall i, j :: 0 <= i < j < |info| ==> info[i].id < info[j].id
  }

  /** Ids ascend and every entry id fits a `u64` with room for its successor. */
  ghost predicate WellFormed(info: Info) {
    Ascending(info) && forall l :: l in info ==> l.entries < U64_LIMIT
  }

  function Entries(l: LedgerInfo): seq<Pos> {
    seq(l.entries, e requires 0 <= e => Pos(l.id, e))
  }

  /** The flat log: every stored position, ledger by ledger. */
  function Log(info: Info): seq<Pos> {
    if info == [] then [] else Log(info[..|info| - 1]) + Entries(info[|info| - 1])
  }

  ghost predicate Stored(info: Info, p: Pos) {
    exists k :: 0 <= k < |info| && info[k].id == p.ledger && p.entry < info[k].entries
  }

  ghost predicate Known(info: Info, ledger: nat) {
    exists k :: 0 <= k < |info| && info[k].id == ledger
  }

  /** Index of the ledger with this id, or `|info|`. */
  function FindLedger(info: Info, id: nat, from: nat := 0): (i: nat)
    requires from <= |info|
    ensures from <= i <= |info|
    ensures forall k :: from <= k < i ==> info[k].id != id
    ensures i < |info| ==> info[i].id == id
    decreases |info| - from
  {
    if from < |info| && info[from].id != id then FindLedger(info, id, from + 1) else from
  }

  /** Index of the first non-empty ledger with an id above `floor`, or `|info|`. */
  function FirstNonEmpty(info: Info, floor: int, from: nat := 0): (i: nat)
    requires from <= |info|
    ensures from <= i <= |info|
    ensures forall k :: from <= k < i ==> !(info[k].id > floor && info[k].entries > 0)
    ensures i < |info| ==> info[i].id > floor && info[i].entries > 0
    decreases |info| - from
  {
    if from < |info| && !(info[from].id > floor && info[from].entries > 0)
    then FirstNonEmpty(info, floor, from + 1) else from
  }

  /** Among the first `n` ledgers, the non-empty one with the largest id below `ceiling`. */
  function LastNonEmpty(info: Info, ceiling: nat, n: nat): (best: Option<nat>)
    requires n <= |info|
    ensures best.Some? ==> best.value < n && info[best.value].id < ceiling && info[best.value].entries > 0
    ensures forall k :: 0 <= k < n && info[k].id < ceiling && info[k].entries > 0 ==>
              best.Some? && info[k].id <= info[best.value].id
  {
    if n == 0 then None
    else
      var best := LastNonEmpty(info, ceiling, n - 1);
      var l := info[n - 1];
      if l.id < ceiling && l.entries > 0 && (best.None? || info[best.value].id <= l.id) then Some(n - 1) else best
  }

  function FirstPosition(info: Info): Option<Pos> {
    var i := FirstNonEmpty(info, -1);
    if i < |info| then Some(Pos(info[i].id, 0)) else None
  }

  function NextPosition(info: Info, p: Pos): Option<Pos> {
    var i := FindLedger(info, p.ledger);
    if i == |info| then None
    else if p.entry + 1 < info[i].entries then Some(Pos(p.ledger, p.entry + 1))
    else
      var j := FirstNonEmpty(info, p.ledger);
      if j < |info| then Some(Pos(info[j].id, 0)) else None
  }

  function PreviousPosition(info: Info, p: Pos): Option<Pos> {
    if p.entry > 0 then Some(Pos(p.ledger, p.entry - 1))
    else
      match LastNonEmpty(info, p.ledger, |info|)
      case Some(k) => Some(Pos(info[k].id, info[k].entries - 1))
      case None => None
  }

  // ---------------------------------------------------------------- the flat log

  lemma IdsAt(info: Info, i: nat, k: nat)
    requires Ascending(info) && i < |info| && k < |info|
    ensures i < k <==> info[i].id < info[k].id
    ensures i == k <==> info[i].id == info[k].id
  {
  }

  lemma {:induction false} LogMembers(info: Info)
    ensures forall p :: p in Log(info) <==> Stored(info, p)
  {
    if info != [] {
      var init, last := info[..|info| - 1], info[|info| - 1];
      LogMembers(init);
      forall p ensures p in Entries(last) <==> p.ledger == last.id && p.entry < last.entries {
        if p.ledger == last.id && p.entry < last.entries {
          assert Entries(last)[p.entry] == p;
        }
      }
      forall p ensures Stored(info, p) <==> Stored(init, p) || (p.ledger == last.id && p.entry < last.entries) {
        if k :| 0 <= k < |info| && info[k].id == p.ledger && p.entry < info[k].entries {
          assert k < |init| ==> init[k] == info[k];
        }
        if k :| 0 <= k < |init| && init[k].id == p.ledger && p.entry < init[k].entries {
          assert info[k] == init[k];
        }
      }
    }
  }

  /** Positions strictly increase along the log. */
  lemma {:induction false} LogAscending(info: Info, i: nat, j: nat)
    requires Ascending(info) && i < j < |Log(info)|
    ensures Log(info)[i].Lt(Log(info)[j])
  {
    var init, last := info[..|info| - 1], info[|info| - 1];
    var n := |Log(init)|;
    if j < n {
      LogAscending(init, i, j);
    } else if i < n {
      LogMembers(init);
      assert Log(info)[i] == Log(init)[i] && Log(init)[i] in Log(init);
    }
  }

  /** With a known ledger, `next_position` is the least stored position above `p`. */
  lemma NextIsLeast(info: Info, p: Pos)
    requires Ascending(info) && Known(info, p.ledger)
    ensures match NextPosition(info, p)
            case Some(q) => Stored(info, q) && p.Lt(q) && forall x :: Stored(info, x) && p.Lt(x) ==> q.Le(x)
            case None => forall x :: Stored(info, x) ==> x.Le(p)
  {
    var i := FindLedger(info, p.ledger);
    var j := FirstNonEmpty(info, p.ledger);
    forall x | Stored(info, x) && p.Lt(x)
      ensures NextPosition(info, p).Some? && NextPosition(info, p).value.Le(x)
    {
      var k :| 0 <= k < |info| && info[k].id == x.ledger && x.entry < info[k].entries;
      IdsAt(info, i, k);
      if j < |info| { IdsAt(info, j, k); }
    }
  }

  lemma NextUnknown(info: Info, p: Pos)
    requires !Known(info, p.ledger)
    ensures NextPosition(info, p) == None
  {
  }

  lemma FirstIsLeast(info: Info)
    requires Ascending(info)
    ensures match FirstPosition(info)
            case Some(q) => Stored(info, q) && forall x :: Stored(info, x) ==> q.Le(x)
            case None => forall x :: !Stored(info, x)
  {
    var j := FirstNonEmpty(info, -1);
    forall x | Stored(info, x) ensures FirstPosition(info).Some? && FirstPosition(info).value.Le(x) {
      var k :| 0 <= k < |info| && info[k].id == x.ledger && x.entry < info[k].entries;
      if j < |info| { IdsAt(info, j, k); }
    }
  }

  /** For every `p`, stored or not, the stored positions up to `previous_position(p)` are
      exactly those before `p`. */
  lemma PreviousCuts(info: Info, p: Pos)
    requires Ascending(info)
    ensures match PreviousPosition(info, p)
            case Some(q) => q.Lt(p) && forall x :: Stored(info, x) ==> (x.Le(q) <==> x.Lt(p))
            case None => forall x :: Stored(info, x) ==> p.Le(x)
  {
    if p.entry == 0 {
      forall x | Stored(info, x) && x.Lt(p)
        ensures PreviousPosition(info, p).Some? && x.Le(PreviousPosition(info, p).value)
      {
        var k :| 0 <= k < |info| && info[k].id == x.ledger && x.entry < info[k].entries;
        var b := LastNonEmpty(info, p.ledger, |info|).value;
        IdsAt(info, b, k);
      }
    }
  }

  // ---------------------------------------------------------------- index form

  lemma LogIndexStored(info: Info, i: nat)
    requires i < |Log(info)|
    ensures Stored(info, Log(info)[i]) && Known(info, Log(info)[i].ledger)
  {
    LogMembers(info);
    assert Log(info)[i] in Log(info);
    var p := Log(info)[i];
    var k :| 0 <= k < |info| && info[k].id == p.ledger && p.entry < info[k].entries;
  }

  lemma LogOrder(info: Info, i: nat, j: nat)
    requires Ascending(info) && i < |Log(info)| && j < |Log(info)|
    ensures Log(info)[i].Lt(Log(info)[j]) <==> i < j
    ensures Log(info)[i] == Log(info)[j] <==> i == j
  {
    if i < j { LogAscending(info, i, j); }
    if j < i { LogAscending(info, j, i); }
  }

  lemma NextAt(info: Info, i: nat)
    requires Ascending(info) && i < |Log(info)|
    ensures NextPosition(info, Log(info)[i]) == if i + 1 < |Log(info)| then Some(Log(info)[i + 1]) else None
  {
    var p := Log(info)[i];
    LogIndexStored(info, i);
    NextIsLeast(info, p);
    LogMembers(info);
    if i + 1 < |Log(info)| {
      LogIndexStored(info, i + 1);
      LogOrder(info, i, i + 1);
    }
    if q :| NextPosition(info, p) == Some(q) {
      var k :| 0 <= k < |Log(info)| && Log(info)[k] == q;
      LogOrder(info, i, k);
      LogOrder(info, i + 1, k);
    }
  }

  lemma FirstAt(info: Info)
    requires Ascending(info)
    ensures FirstPosition(info) == if |Log(info)| > 0 then Some(Log(info)[0]) else None
  {
    FirstIsLeast(info);
    LogMembers(info);
    if |Log(info)| > 0 {
      LogIndexStored(info, 0);
      var q := FirstPosition(info).value;
      var k :| 0 <= k < |Log(info)| && Log(info)[k] == q;
      LogOrder(info, 0, k);
    }
  }

  lemma PreviousStored(info: Info, p: Pos)
    requires Stored(info, p)
    ensures PreviousPosition(info, p).Some? ==> Stored(info, PreviousPosition(info, p).value)
  {
    var k :| 0 <= k < |info| && info[k].id == p.ledger && p.entry < info[k].entries;
  }

  lemma PreviousAt(info: Info, i: nat)
    requires Ascending(info) && i < |Log(info)|
    ensures PreviousPosition(info, Log(info)[i]) == if i > 0 then Some(Log(info)[i - 1]) else None
  {
    var p := Log(info)[i];
    LogIndexStored(info, i);
    PreviousCuts(info, p);
    PreviousStored(info, p);
    LogMembers(info);
    if i > 0 {
      LogIndexStored(info, i - 1);
      LogOrder(info, i - 1, i);
    }
    if q :| PreviousPosition(info, p) == Some(q) {
      var k :| 0 <= k < |Log(info)| && Log(info)[k] == q;
      LogOrder(info, k, i);
      if i > 0 { LogOrder(info, i - 1, k); }
    }
  }

  /** On stored positions `next_position` and `previous_position` undo each other, across
      ledger boundaries and empty ledgers. */
  lemma NextPreviousInverse(info: Info, p: Pos, q: Pos)
    requires Ascending(info) && Stored(info, p) && Stored(info, q)
    ensures NextPosition(info, p) == Some(q) <==> PreviousPosition(info, q) == Some(p)
  {
    LogMembers(info);
    var i :| 0 <= i < |Log(info)| && Log(info)[i] == p;
    var j :| 0 <= j < |Log(info)| && Log(info)[j] == q;
    NextAt(info, i);
    PreviousAt(info, j);
    if i + 1 < |Log(info)| { LogOrder(info, i + 1, j); }
    if j > 0 { LogOrder(info, i, j - 1); }
  }

  /** The log only grew: what was stored stays where it was. */
  ghost predicate Extends(info: Info, info': Info) {
    WellFormed(info') && Log(info) <= Log(info')
  }

  lemma StoredBound(info: Info, p: Pos)
    requires WellFormed(info) && Stored(info, p)
    ensures p.entry + 1 < U64_LIMIT
  {
    var k :| 0 <= k < |info| && info[k].id == p.ledger && p.entry < info[k].entries;
    assert info[k] in info;
  }

  lemma StoredGrows(info: Info, info': Info, p: Pos)
    requires Log(info) <= Log(info') && Stored(info, p)
    ensures Stored(info', p)
  {
    LogMembers(info);
    LogMembers(info');
  }

  lemma IndexOf(info: Info, p: Pos) returns (i: nat)
    requires Stored(info, p)
    ensures i < |Log(info)| && Log(info)[i] == p
  {
    LogMembers(info);
    i :| 0 <= i < |Log(info)| && Log(info)[i] == p;
  }

  // ---------------------------------------------------------------- growth at the end

  /** Where the next message goes, unless the last ledger is full and rolls over first. */
  function AppendPoint(info: Info): Pos {
    if info == [] then Pos(0, 0) else Pos(info[|info| - 1].id, info[|info| - 1].entries)
  }

  /** What appending does: the last ledger fills up and ledgers of larger ids follow it. */
  ghost predicate Appends(info: Info, info': Info) {
    && WellFormed(info') && |info| <= |info'|
    && (forall i :: 0 <= i < |info| ==> info'[i].id == info[i].id && info[i].entries <= info'[i].entries)
    && forall i :: 0 <= i < |info| - 1 ==> info'[i].entries == info[i].entries
  }

  lemma AppendsAgain(a: Info, b: Info, c: Info)
    requires Appends(a, b) && Appends(b, c)
    ensures Appends(a, c)
  {
    forall i | 0 <= i < |a| ensures c[i].id == a[i].id && a[i].entries <= c[i].entries {
      assert b[i].id == a[i].id;
    }
    forall i | 0 <= i < |a| - 1 ensures c[i].entries == a[i].entries {
      assert b[i].entries == a[i].entries;
    }
  }

  lemma {:induction false} LogPrefix(info: Info, n: nat)
    requires n <= |info|
    ensures Log(info[..n]) <= Log(info)
    decreases |info|
  {
    if n == |info| {
      assert info[..n] == info;
    } else {
      LogPrefix(info[..|info| - 1], n);
      assert info[..|info| - 1][..n] == info[..n];
    }
  }

  lemma {:induction false} SameLog(a: Info, b: Info)
    requires |a| == |b| && forall i :: 0 <= i < |a| ==> a[i].id == b[i].id && a[i].entries == b[i].entries
    ensures Log(a) == Log(b)
  {
    if a != [] {
      var n := |a| - 1;
      SameLog(a[..n], b[..n]);
      assert Entries(a[n]) == Entries(b[n]);
    }
  }

  lemma AppendsExtends(info: Info, info': Info)
    requires Appends(info, info')
    ensures Extends(info, info')
  {
    LogPrefix(info', |info|);
    if info != [] {
      var n := |info| - 1;
      var head := info'[..|info|];
      SameLog(info[..n], head[..n]);
      assert Entries(info[n]) <= Entries(head[n]);
      assert Log(info) <= Log(head);
    }
  }

  /** What an append stores lies at or after the append point. */
  lemma NewAtAppendPoint(info: Info, info': Info, q: Pos)
    requires Appends(info, info') && Stored(info', q) && !Stored(info, q)
    ensures AppendPoint(info).Le(q)
  {
    var k :| 0 <= k < |info'| && info'[k].id == q.ledger && q.entry < info'[k].entries;
    if info != [] {
      assert k < |info| ==> !(info[k].id == q.ledger && q.entry < info[k].entries);
      IdsAt(info', |info| - 1, k);
    }
  }

  lemma StoredBelowAppendPoint(info: Info, p: Pos)
    requires Ascending(info) && Stored(info, p)
    ensures p.Lt(AppendPoint(info))
  {
    var k :| 0 <= k < |info| && info[k].id == p.ledger && p.entry < info[k].entries;
    IdsAt(info, k, |info| - 1);
  }

  lemma KnownStays(info: Info, info': Info, ledger: nat)
    requires Appends(info, info') && Known(info, ledger)
    ensures Known(info', ledger)
  {
    var k :| 0 <= k < |info| && info[k].id == ledger;
    assert info'[k].id == ledger;
  }

  /** A ledger that becomes known has a larger id than all that were. */
  lemma NewLedgerIsAbove(info: Info, info': Info, ledger: nat, p: Pos)
    requires Appends(info, info') && Known(info', ledger) && !Known(info, ledger) && Stored(info, p)
    ensures p.ledger < ledger
  {
    var k :| 0 <= k < |info'| && info'[k].id == ledger;
    var i :| 0 <= i < |info| && info[i].id == p.ledger && p.entry < info[i].entries;
    assert forall j :: 0 <= j < |info| ==> info'[j].id == info[j].id != ledger;
    IdsAt(info', i, k);
  }
}
