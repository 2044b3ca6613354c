/**
 What the Shared dispatcher reads from the tail of the log over a whole run.
 */
module SharedReads {
  import opened Base
  import opened RoundRobin
  import opened SharedDispatch
  import opened SharedRuns
  import opened SharedHistory

  /** Strictly ascending, from `lo` up to but not including `hi`. */
  predicate Ascends(s: seq<nat>, lo: nat, hi: nat) {
    && lo <= hi && (forall i :: 0 <= i < |s| ==> lo <= s[i] < hi)
    && forall i, j :: 0 <= i < j < |s| ==> s[i] < s[j]
  }

  lemma AscendsOn(s: seq<nat>, t: seq<nat>, lo: nat, mid: nat, hi: nat)
    requires Ascends(s, lo, mid) && Ascends(t, mid, hi)
    ensures Ascends(s + t, lo, hi)
  {
  }

  /** The message an iteration reads from the log and tries to send. */
  function FreshBy(st: Store, h: Hub): seq<nat> {
    match Pick(Slots(h), h.rr)
    case None => []
    case Some(i) =>
      if |h.consumers[h.order[i]].pending| < MAX_UNACKED_PER_CONSUMER && h.queue == map[] && Candidate(st, h).Some?
      then [Candidate(st, h).value] else []
  }

  function BatchFresh(st: Store, h: Hub, i: nat, n: nat, sends: seq<bool>): seq<nat>
    decreases n - i
  {
    if i >= n then []
    else
      var t := Iterate(st, h, Taken(sends, i));
      FreshBy(st, h) + if t.go then BatchFresh(st, t.hub, i + 1, n, sends) else []
  }

  function FreshIn(s: System, e: Event): seq<nat> {
    if e.Pass? then BatchFresh(s.st, s.hub, 0, BatchSize(s.hub.total), e.sends) else []
  }

  /** Everything a run reads from the log and tries to send, in order. */
  function RunFresh(s: System, events: seq<Event>): seq<nat> {
    if events == [] then []
    else var n := |events| - 1; RunFresh(s, events[..n]) + FreshIn(Run(s, events[..n]), events[n])
  }

  /** With nothing queued, whatever an iteration hands out it has just read; a failed send leaves it queued. */
  lemma FreshByExact(st: Store, h: Hub, ok: bool)
    ensures h.queue == map[] ==> FreshBy(st, h) == [] || (ok <==> Iterate(st, h, ok).sent)
    ensures h.queue == map[] && Iterate(st, h, ok).sent ==> FreshBy(st, h) == SentBy(st, h, ok)
    ensures FreshBy(st, h) != [] && !ok ==> FreshBy(st, h)[0] in Iterate(st, h, ok).hub.queue
  {
  }

  lemma IterateFresh(st: Store, h: Hub, ok: bool)
    requires Stored(st, h)
    ensures Ascends(FreshBy(st, h), ReadIndex(st, h), ReadIndex(st, Iterate(st, h, ok).hub))
  {
    IterateReadsOn(st, h, ok);
  }

  /** What a pass reads whose iteration is `step` and tries `tried`. */
  ghost function RepeatFresh(step: (Hub, bool) -> Turn, tried: Hub -> seq<nat>, h: Hub, i: nat, n: nat,
                             sends: seq<bool>): seq<nat>
    decreases n - i
  {
    if i >= n then []
    else
      var t := step(h, Taken(sends, i));
      tried(h) + if t.go then RepeatFresh(step, tried, t.hub, i + 1, n, sends) else []
  }

  lemma {:induction false} BatchFreshRepeats(st: Store, h: Hub, i: nat, n: nat, sends: seq<bool>)
    ensures BatchFresh(st, h, i, n, sends) ==
            RepeatFresh((a, ok) => Iterate(st, a, ok), a => FreshBy(st, a), h, i, n, sends)
    decreases n - i
  {
    if i < n {
      var t := Iterate(st, h, Taken(sends, i));
      if t.go { BatchFreshRepeats(st, t.hub, i + 1, n, sends); }
    }
  }

  /** What every iteration reads ascends from one read index to the next, so what a pass reads does. */
  lemma {:induction false} RepeatAscends(step: (Hub, bool) -> Turn, tried: Hub -> seq<nat>, at: Hub -> nat,
                                         good: Hub -> bool, h: Hub, k: nat, i: nat, n: nat, sends: seq<bool>)
    requires good(h) && forall a, ok | good(a) :: good(step(a, ok).hub)
    requires forall a, ok | good(a) :: Ascends(tried(a), at(a), at(step(a, ok).hub))
    ensures Ascends(RepeatFresh(step, tried, h, i, n, sends), at(h), at(Repeat(step, h, k, i, n, sends).0))
    decreases n - i
  {
    if i < n {
      var t := step(h, Taken(sends, i));
      if t.go {
        var more := if t.sent then k + 1 else k;
        RepeatAscends(step, tried, at, good, t.hub, more, i + 1, n, sends);
        AscendsOn(tried(h), RepeatFresh(step, tried, t.hub, i + 1, n, sends), at(h), at(t.hub),
                  at(Repeat(step, t.hub, more, i + 1, n, sends).0));
      } else {
        assert tried(h) + [] == tried(h);
      }
    }
  }

  lemma BatchAscends(st: Store, h: Hub, n: nat, sends: seq<bool>)
    requires Inv(st, h)
    ensures Ascends(BatchFresh(st, h, 0, n, sends), ReadIndex(st, h), ReadIndex(st, Batch(st, h, 0, 0, n, sends).0))
  {
    var step := (a: Hub, ok: bool) => Iterate(st, a, ok);
    var tried := (a: Hub) => FreshBy(st, a);
    var at := (a: Hub) => ReadIndex(st, a);
    var good := (a: Hub) => Inv(st, a);
    forall a, ok | good(a)
      ensures good(step(a, ok).hub)
      ensures Ascends(tried(a), at(a), at(step(a, ok).hub))
    {
      IterateKeepsInv(st, a, ok);
      IterateFresh(st, a, ok);
    }
    RepeatAscends(step, tried, at, good, h, 0, 0, n, sends);
    BatchFreshRepeats(st, h, 0, n, sends);
    BatchRepeats(st, h, 0, 0, n, sends);
  }

  lemma NextAscends(s: System, e: Event)
    requires Inv(s.st, s.hub) && !e.Seek?
    ensures Ascends(FreshIn(s, e), ReadIndex(s.st, s.hub), ReadIndex(Next(s, e).st, Next(s, e).hub))
  {
    if e.Pass? {
      BatchAscends(s.st, s.hub, BatchSize(s.hub.total), e.sends);
    } else {
      NextReadsOn(s, e);
    }
  }

  /** Between seeks a run tries to send fresh messages in log order and none of them twice. */
  lemma {:induction false} FreshOnlyOnce(s: System, events: seq<Event>)
    requires SystemInv(s) && forall i :: 0 <= i < |events| ==> !events[i].Seek?
    ensures Ascends(RunFresh(s, events), ReadIndex(s.st, s.hub), ReadIndex(Run(s, events).st, Run(s, events).hub))
  {
    if events != [] {
      var n := |events| - 1;
      var before, after := Run(s, events[..n]), Run(s, events);
      FreshOnlyOnce(s, events[..n]);
      RunKeepsInv(s, events[..n]);
      NextAscends(before, events[n]);
      AscendsOn(RunFresh(s, events[..n]), FreshIn(before, events[n]),
                ReadIndex(s.st, s.hub), ReadIndex(before.st, before.hub), ReadIndex(after.st, after.hub));
    }
  }
}
