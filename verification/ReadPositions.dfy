/**
 A dispatcher's read position as an index into the topic's log: it stays the same index however
 the log grows, and reading one entry there yields the entry at that index.
 */
module ReadPositions {
  import opened Base
  import opened Positions
  import opened LedgerLog
  import opened ManagedLedgers
  import opened ConcurrentReads

  /** The position after `p` when no entry follows yet. */
  function LogicalNext(p: Pos): Pos {
    Pos(p.ledger, p.entry + 1)
  }

  /** What a dispatcher stores after reading `p`. */
  function AfterReading(info: Info, p: Pos): Pos {
    match NextPosition(info, p)
    case Some(n) => n
    case None => LogicalNext(p)
  }

  /** The index a stored read position stands for. */
  ghost predicate StandsFor(info: Info, p: Pos, k: nat) {
    Known(info, p.ledger) && LowerBound(Log(info), p) == k
  }

  lemma KnownOf(info: Info, k: nat)
    requires WellFormed(info) && k < |Log(info)|
    ensures Known(info, Log(info)[k].ledger)
  {
    LogIndexStored(info, k);
  }

  /** After reading entry `k`, the read position stands for `k + 1`, now and after any growth. */
  lemma AfterReadingStands(info: Info, info': Info, k: nat)
    requires WellFormed(info) && WellFormed(info') && Log(info) <= Log(info') && k < |Log(info)|
    ensures StandsFor(info', AfterReading(info, Log(info)[k]), k + 1)
  {
    var p := Log(info)[k];
    assert Log(info')[k] == p;
    KnownOf(info', k);
    NextAt(info, k);
    if k + 1 < |Log(info)| {
      assert Log(info')[k + 1] == Log(info)[k + 1];
      LowerBoundAt(info', k + 1);
      KnownOf(info', k + 1);
    } else {
      if k + 1 < |Log(info')| { LogOrder(info', k, k + 1); }
      LowerBoundUnique(info', LogicalNext(p), k + 1);
    }
  }

  /** Growth does not change which entry a read position stands for, exactly when that entry was stored already or
      what is stored there now, if anything, does not lie before the position. */
  lemma StandsForStable(info: Info, info': Info, p: Pos, k: nat)
    requires WellFormed(info) && WellFormed(info') && Log(info) <= Log(info') && StandsFor(info, p, k)
    ensures LowerBound(Log(info'), p) == k <==>
            k < |Log(info)| || k == |Log(info')| || !Log(info')[k].Lt(p)
  {
    assert k < |Log(info)| ==> Log(info')[k] == Log(info)[k];
    assert k > 0 ==> Log(info')[k - 1] == Log(info)[k - 1];
    if k == |Log(info')| || !Log(info')[k].Lt(p) { LowerBoundUnique(info', p, k); }
  }

  /** Reading one entry at a position that stands for `k` yields entry `k`, and nothing at the end; a start with a
      larger partition than the last confirmed entry's does not see that entry. */
  lemma {:induction false} ReadOne(info: Info, from: MessageId, lac: MessageId, k: nat)
    requires WellFormed(info) && StandsFor(info, from.pos, k)
    requires Log(info) != [] && lac.pos == Log(info)[|Log(info)| - 1]
    ensures lac.pos in Log(info)
    ensures Slice(Log(info), Query(from, 1), lac) ==
            if k < |Log(info)| - (if from.partition > lac.partition then 1 else 0) then [Log(info)[k]] else []
  {
    LowerBoundAt(info, |Log(info)| - 1);
    assert End(Log(info), lac, from.partition) == |Log(info)| - if from.partition > lac.partition then 1 else 0;
  }
}
