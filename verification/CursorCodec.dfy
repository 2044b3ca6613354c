/** Persisting a cursor as a `ManagedCursorInfo` record of signed 64-bit ids. */
module CursorCodec {
  import opened Base
  import opened Positions
  import opened RangeSets
  import opened ManagedCursors

  datatype WireRange = WireRange(lowerLedger: int, lowerEntry: int, upperLedger: int, upperEntry: int)

  datatype CursorInfo = CursorInfo(markLedger: Option<int>, markEntry: Option<int>, deleted: seq<WireRange>)

  datatype DecodeError = NegativeId | SpansLedgers

  /** `u64 as i64`. */
  function AsI64(n: nat): int {
    if n < I64_LIMIT then n else n - U64_LIMIT
  }

  function EncodeRange(r: Range): WireRange {
    WireRange(AsI64(r.lo.ledger), AsI64(r.lo.entry), AsI64(r.hi.ledger), AsI64(r.hi.entry))
  }

  function Encode(st: CursorState): CursorInfo {
    CursorInfo(
      if st.mark.None? then None else Some(AsI64(st.mark.value.ledger)),
      if st.mark.None? then None else Some(AsI64(st.mark.value.entry)),
      seq(|st.holes|, i requires 0 <= i < |st.holes| => EncodeRange(st.holes[i])))
  }

  function DecodePos(ledger: int, entry: int): Result<Pos, DecodeError> {
    if ledger < 0 || entry < 0 then Err(NegativeId) else Ok(Pos(ledger, entry))
  }

  function DecodeRange(w: WireRange): Result<Range, DecodeError> {
    if w.lowerLedger != w.upperLedger then Err(SpansLedgers)
    else
      var lo := DecodePos(w.lowerLedger, w.lowerEntry);
      var hi := DecodePos(w.upperLedger, w.upperEntry);
      if lo.Err? then Err(lo.error) else if hi.Err? then Err(hi.error) else Ok(Range(lo.value, hi.value))
  }

  /** The first `n` ranges, inserted one by one. */
  function DecodeRanges(ws: seq<WireRange>, n: nat): Result<seq<Range>, DecodeError>
    requires n <= |ws|
  {
    if n == 0 then Ok([])
    else
      var rs := DecodeRanges(ws, n - 1);
      if rs.Err? then rs
      else
        var r := DecodeRange(ws[n - 1]);
        if r.Err? then Err(r.error) else Ok(RangeInserted(rs.value, r.value.lo, r.value.hi))
  }

  function DecodeMark(c: CursorInfo): Result<Option<Pos>, DecodeError> {
    if c.markLedger.Some? && c.markEntry.Some? then
      var p := DecodePos(c.markLedger.value, c.markEntry.value);
      if p.Err? then Err(p.error) else Ok(Some(p.value))
    else Ok(None)
  }

  function Decode(c: CursorInfo): Result<CursorState, DecodeError> {
    var mark := DecodeMark(c);
    if mark.Err? then Err(mark.error)
    else
      var holes := DecodeRanges(c.deleted, |c.deleted|);
      if holes.Err? then Err(holes.error) else Ok(CursorState(mark.value, holes.value))
  }

  method DecodeCursor(c: CursorInfo) returns (r: Result<CursorState, DecodeError>)
    ensures r == Decode(c)
  {
    var mark := DecodeMark(c);
    if mark.Err? {
      return Err(mark.error);
    }
    var holes := new RangeSet();
    var i := 0;
    while i < |c.deleted|
      invariant i <= |c.deleted| && DecodeRanges(c.deleted, i) == Ok(holes.ranges)
    {
      var range := DecodeRange(c.deleted[i]);
      if range.Err? {
        FirstErrorWins(c.deleted, i + 1, |c.deleted|);
        return Err(range.error);
      }
      holes.InsertRange(range.value.lo, range.value.hi);
      i := i + 1;
    }
    return Ok(CursorState(mark.value, holes.ranges));
  }

  lemma {:induction false} FirstErrorWins(ws: seq<WireRange>, i: nat, n: nat)
    requires i <= n <= |ws| && DecodeRanges(ws, i).Err?
    ensures DecodeRanges(ws, n) == DecodeRanges(ws, i)
    decreases n
  {
    if i < n { FirstErrorWins(ws, i, n - 1); }
  }

  // ---------------------------------------------------------------- round trip

  predicate PosBelow(p: Pos, limit: nat) {
    p.ledger < limit && p.entry < limit
  }

  ghost predicate IdsBelow(st: CursorState, limit: nat) {
    && (st.mark.Some? ==> PosBelow(st.mark.value, limit))
    && forall r :: r in st.holes ==> PosBelow(r.lo, limit) && PosBelow(r.hi, limit)
  }

  predicate Signed(r: Range) {
    PosBelow(r.lo, I64_LIMIT) && PosBelow(r.hi, I64_LIMIT)
  }

  lemma RangeRoundTrip(r: Range)
    requires WithinLedger(r) && PosBelow(r.lo, U64_LIMIT) && PosBelow(r.hi, U64_LIMIT)
    ensures DecodeRange(EncodeRange(r)) == if Signed(r) then Ok(r) else Err(NegativeId)
  {
  }

  lemma PrefixCanonical(rs: seq<Range>, n: nat)
    requires Canonical(rs) && OneLedger(rs) && n <= |rs|
    ensures Canonical(rs[..n]) && OneLedger(rs[..n])
    ensures n < |rs| ==> !InsideEarlier(rs[..n], rs[n].lo) && rs[n].lo.Le(rs[n].hi) && WithinLedger(rs[n])
    ensures n < |rs| ==> forall p :: Covers(rs[..n + 1], p) <==> Covers(rs[..n], p) || rs[n].Has(p)
  {
    assert forall r :: r in rs[..n] ==> r in rs;
    if n < |rs| {
      assert rs[..n + 1] == rs[..n] + [rs[n]] && rs[n] in rs;
      forall x | x in rs[..n] ensures Gap(x, rs[n]) {
        var k :| 0 <= k < |rs[..n]| && rs[..n][k] == x;
        GapAt(rs, k, n);
      }
    }
  }

  /** Re-inserting the next range of a canonical list just appends it. */
  lemma ReinsertAppends(rs: seq<Range>, n: nat)
    requires Canonical(rs) && OneLedger(rs) && n < |rs|
    ensures RangeInserted(rs[..n], rs[n].lo, rs[n].hi) == rs[..n + 1]
  {
    PrefixCanonical(rs, n);
    PrefixCanonical(rs, n + 1);
    InsertRangeExact(rs[..n], rs[n].lo, rs[n].hi);
    CanonicalUnique(RangeInserted(rs[..n], rs[n].lo, rs[n].hi), rs[..n + 1]);
  }

  lemma NextDecoded(ws: seq<WireRange>, n: nat, rs: seq<Range>, r: Range)
    requires 0 < n <= |ws| && DecodeRanges(ws, n - 1) == Ok(rs) && DecodeRange(ws[n - 1]) == Ok(r)
    ensures DecodeRanges(ws, n) == Ok(RangeInserted(rs, r.lo, r.hi))
  {
  }

  lemma {:induction false} RangesRoundTrip(rs: seq<Range>, ws: seq<WireRange>, n: nat)
    requires Canonical(rs) && OneLedger(rs) && n <= |rs| == |ws|
    requires forall i :: 0 <= i < |rs| ==> ws[i] == EncodeRange(rs[i])
    requires forall i :: 0 <= i < n ==> Signed(rs[i])
    ensures DecodeRanges(ws, n) == Ok(rs[..n])
    decreases n
  {
    if n > 0 {
      RangesRoundTrip(rs, ws, n - 1);
      assert rs[n - 1] in rs;
      RangeRoundTrip(rs[n - 1]);
      ReinsertAppends(rs, n - 1);
      NextDecoded(ws, n, rs[..n - 1], rs[n - 1]);
    }
  }

  lemma ErrorAt(ws: seq<WireRange>, i: nat)
    requires i < |ws| && DecodeRanges(ws, i).Ok? && DecodeRange(ws[i]) == Err(NegativeId)
    ensures DecodeRanges(ws, |ws|) == Err(NegativeId)
  {
    FirstErrorWins(ws, i + 1, |ws|);
  }

  /** The first id past 2^63 - 1 makes decoding fail, never succeed with something else. */
  lemma {:induction false} RangesOverflow(rs: seq<Range>, ws: seq<WireRange>, i: nat)
    requires Canonical(rs) && OneLedger(rs) && i < |rs| == |ws|
    requires forall k :: 0 <= k < |rs| ==> ws[k] == EncodeRange(rs[k])
    requires forall k :: 0 <= k < i ==> Signed(rs[k])
    requires !Signed(rs[i]) && PosBelow(rs[i].lo, U64_LIMIT) && PosBelow(rs[i].hi, U64_LIMIT)
    ensures DecodeRanges(ws, |ws|) == Err(NegativeId)
  {
    assert rs[i] in rs;
    RangesRoundTrip(rs, ws, i);
    RangeRoundTrip(rs[i]);
    ErrorAt(ws, i);
  }

  lemma {:induction false} FirstUnsigned(rs: seq<Range>, n: nat) returns (i: nat)
    requires n <= |rs|
    ensures i <= n && (forall k :: 0 <= k < i ==> Signed(rs[k])) && (i < n ==> !Signed(rs[i]))
    decreases n
  {
    if n == 0 { return 0; }
    i := FirstUnsigned(rs, n - 1);
    if i == n - 1 && Signed(rs[i]) { i := n; }
  }

  /** Decoding an encoded cursor gives it back if and only if every id is below 2^63; otherwise it
      is an error, and never the "spans multiple ledgers" one. */
  lemma CursorRoundTrip(st: CursorState)
    requires Canonical(st.holes) && OneLedger(st.holes) && IdsBelow(st, U64_LIMIT)
    ensures IdsBelow(st, I64_LIMIT) ==> Decode(Encode(st)) == Ok(st)
    ensures !IdsBelow(st, I64_LIMIT) ==> Decode(Encode(st)) == Err(NegativeId)
  {
    var ws := Encode(st).deleted;
    var i := FirstUnsigned(st.holes, |ws|);
    if i == |ws| {
      RangesRoundTrip(st.holes, ws, |ws|);
      assert st.holes[..|ws|] == st.holes;
    } else {
      assert st.holes[i] in st.holes;
      RangesOverflow(st.holes, ws, i);
    }
  }

  /** What the record says of a cursor whose ids are below 2^63. */
  lemma EncodedFields(st: CursorState, i: nat)
    requires IdsBelow(st, I64_LIMIT)
    ensures var c := Encode(st);
            && (st.mark.None? ==> c.markLedger == None && c.markEntry == None)
            && (st.mark.Some? ==>
                c.markLedger == Some(st.mark.value.ledger) && c.markEntry == Some(st.mark.value.entry))
            && |c.deleted| == |st.holes|
            && (i < |st.holes| ==>
                  c.deleted[i] == WireRange(st.holes[i].lo.ledger, st.holes[i].lo.entry, st.holes[i].hi.ledger,
                                            st.holes[i].hi.entry))
  {
    if i < |st.holes| { assert st.holes[i] in st.holes; }
  }
}
