/**
 Which file every batch of an entry log goes to.
 */
module EntryLogFiles {
  import opened Base
  import opened EntryLogs
  import opened EntryLogRuns

  // ---------------------------------------------------------------- one batch

  /** A header of 44 bytes and the two bodies, for each entry. */
  ghost function Size(batch: seq<Entry>): nat {
    if batch == [] then 0 else 44 + |batch[0].metadata| + |batch[0].payload| + Size(batch[1..])
  }

  lemma {:induction false} SizeSnoc(batch: seq<Entry>, e: Entry)
    ensures Size(batch + [e]) == Size(batch) + 44 + |e.metadata| + |e.payload|
  {
    if batch == [] {
      assert [e][1..] == [] && batch + [e] == [e];
    } else {
      SizeSnoc(batch[1..], e);
      assert (batch + [e])[1..] == batch[1..] + [e];
    }
  }

  lemma {:induction false} BatchLenIsSize(batch: seq<Entry>)
    ensures BatchLen(batch) == Size(batch)
  {
    if batch != [] {
      var n := |batch| - 1;
      BatchLenIsSize(batch[..n]);
      SizeSnoc(batch[..n], batch[n]);
      assert batch == batch[..n] + [batch[n]];
    }
  }

  lemma {:induction false} BufferIsSize(batch: seq<Entry>, n: nat)
    requires n <= |batch| && AllSized(batch)
    ensures |Buffer(batch, n)| == Size(batch[..n])
  {
    if n > 0 {
      BufferIsSize(batch, n - 1);
      RecordSize(batch[n - 1]);
      SizeSnoc(batch[..n - 1], batch[n - 1]);
      assert batch[..n] == batch[..n - 1] + [batch[n - 1]];
    }
  }

  /** The batch goes to the open file. */
  predicate Fits(l: Log, len: nat) {
    l.offset == 0 || l.offset + len <= l.limit
  }

  lemma {:induction false} IndexesAt(batch: seq<Entry>, file: nat, offset: nat, n: nat, i: nat)
    requires i < n <= |batch| && AllSized(batch)
    ensures var x := Indexes(batch, file, offset, n)[i];
            x.file == file && x.offset == offset + Size(batch[..i])
  {
    if i == n - 1 {
      BufferIsSize(batch, n - 1);
    } else {
      IndexesAt(batch, file, offset, n - 1, i);
    }
  }

  lemma PutWhere(l: Log, len: nat, b: seq<byte>)
    ensures var after, fits := Put(Rolled(l, len), b), Fits(l, len);
            && after.active == (if fits then l.active else l.active + 1)
            && after.offset == (if fits then l.offset else 0) + |b| && after.limit == l.limit
  {
  }

  /** A non-empty batch is written where the last one ended when the open file is empty or has room for all of it,
      and otherwise at the start of the next file. */
  lemma WrittenExact(l: Log, batch: seq<Entry>)
    requires AllSized(batch) && batch != []
    ensures var (after, indexes) := Written(l, batch);
            var fits := Fits(l, Size(batch));
            && after.active == (if fits then l.active else l.active + 1)
            && after.offset == (if fits then l.offset else 0) + Size(batch)
            && after.limit == l.limit && |indexes| == |batch|
  {
    var len, b := BatchLen(batch), Buffer(batch, |batch|);
    assert len == |b| == Size(batch) by {
      BatchLenIsSize(batch);
      BufferIsSize(batch, |batch|);
      assert batch[..|batch|] == batch;
    }
    PutWhere(l, len, b);
  }

  /** Its records follow each other there. */
  lemma WrittenAt(l: Log, batch: seq<Entry>, i: nat)
    requires AllSized(batch) && i < |batch| == |Written(l, batch).1|
    ensures var (after, indexes) := Written(l, batch);
            && indexes[i].file == after.active
            && indexes[i].offset + Size(batch) == after.offset + Size(batch[..i])
  {
    var r := Rolled(l, BatchLen(batch));
    WrittenExact(l, batch);
    BatchLenIsSize(batch);
    IndexesAt(batch, r.active, r.offset, |batch|, i);
  }

  /** The other files are as before, and the written one is longer by the records. */
  lemma WrittenFiles(l: Log, batch: seq<Entry>, f: nat)
    requires AllSized(batch) && batch != [] && l.active in l.files && l.active + 1 !in l.files
    requires l.offset == |l.files[l.active]|
    ensures var after := Written(l, batch).0;
            && (f in after.files <==> f in l.files || f == after.active)
            && (f in after.files ==> |after.files[f]| == if f == after.active then after.offset else |l.files[f]|)
  {
  }

  // ---------------------------------------------------------------- whole runs

  /** Where the writer said a batch begins, how long it is, and the limit and the opening it was written under. */
  datatype Placement = Placement(file: nat, offset: nat, len: nat, limit: nat, opening: nat)

  ghost function End(p: Placement): nat {
    p.offset + p.len
  }

  ghost function Openings(events: seq<Event>): nat {
    if events == [] then 0
    else Openings(events[..|events| - 1]) + if events[|events| - 1].Reopen? then 1 else 0
  }

  ghost function PlacedBy(l: Log, batch: seq<Entry>, opening: nat): Placement
    requires AllSized(batch) && batch != []
  {
    WrittenExact(l, batch);
    var first := Written(l, batch).1[0];
    Placement(first.file, first.offset, Size(batch), l.limit, opening)
  }

  /** The non-empty batches of a run, in order. */
  ghost function Placements(h: History, events: seq<Event>): seq<Placement>
    requires Legal(events)
  {
    if events == [] then []
    else
      var n := |events| - 1;
      var e, before := events[n], Placements(h, events[..n]);
      if e.Batch? && e.entries != []
      then before + [PlacedBy(Run(h, events[..n]).l, e.entries, Openings(events[..n]))] else before
  }

  lemma PlacedByExact(l: Log, batch: seq<Entry>, opening: nat)
    requires AllSized(batch) && batch != []
    ensures var p, fits := PlacedBy(l, batch, opening), Fits(l, Size(batch));
            p == Placement(if fits then l.active else l.active + 1, if fits then l.offset else 0, Size(batch), l.limit,
                           opening)
  {
    WrittenExact(l, batch);
    WrittenAt(l, batch, 0);
  }

  /** Only the first batch of a file may pass the limit. */
  ghost predicate Within(p: Placement) {
    p.len > 0 && (p.offset > 0 ==> End(p) <= p.limit)
  }

  /** Files fill up in order, each in one opening. */
  ghost predicate Follows(p: Placement, q: Placement) {
    && p.file <= q.file && p.opening <= q.opening
    && (p.file == q.file ==> End(p) <= q.offset && p.limit == q.limit && p.opening == q.opening)
  }

  /** Between openings a batch goes right behind the one before when it fits there, and else to the next file. */
  ghost predicate Adjacent(p: Placement, q: Placement) {
    p.opening == q.opening ==>
      if End(p) + q.len <= p.limit then q.file == p.file && q.offset == End(p)
      else q.file == p.file + 1 && q.offset == 0
  }

  ghost predicate Arranged(ps: seq<Placement>) {
    && (forall i :: 0 <= i < |ps| ==> Within(ps[i]))
    && (forall i, j :: 0 <= i < j < |ps| ==> Follows(ps[i], ps[j]))
    && forall i :: 0 < i < |ps| ==> Adjacent(ps[i - 1], ps[i])
  }

  /** The open file comes after all batches, and right after the last one of this opening. */
  ghost predicate Open(l: Log, opening: nat, ps: seq<Placement>) {
    && (forall i :: 0 <= i < |ps| ==> Follows(ps[i], Placement(l.active, l.offset, 0, l.limit, opening)))
    && if ps != [] && ps[|ps| - 1].opening == opening
       then l.active == ps[|ps| - 1].file && l.offset == End(ps[|ps| - 1]) && l.limit == ps[|ps| - 1].limit
       else l.offset == 0
  }

  lemma PlacedArranged(l: Log, opening: nat, ps: seq<Placement>, len: nat)
    requires Arranged(ps) && Open(l, opening, ps) && len > 0
    ensures var fits := Fits(l, len);
            var file, start := if fits then l.active else l.active + 1, if fits then l.offset else 0;
            var p := Placement(file, start, len, l.limit, opening);
            var after := l.(active := p.file, offset := End(p));
            Arranged(ps + [p]) && Open(after, opening, ps + [p])
  {
  }

  lemma OpenedArranged(l: Log, opening: nat, ps: seq<Placement>, file: nat, limit: nat)
    requires Open(l, opening, ps) && file > l.active
    ensures Open(Log(l.files, file, 0, limit), opening + 1, ps)
  {
  }

  /** Every file ends where its last batch does. */
  ghost predicate Spans(files: map<nat, seq<byte>>, ps: seq<Placement>) {
    && (forall i :: 0 <= i < |ps| ==> ps[i].file in files && End(ps[i]) <= |files[ps[i].file]|)
    && forall f :: f in files && files[f] != [] ==> EndsIn(ps, f, |files[f]|)
  }

  ghost predicate EndsIn(ps: seq<Placement>, f: nat, end: nat) {
    exists i :: 0 <= i < |ps| && ps[i].file == f && End(ps[i]) == end
  }

  lemma EndsInMore(ps: seq<Placement>, p: Placement, f: nat, end: nat)
    requires EndsIn(ps, f, end) || (p.file == f && End(p) == end)
    ensures EndsIn(ps + [p], f, end)
  {
    if EndsIn(ps, f, end) {
      var i :| 0 <= i < |ps| && ps[i].file == f && End(ps[i]) == end;
      assert (ps + [p])[i] == ps[i];
    } else {
      assert (ps + [p])[|ps|] == p;
    }
  }

  /** The open file exists, is written to its end, and no file comes after it. */
  ghost predicate Latest(l: Log) {
    l.active in l.files && l.offset == |l.files[l.active]| && forall f :: f in l.files ==> f <= l.active
  }

  lemma SpansMore(l: Log, batch: seq<Entry>, ps: seq<Placement>, p: Placement)
    requires AllSized(batch) && batch != [] && Latest(l) && Spans(l.files, ps)
    requires var after := Written(l, batch).0; p.file == after.active && End(p) == after.offset
    requires forall i :: 0 <= i < |ps| && ps[i].file == p.file ==> End(ps[i]) <= p.offset
    ensures Spans(Written(l, batch).0.files, ps + [p])
  {
    var files := Written(l, batch).0.files;
    forall f: nat
      ensures (f in files <==> f in l.files || f == p.file)
      ensures f in files ==> |files[f]| == if f == p.file then End(p) else |l.files[f]|
    {
      WrittenFiles(l, batch, f);
    }
    forall f | f in files && files[f] != [] ensures EndsIn(ps + [p], f, |files[f]|) {
      EndsInMore(ps, p, f, |files[f]|);
    }
  }

  /** Where the batches of a run are, and where the next one would go. */
  ghost predicate Kept(l: Log, opening: nat, ps: seq<Placement>) {
    Arranged(ps) && Open(l, opening, ps) && Spans(l.files, ps)
  }

  lemma {:induction false} SizePositive(batch: seq<Entry>)
    requires batch != []
    ensures Size(batch) > 0
  {
  }

  lemma OpenAt(l: Log, g: Log, opening: nat, ps: seq<Placement>)
    requires Open(l, opening, ps) && g.active == l.active && g.offset == l.offset && g.limit == l.limit
    ensures Open(g, opening, ps)
  {
  }

  lemma BatchKept(l: Log, opening: nat, ps: seq<Placement>, batch: seq<Entry>)
    requires AllSized(batch) && batch != [] && Latest(l) && Kept(l, opening, ps)
    ensures Kept(Written(l, batch).0, opening, ps + [PlacedBy(l, batch, opening)])
  {
    var p, after := PlacedBy(l, batch, opening), Written(l, batch).0;
    WrittenExact(l, batch);
    PlacedByExact(l, batch, opening);
    SizePositive(batch);
    PlacedArranged(l, opening, ps, Size(batch));
    OpenAt(l.(active := p.file, offset := End(p)), after, opening, ps + [p]);
    SpansMore(l, batch, ps, p);
  }

  lemma ReopenKept(l: Log, opening: nat, ps: seq<Placement>, limit: nat)
    requires Latest(l) && Kept(l, opening, ps)
    ensures Kept(Opened(l.files, limit), opening + 1, ps)
  {
    var g := Opened(l.files, limit);
    OpenedArranged(l, opening, ps, g.active, limit);
    OpenAt(Log(l.files, g.active, 0, limit), g, opening + 1, ps);
  }

  lemma InvIsLatest(l: Log, issued: seq<Issued>)
    requires Inv(l, issued)
    ensures Latest(l)
  {
  }

  lemma {:induction false} RunKept(h: History, events: seq<Event>)
    requires Inv(h.l, h.issued) && Legal(events) && Kept(h.l, 0, [])
    ensures Kept(Run(h, events).l, Openings(events), Placements(h, events))
  {
    if events != [] {
      var n := |events| - 1;
      var before, e, ps := Run(h, events[..n]), events[n], Placements(h, events[..n]);
      RunKept(h, events[..n]);
      RunKeeps(h, events[..n]);
      InvIsLatest(before.l, before.issued);
      match e
      case Reopen(limit) => ReopenKept(before.l, Openings(events[..n]), ps, limit);
      case Batch(entries) =>
        if entries != [] { BatchKept(before.l, Openings(events[..n]), ps, entries); }
    }
  }

  // ---------------------------------------------------------------- what this means

  lemma StartKept(limit: nat)
    ensures Inv(Opened(map[], limit), []) && Kept(Opened(map[], limit), 0, [])
  {
  }

  /** A batch that fits the open file never starts a new one, and one that does not always does, until the log is
      opened again. */
  lemma EveryBatchIsPlaced(limit: nat, events: seq<Event>, i: nat)
    requires Legal(events) && i + 1 < |Placements(History(Opened(map[], limit), []), events)|
    ensures var ps := Placements(History(Opened(map[], limit), []), events);
            Adjacent(ps[i], ps[i + 1])
  {
    StartKept(limit);
    RunKept(History(Opened(map[], limit), []), events);
  }

  lemma PairFits(p: Placement, q: Placement)
    requires Within(p) && Within(q) && p.file == q.file && (Follows(p, q) || Follows(q, p))
    ensures p.limit == q.limit && End(p) <= p.limit && End(q) <= p.limit
  {
  }

  lemma TwoBatchesFit(files: map<nat, seq<byte>>, ps: seq<Placement>, i: nat, j: nat)
    requires Arranged(ps) && Spans(files, ps) && i < |ps| && j < |ps| && i != j && ps[i].file == ps[j].file
    ensures |files[ps[i].file]| <= ps[i].limit
  {
    var f := ps[i].file;
    var k :| 0 <= k < |ps| && ps[k].file == f && End(ps[k]) == |files[f]|;
    PairFits(ps[i], ps[if k == i then j else k]);
  }

  lemma OverLimitIsAlone(files: map<nat, seq<byte>>, ps: seq<Placement>, i: nat)
    requires Arranged(ps) && Spans(files, ps) && i < |ps| && |files[ps[i].file]| > ps[i].limit
    ensures ps[i].offset == 0 && End(ps[i]) == |files[ps[i].file]|
    ensures forall j :: 0 <= j < |ps| && j != i ==> ps[j].file != ps[i].file
  {
    forall j | 0 <= j < |ps| && j != i ensures ps[j].file != ps[i].file {
      if ps[j].file == ps[i].file { TwoBatchesFit(files, ps, i, j); }
    }
    var k :| 0 <= k < |ps| && ps[k].file == ps[i].file && End(ps[k]) == |files[ps[i].file]|;
  }

  /** A file longer than the limit its batches were written under holds exactly one batch. */
  lemma EveryFileKeepsLimit(limit: nat, events: seq<Event>, i: nat)
    requires Legal(events) && i < |Placements(History(Opened(map[], limit), []), events)|
    ensures var h := History(Opened(map[], limit), []);
            var files, ps := Run(h, events).l.files, Placements(h, events);
            && ps[i].file in files
            && (|files[ps[i].file]| > ps[i].limit ==>
                  && ps[i].offset == 0 && End(ps[i]) == |files[ps[i].file]|
                  && forall j :: 0 <= j < |ps| && j != i ==> ps[j].file != ps[i].file)
  {
    var h := History(Opened(map[], limit), []);
    var files, ps := Run(h, events).l.files, Placements(h, events);
    StartKept(limit);
    RunKept(h, events);
    if |files[ps[i].file]| > ps[i].limit { OverLimitIsAlone(files, ps, i); }
  }
}
