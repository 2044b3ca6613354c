/**
 Whole runs of the entry log writer: batches, file rollover and reopening. Every write succeeds.
 */
module EntryLogRuns {
  import opened Base
  import opened EntryLogs

  /** The files of the directory, the file being written and how far it is written. */
  datatype Log = Log(files: map<nat, seq<byte>>, active: nat, offset: nat, limit: nat)

  datatype Issued = Issued(index: Index, entry: Entry)

  /** The log and everything ever returned to a caller. */
  datatype History = History(l: Log, issued: seq<Issued>)

  function IndexFor(e: Entry, file: nat, offset: nat): Index {
    Index(e.ledger, e.id, file, offset, RecordLen(e), ChecksumOf(e.metadata, e.payload), e.partition)
  }

  function BatchLen(batch: seq<Entry>): nat {
    if batch == [] then 0 else BatchLen(batch[..|batch| - 1]) + RecordLen(batch[|batch| - 1])
  }

  /** A batch that would pass the size limit starts a new file, unless the current one is empty. */
  function Rolled(l: Log, len: nat): Log {
    if l.offset > 0 && l.offset + len > l.limit
    then l.(files := l.files[l.active + 1 := []], active := l.active + 1, offset := 0)
    else l
  }

  predicate AllSized(batch: seq<Entry>) {
    forall i :: 0 <= i < |batch| ==> Sized(batch[i])
  }

  /** The bytes of the first `n` records. */
  function Buffer(batch: seq<Entry>, n: nat): seq<byte>
    requires n <= |batch| && AllSized(batch)
  {
    if n == 0 then [] else Buffer(batch, n - 1) + RecordBytes(batch[n - 1])
  }

  function Indexes(batch: seq<Entry>, file: nat, offset: nat, n: nat): (r: seq<Index>)
    requires n <= |batch| && AllSized(batch)
    ensures |r| == n
  {
    if n == 0 then []
    else Indexes(batch, file, offset, n - 1) + [IndexFor(batch[n - 1], file, offset + |Buffer(batch, n - 1)|)]
  }

  /** Append bytes to the active file. */
  function Put(l: Log, b: seq<byte>): Log {
    var was := if l.active in l.files then l.files[l.active] else [];
    l.(files := l.files[l.active := was + b], offset := l.offset + |b|)
  }

  function Written(l: Log, batch: seq<Entry>): (Log, seq<Index>)
    requires AllSized(batch)
  {
    if batch == [] then (l, [])
    else
      var r := Rolled(l, BatchLen(batch));
      (Put(r, Buffer(batch, |batch|)), Indexes(batch, r.active, r.offset, |batch|))
  }

  /** One past the highest file id, zero without files. */
  function NextFile(files: map<nat, seq<byte>>): (id: nat)
    ensures (forall f :: f in files ==> f < id) && (id == 0 <==> files == map[]) && (id > 0 ==> id - 1 in files)
  {
    Above(files.Keys)
  }

  function Above(ids: set<nat>): (id: nat)
    ensures (forall f :: f in ids ==> f < id) && (id == 0 <==> ids == {}) && (id > 0 ==> id - 1 in ids)
    decreases |ids|
  {
    if ids == {} then 0
    else
      Highest(ids);
      var f :| f in ids && forall g :: g in ids ==> g <= f;
      f + 1
  }

  lemma {:induction false} Highest(ids: set<nat>)
    requires ids != {}
    ensures exists f :: f in ids && forall g :: g in ids ==> g <= f
    decreases |ids|
  {
    var f :| f in ids;
    var rest := ids - {f};
    assert forall g :: g in ids ==> g == f || g in rest;
    if rest != {} {
      Highest(rest);
      var h :| h in rest && forall g :: g in rest ==> g <= h;
      var top := if f < h then h else f;
      assert top in ids && forall g :: g in ids ==> g <= top;
    }
  }

  function Opened(files: map<nat, seq<byte>>, limit: nat): Log {
    var id := NextFile(files);
    Log(files[id := []], id, 0, limit)
  }

  // ---------------------------------------------------------------- what has been written where

  /** The records issued into one file, in order. */
  ghost function Content(issued: seq<Issued>, file: nat): seq<byte>
    requires forall i :: 0 <= i < |issued| ==> Sized(issued[i].entry)
  {
    if issued == [] then []
    else
      var n := |issued| - 1;
      Content(issued[..n], file) + if issued[n].index.file == file then RecordBytes(issued[n].entry) else []
  }

  ghost predicate EntriesSized(issued: seq<Issued>) {
    forall i :: 0 <= i < |issued| ==> Sized(issued[i].entry)
  }

  /** Each issued index says where its record begins. */
  ghost predicate Placed(issued: seq<Issued>, i: nat)
    requires i < |issued| && EntriesSized(issued)
  {
    issued[i].index == IndexFor(issued[i].entry, issued[i].index.file, |Content(issued[..i], issued[i].index.file)|)
  }

  /** Every file is exactly the records issued into it, one after another. */
  ghost predicate Tiled(l: Log, issued: seq<Issued>)
    requires EntriesSized(issued)
  {
    && (forall f :: f in l.files ==> l.files[f] == Content(issued, f))
    && (forall f: nat :: f !in l.files ==> Content(issued, f) == [])
  }

  ghost predicate Inv(l: Log, issued: seq<Issued>) {
    && EntriesSized(issued) && Tiled(l, issued) && (forall i: nat :: i < |issued| ==> Placed(issued, i))
    && l.active in l.files && l.offset == |l.files[l.active]| && forall f :: f in l.files ==> f <= l.active
  }

  lemma {:induction false} ContentPrefix(issued: seq<Issued>, i: nat, f: nat)
    requires EntriesSized(issued) && i <= |issued|
    ensures Content(issued[..i], f) <= Content(issued, f)
    decreases |issued|
  {
    if i == |issued| {
      assert issued[..i] == issued;
    } else {
      var n := |issued| - 1;
      ContentPrefix(issued[..n], i, f);
      assert issued[..n][..i] == issued[..i];
    }
  }

  lemma InPrefix(a: seq<byte>, r: seq<byte>, s: seq<byte>)
    requires a + r <= s
    ensures |a| + |r| <= |s| && s[|a|..|a| + |r|] == r
  {
    assert s[..|a| + |r|] == a + r;
  }

  /** The record of an issued index lies in its file at its offset. */
  lemma {:induction false} RecordInPlace(issued: seq<Issued>, i: nat)
    requires EntriesSized(issued) && i < |issued| && Placed(issued, i)
    ensures var index := issued[i].index;
            var file := Content(issued, index.file);
            && index.offset + index.len <= |file|
            && file[index.offset..index.offset + index.len] == RecordBytes(issued[i].entry)
            && index.offset + index.len == |Content(issued[..i + 1], index.file)|
  {
    var f := issued[i].index.file;
    RecordSize(issued[i].entry);
    ContentPrefix(issued, i + 1, f);
    assert issued[..i + 1][..i] == issued[..i];
    InPrefix(Content(issued[..i], f), RecordBytes(issued[i].entry), Content(issued, f));
  }

  /** What reading a described record must return. */
  function Expected(e: Entry): Option<Record> {
    if |e.metadata| < U32_LIMIT && |e.payload| < U32_LIMIT then Some(Record(e.partition, e.metadata, e.payload))
    else None
  }

  lemma ReadsRecord(files: map<nat, seq<byte>>, index: Index, e: Entry)
    requires Sized(e) && Describes(index, e) && index.file in files
    requires index.offset + index.len <= |files[index.file]|
    requires files[index.file][index.offset..index.offset + index.len] == RecordBytes(e)
    ensures Read(files, index) == Expected(e)
  {
    var file := files[index.file];
    var more := file[index.offset + index.len..];
    assert file[index.offset..] == file[index.offset..index.offset + index.len] + more;
    RecordRoundTrip(e, more, index);
  }

  /** After any run, reading an issued index gives the entry back, exactly when its lengths fit 32 bits. */
  lemma {:induction false} ReadsBack(l: Log, issued: seq<Issued>, i: nat)
    requires Inv(l, issued) && i < |issued|
    ensures Read(l.files, issued[i].index) == Expected(issued[i].entry)
  {
    var index := issued[i].index;
    assert Placed(issued, i);
    RecordInPlace(issued, i);
    InSomeFile(l, issued, index);
    ReadsRecord(l.files, index, issued[i].entry);
  }

  lemma {:induction false} InSomeFile(l: Log, issued: seq<Issued>, index: Index)
    requires EntriesSized(issued) && Tiled(l, issued) && index.len > 0
    requires index.offset + index.len <= |Content(issued, index.file)|
    ensures index.file in l.files && l.files[index.file] == Content(issued, index.file)
  {
  }

  /** Records in one file do not overlap and follow each other without gaps. */
  lemma {:induction false} RecordsAreContiguous(issued: seq<Issued>, i: nat, j: nat)
    requires EntriesSized(issued) && i < j < |issued| && Placed(issued, i) && Placed(issued, j)
    requires issued[i].index.file == issued[j].index.file
    ensures issued[i].index.offset + issued[i].index.len <= issued[j].index.offset
    ensures (forall k :: i < k < j ==> issued[k].index.file != issued[i].index.file) ==>
              issued[i].index.offset + issued[i].index.len == issued[j].index.offset
  {
    var f := issued[i].index.file;
    RecordInPlace(issued, i);
    ContentPrefix(issued[..j], i + 1, f);
    assert issued[..j][..i + 1] == issued[..i + 1];
    if forall k :: i < k < j ==> issued[k].index.file != f {
      SameContent(issued, i + 1, j, f);
    }
  }

  lemma {:induction false} SameContent(issued: seq<Issued>, i: nat, j: nat, f: nat)
    requires EntriesSized(issued) && i <= j <= |issued|
    requires forall k :: i <= k < j ==> issued[k].index.file != f
    ensures Content(issued[..i], f) == Content(issued[..j], f)
    decreases j - i
  {
    if i < j {
      SameContent(issued, i, j - 1, f);
      assert issued[..j][..j - 1] == issued[..j - 1];
    }
  }

  // ---------------------------------------------------------------- every step keeps this

  ghost function Issues(batch: seq<Entry>, file: nat, offset: nat, n: nat): (r: seq<Issued>)
    requires n <= |batch| && AllSized(batch)
    ensures |r| == n
  {
    if n == 0 then []
    else
      Issues(batch, file, offset, n - 1)
      + [Issued(IndexFor(batch[n - 1], file, offset + |Buffer(batch, n - 1)|), batch[n - 1])]
  }

  /** What is recorded as issued is what the writer returned, entry by entry. */
  lemma {:induction false} IssuesAreReturned(batch: seq<Entry>, file: nat, offset: nat, n: nat, i: nat)
    requires i < n <= |batch| && AllSized(batch)
    ensures Issues(batch, file, offset, n)[i] == Issued(Indexes(batch, file, offset, n)[i], batch[i])
  {
    if i < n - 1 { IssuesAreReturned(batch, file, offset, n - 1, i); }
  }

  lemma {:induction false} ContentMore(issued: seq<Issued>, x: Issued, f: nat)
    requires EntriesSized(issued) && Sized(x.entry)
    ensures Content(issued + [x], f) == Content(issued, f) + if x.index.file == f then RecordBytes(x.entry) else []
  {
    assert (issued + [x])[..|issued|] == issued;
  }

  lemma {:induction false} PlacedMore(issued: seq<Issued>, x: Issued, i: nat)
    requires EntriesSized(issued) && Sized(x.entry) && i < |issued| && Placed(issued, i)
    ensures Placed(issued + [x], i)
  {
    assert (issued + [x])[..i] == issued[..i];
  }

  lemma {:induction false} OneTiled(l: Log, issued: seq<Issued>, e: Entry)
    requires Inv(l, issued) && Sized(e)
    ensures Tiled(Put(l, RecordBytes(e)), issued + [Issued(IndexFor(e, l.active, l.offset), e)])
  {
    var x := Issued(IndexFor(e, l.active, l.offset), e);
    forall f: nat
      ensures Content(issued + [x], f) == Content(issued, f) + if x.index.file == f then RecordBytes(e) else []
    {
      ContentMore(issued, x, f);
    }
  }

  lemma {:induction false} OneKeeps(l: Log, issued: seq<Issued>, e: Entry)
    requires Inv(l, issued) && Sized(e)
    ensures Inv(Put(l, RecordBytes(e)), issued + [Issued(IndexFor(e, l.active, l.offset), e)])
  {
    var x := Issued(IndexFor(e, l.active, l.offset), e);
    OneTiled(l, issued, e);
    forall i: nat | i < |issued| + 1 ensures Placed(issued + [x], i) {
      if i < |issued| {
        PlacedMore(issued, x, i);
      } else {
        assert (issued + [x])[..i] == issued;
      }
    }
  }

  lemma PutTwice(l: Log, a: seq<byte>, b: seq<byte>)
    ensures Put(Put(l, a), b) == Put(l, a + b)
  {
    var was := if l.active in l.files then l.files[l.active] else [];
    assert was + a + b == was + (a + b);
  }

  /** Writing a batch record by record. */
  ghost function OneByOne(h: History, batch: seq<Entry>, n: nat): History
    requires AllSized(batch) && n <= |batch|
  {
    if n == 0 then h
    else
      var before, e := OneByOne(h, batch, n - 1), batch[n - 1];
      History(Put(before.l, RecordBytes(e)), before.issued + [Issued(IndexFor(e, before.l.active, before.l.offset), e)])
  }

  lemma {:induction false} OneByOneKeeps(h: History, batch: seq<Entry>, n: nat)
    requires Inv(h.l, h.issued) && AllSized(batch) && n <= |batch|
    ensures Inv(OneByOne(h, batch, n).l, OneByOne(h, batch, n).issued)
  {
    if n > 0 {
      var before := OneByOne(h, batch, n - 1);
      OneByOneKeeps(h, batch, n - 1);
      OneKeeps(before.l, before.issued, batch[n - 1]);
    }
  }

  /** Writing it at once comes to the same. */
  lemma {:induction false} OneByOneLog(h: History, batch: seq<Entry>, n: nat)
    requires h.l.active in h.l.files && AllSized(batch) && n <= |batch|
    ensures OneByOne(h, batch, n).l == Put(h.l, Buffer(batch, n))
  {
    if n == 0 {
      assert h.l.files[h.l.active] + [] == h.l.files[h.l.active];
      assert Put(h.l, []) == h.l;
    } else {
      OneByOneLog(h, batch, n - 1);
      PutTwice(h.l, Buffer(batch, n - 1), RecordBytes(batch[n - 1]));
    }
  }

  lemma {:induction false} OneByOneIssued(h: History, batch: seq<Entry>, n: nat)
    requires h.l.active in h.l.files && AllSized(batch) && n <= |batch|
    ensures OneByOne(h, batch, n).issued == h.issued + Issues(batch, h.l.active, h.l.offset, n)
  {
    if n == 0 {
      assert h.issued + [] == h.issued;
    } else {
      OneByOneIssued(h, batch, n - 1);
      OneByOneStep(h, batch, n);
      SnocAgain(h.issued, Issues(batch, h.l.active, h.l.offset, n - 1), NthIssued(h.l, batch, n));
    }
  }

  /** The `n`th record of a batch. */
  ghost function NthIssued(l: Log, batch: seq<Entry>, n: nat): Issued
    requires AllSized(batch) && 0 < n <= |batch|
  {
    Issued(IndexFor(batch[n - 1], l.active, l.offset + |Buffer(batch, n - 1)|), batch[n - 1])
  }

  lemma {:induction false} OneByOneStep(h: History, batch: seq<Entry>, n: nat)
    requires h.l.active in h.l.files && AllSized(batch) && 0 < n <= |batch|
    ensures OneByOne(h, batch, n).issued == OneByOne(h, batch, n - 1).issued + [NthIssued(h.l, batch, n)]
  {
    OneByOneLog(h, batch, n - 1);
  }

  lemma SnocAgain<T>(a: seq<T>, b: seq<T>, x: T)
    ensures a + b + [x] == a + (b + [x])
  {
  }

  lemma RolledKeeps(l: Log, issued: seq<Issued>, len: nat)
    requires Inv(l, issued)
    ensures Inv(Rolled(l, len), issued)
  {
  }

  lemma OpenedKeeps(l: Log, issued: seq<Issued>, limit: nat)
    requires Inv(l, issued)
    ensures Inv(Opened(l.files, limit), issued)
  {
  }

  // ---------------------------------------------------------------- whole runs

  datatype Event = Batch(entries: seq<Entry>) | Reopen(limit: nat)

  ghost predicate Legal(events: seq<Event>) {
    forall i :: 0 <= i < |events| && events[i].Batch? ==> AllSized(events[i].entries)
  }

  ghost function Next(h: History, e: Event): History
    requires e.Batch? ==> AllSized(e.entries)
  {
    match e
    case Reopen(limit) => h.(l := Opened(h.l.files, limit))
    case Batch(entries) =>
      if entries == [] then h
      else
        var r := Rolled(h.l, BatchLen(entries));
        History(Written(h.l, entries).0, h.issued + Issues(entries, r.active, r.offset, |entries|))
  }

  ghost function Run(h: History, events: seq<Event>): History
    requires Legal(events)
  {
    if events == [] then h else Next(Run(h, events[..|events| - 1]), events[|events| - 1])
  }

  lemma {:induction false} NextKeeps(h: History, e: Event)
    requires Inv(h.l, h.issued) && (e.Batch? ==> AllSized(e.entries))
    ensures Inv(Next(h, e).l, Next(h, e).issued)
  {
    match e
    case Reopen(limit) => OpenedKeeps(h.l, h.issued, limit);
    case Batch(entries) =>
      if entries != [] {
        var r := h.(l := Rolled(h.l, BatchLen(entries)));
        RolledKeeps(h.l, h.issued, BatchLen(entries));
        OneByOneKeeps(r, entries, |entries|);
        OneByOneLog(r, entries, |entries|);
        OneByOneIssued(r, entries, |entries|);
      }
  }

  lemma {:induction false} RunKeeps(h: History, events: seq<Event>)
    requires Inv(h.l, h.issued) && Legal(events)
    ensures Inv(Run(h, events).l, Run(h, events).issued)
  {
    if events != [] {
      RunKeeps(h, events[..|events| - 1]);
      NextKeeps(Run(h, events[..|events| - 1]), events[|events| - 1]);
    }
  }

  /** From an empty directory, after any batches, rollovers and reopenings, every index ever returned reads back. */
  lemma {:induction false} EveryRunReadsBack(limit: nat, events: seq<Event>, i: nat)
    requires Legal(events) && i < |Run(History(Opened(map[], limit), []), events).issued|
    ensures var h := Run(History(Opened(map[], limit), []), events);
            Read(h.l.files, h.issued[i].index) == Expected(h.issued[i].entry)
  {
    var start := History(Opened(map[], limit), []);
    RunKeeps(start, events);
    ReadsBack(Run(start, events).l, Run(start, events).issued, i);
  }

  /** In every run, records of one file follow each other without overlap or gap. */
  lemma {:induction false} EveryRunIsContiguous(limit: nat, events: seq<Event>, i: nat, j: nat)
    requires Legal(events) && i < j < |Run(History(Opened(map[], limit), []), events).issued|
    requires var issued := Run(History(Opened(map[], limit), []), events).issued;
             issued[i].index.file == issued[j].index.file
    ensures var issued := Run(History(Opened(map[], limit), []), events).issued;
            && issued[i].index.offset + issued[i].index.len <= issued[j].index.offset
            && ((forall k :: i < k < j ==> issued[k].index.file != issued[i].index.file) ==>
                  issued[i].index.offset + issued[i].index.len == issued[j].index.offset)
  {
    var start := History(Opened(map[], limit), []);
    RunKeeps(start, events);
    var issued := Run(start, events).issued;
    assert Placed(issued, i) && Placed(issued, j);
    RecordsAreContiguous(issued, i, j);
  }

  // ---------------------------------------------------------------- the writer

  class EntryLogWriter {
    var files: map<nat, seq<byte>>
    var active: nat
    var offset: nat
    const limit: nat

    function View(): Log
      reads this
    {
      Log(files, active, offset, limit)
    }

    constructor (existing: map<nat, seq<byte>>, sizeLimit: nat)
      ensures View() == Opened(existing, sizeLimit)
    {
      var id := NextFile(existing);
      files, active, offset, limit := existing[id := []], id, 0, sizeLimit;
    }

    method RollOver(len: nat)
      modifies this
      ensures View() == Rolled(old(View()), len)
    {
      if offset > 0 && offset + len > limit {
        active := active + 1;
        offset := 0;
        files := files[active := []];
      }
    }

    /** One write for the whole batch; each entry's index is its place in the file. */
    method WriteBatch(batch: seq<Entry>) returns (indexes: seq<Index>)
      requires AllSized(batch)
      modifies this
      ensures (View(), indexes) == Written(old(View()), batch)
    {
      if batch == [] { return []; }
      var len := TotalLen(batch);
      RollOver(len);
      var buffer: seq<byte>;
      buffer, indexes := Assemble(batch, active, offset);
      files := files[active := (if active in files then files[active] else []) + buffer];
      offset := offset + |buffer|;
    }
  }

  method TotalLen(batch: seq<Entry>) returns (len: nat)
    ensures len == BatchLen(batch)
  {
    len := 0;
    var i := 0;
    while i < |batch|
      invariant i <= |batch| && len == BatchLen(batch[..i])
    {
      assert batch[..i + 1][..i] == batch[..i];
      len := len + HEADER + |batch[i].metadata| + |batch[i].payload|;
      i := i + 1;
    }
    assert batch[..i] == batch;
  }

  method Assemble(batch: seq<Entry>, file: nat, start: nat) returns (buffer: seq<byte>, indexes: seq<Index>)
    requires AllSized(batch)
    ensures buffer == Buffer(batch, |batch|) && indexes == Indexes(batch, file, start, |batch|)
  {
    buffer, indexes := [], [];
    var cursor := start;
    var i := 0;
    while i < |batch|
      invariant i <= |batch| && cursor == start + |buffer|
      invariant buffer == Buffer(batch, i) && indexes == Indexes(batch, file, start, i)
    {
      var e := batch[i];
      RecordSize(e);
      indexes := indexes +
          [Index(e.ledger, e.id, file, cursor, RecordLen(e), ChecksumOf(e.metadata, e.payload), e.partition)];
      buffer := buffer + RecordBytes(e);
      cursor := cursor + RecordLen(e);
      i := i + 1;
    }
  }
}
