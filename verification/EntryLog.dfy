/**
 The entry log: length-prefixed, checksummed records appended to numbered files.
 */
module EntryLogs {
  import opened Base
  import opened Bytes

  const MAGIC := 0x504C4547
  const VERSION_LEGACY := 1
  const VERSION := 2
  const HEADER_LEGACY := 40
  const HEADER := 44

  datatype Entry = Entry(ledger: nat, id: nat, partition: int, metadata: seq<byte>, payload: seq<byte>)

  /** Where a record lies and what reading it must find. */
  datatype Index = Index(ledger: nat, id: nat, file: nat, offset: nat, len: nat, checksum: nat, partition: int)

  datatype Record = Record(partition: int, metadata: seq<byte>, payload: seq<byte>)

  /** Ids are `u64` and partitions `i32`. */
  predicate Sized(e: Entry) {
    e.ledger < U64_LIMIT && e.id < U64_LIMIT && -0x8000_0000 <= e.partition < 0x8000_0000
  }

  // ---------------------------------------------------------------- one record

  /** The wrapping sum of the bytes, continued from `acc`. */
  function Checksum(acc: nat, b: seq<byte>): nat
    decreases |b|
  {
    if b == [] then acc else Checksum((acc + b[0] as nat) % U64_LIMIT, b[1..])
  }

  lemma {:induction false} ChecksumFits(acc: nat, b: seq<byte>)
    requires acc < U64_LIMIT
    ensures Checksum(acc, b) < U64_LIMIT
    decreases |b|
  {
    if b != [] { ChecksumFits((acc + b[0] as nat) % U64_LIMIT, b[1..]); }
  }

  function ChecksumOf(metadata: seq<byte>, payload: seq<byte>): nat {
    Checksum(Checksum(0, metadata), payload)
  }

  /** Two's complement. */
  function Bits(partition: int): nat
    requires -0x8000_0000 <= partition < 0x8000_0000
  {
    if partition < 0 then partition + U32_LIMIT else partition
  }

  function Signed(bits: nat): int {
    if bits >= 0x8000_0000 then bits - U32_LIMIT else bits
  }

  function HeaderFields(e: Entry): (f: seq<seq<byte>>)
    requires Sized(e)
    ensures |f| == 9
  {
    [ToLE(MAGIC, 4), ToLE(VERSION, 2), ToLE(HEADER, 2), ToLE(e.ledger, 8), ToLE(e.id, 8), ToLE(Bits(e.partition), 4),
     ToLE(|e.metadata|, 4), ToLE(|e.payload|, 4), ToLE(ChecksumOf(e.metadata, e.payload), 8)]
  }

  function RecordBytes(e: Entry): seq<byte>
    requires Sized(e)
  {
    Layout(HeaderFields(e), e.metadata + e.payload)
  }

  function RecordLen(e: Entry): nat {
    HEADER + |e.metadata| + |e.payload|
  }

  /** A record written before metadata was stored. */
  function LegacyFields(e: Entry): (f: seq<seq<byte>>)
    requires Sized(e)
    ensures |f| == 8
  {
    [ToLE(MAGIC, 4), ToLE(VERSION_LEGACY, 2), ToLE(HEADER_LEGACY, 2), ToLE(e.ledger, 8), ToLE(e.id, 8),
     ToLE(Bits(e.partition), 4), ToLE(|e.payload|, 4), ToLE(ChecksumOf([], e.payload), 8)]
  }

  /** The lengths and checksum a header announces. */
  function Announced(b: seq<byte>, version: nat): (nat, nat, nat)
    requires |b| >= if version == VERSION_LEGACY then HEADER_LEGACY else HEADER
  {
    if version == VERSION_LEGACY then (0, FromLE(b[28..32]), FromLE(b[32..40]))
    else (FromLE(b[28..32]), FromLE(b[32..36]), FromLE(b[36..44]))
  }

  function Body(b: seq<byte>, index: Index, version: nat): Option<Record>
    requires |b| >= if version == VERSION_LEGACY then HEADER_LEGACY else HEADER
  {
    var header := if version == VERSION_LEGACY then HEADER_LEGACY else HEADER;
    var (metadataLen, payloadLen, checksum) := Announced(b, version);
    var end := header + metadataLen + payloadLen;
    if end != index.len || |b| < end then None
    else
      var metadata, payload := b[header..header + metadataLen], b[header + metadataLen..end];
      if ChecksumOf(metadata, payload) != checksum || checksum != index.checksum then None
      else Some(Record(Signed(FromLE(b[24..28])), metadata, payload))
  }

  /** What reading finds in a file's bytes from the record's offset on; `None` is a read error. */
  function Parse(b: seq<byte>, index: Index): Option<Record> {
    if |b| < 8 then None
    else
      var version, header := FromLE(b[4..6]), FromLE(b[6..8]);
      if |b| < header || header < 28 || FromLE(b[..4]) != MAGIC then None
      else if version != VERSION && version != VERSION_LEGACY then None
      else if header != (if version == VERSION_LEGACY then HEADER_LEGACY else HEADER) then None
      else if FromLE(b[8..16]) != index.ledger || FromLE(b[16..24]) != index.id then None
      else Body(b, index, version)
  }

  function Read(files: map<nat, seq<byte>>, index: Index): Option<Record> {
    if index.file !in files || index.offset > |files[index.file]| then None
    else Parse(files[index.file][index.offset..], index)
  }

  // ---------------------------------------------------------------- reading one record back

  lemma SignedBits(p: int)
    requires -0x8000_0000 <= p < 0x8000_0000
    ensures Bits(p) < U32_LIMIT && Signed(Bits(p)) == p
  {
  }

  lemma HeaderOffsets(e: Entry)
    requires Sized(e)
    ensures var f := HeaderFields(e);
            && Offset(f, 0) == 0 && Offset(f, 1) == 4 && Offset(f, 2) == 6 && Offset(f, 3) == 8 && Offset(f, 4) == 16
            && Offset(f, 5) == 24 && Offset(f, 6) == 28 && Offset(f, 7) == 32 && Offset(f, 8) == 36
            && Offset(f, 9) == 44
  {
    var f := HeaderFields(e);
    assert Offset(f, 1) == 4;
    assert Offset(f, 2) == 6;
    assert Offset(f, 3) == 8;
    assert Offset(f, 4) == 16;
    assert Offset(f, 5) == 24;
    assert Offset(f, 6) == 28;
    assert Offset(f, 7) == 32;
    assert Offset(f, 8) == 36;
  }

  /** Every header field is where reading looks for it. */
  lemma HeaderSlices(e: Entry, b: seq<byte>, tail: seq<byte>)
    requires Sized(e) && b == Layout(HeaderFields(e), tail)
    ensures |b| >= HEADER && b[HEADER..] == tail
    ensures b[..4] == ToLE(MAGIC, 4) && b[4..6] == ToLE(VERSION, 2) && b[6..8] == ToLE(HEADER, 2)
    ensures b[8..16] == ToLE(e.ledger, 8) && b[16..24] == ToLE(e.id, 8) && b[24..28] == ToLE(Bits(e.partition), 4)
    ensures b[28..32] == ToLE(|e.metadata|, 4) && b[32..36] == ToLE(|e.payload|, 4)
    ensures b[36..44] == ToLE(ChecksumOf(e.metadata, e.payload), 8)
  {
    var f := HeaderFields(e);
    HeaderOffsets(e);
    TailAt(f, tail);
    FieldAt(f, tail, 0);
    FieldAt(f, tail, 1);
    FieldAt(f, tail, 2);
    FieldAt(f, tail, 3);
    FieldAt(f, tail, 4);
    FieldAt(f, tail, 5);
    FieldAt(f, tail, 6);
    FieldAt(f, tail, 7);
    FieldAt(f, tail, 8);
  }

  lemma HeaderValues(e: Entry, b: seq<byte>, tail: seq<byte>)
    requires Sized(e) && b == Layout(HeaderFields(e), tail)
    ensures |b| >= HEADER && b[HEADER..] == tail
    ensures FromLE(b[..4]) == MAGIC && FromLE(b[4..6]) == VERSION && FromLE(b[6..8]) == HEADER
    ensures FromLE(b[8..16]) == e.ledger && FromLE(b[16..24]) == e.id && Signed(FromLE(b[24..28])) == e.partition
    ensures FromLE(b[28..32]) <= |e.metadata| && (FromLE(b[28..32]) == |e.metadata| <==> |e.metadata| < U32_LIMIT)
    ensures FromLE(b[32..36]) <= |e.payload| && (FromLE(b[32..36]) == |e.payload| <==> |e.payload| < U32_LIMIT)
    ensures FromLE(b[36..44]) == ChecksumOf(e.metadata, e.payload)
  {
    HeaderSlices(e, b, tail);
    Widths();
    SignedBits(e.partition);
    ChecksumFits(0, e.metadata);
    ChecksumFits(Checksum(0, e.metadata), e.payload);
    LERoundTrip(MAGIC, 4);
    LERoundTrip(VERSION, 2);
    LERoundTrip(HEADER, 2);
    LERoundTrip(e.ledger, 8);
    LERoundTrip(e.id, 8);
    LERoundTrip(Bits(e.partition), 4);
    LERoundTrip(|e.metadata|, 4);
    LERoundTrip(|e.payload|, 4);
    LERoundTrip(ChecksumOf(e.metadata, e.payload), 8);
  }

  ghost predicate Describes(index: Index, e: Entry) {
    && index.ledger == e.ledger && index.id == e.id && index.partition == e.partition
    && index.len == RecordLen(e) && index.checksum == ChecksumOf(e.metadata, e.payload)
  }

  lemma BodyParts(b: seq<byte>, m: seq<byte>, p: seq<byte>, more: seq<byte>)
    requires |b| >= HEADER && b[HEADER..] == m + p + more
    ensures HEADER + |m| + |p| <= |b|
    ensures b[HEADER..HEADER + |m|] == m && b[HEADER + |m|..HEADER + |m| + |p|] == p
  {
    Shifted(b[..HEADER], b[HEADER..], 0, |m|);
    Shifted(b[..HEADER], b[HEADER..], |m|, |m| + |p|);
    assert b == b[..HEADER] + b[HEADER..];
  }

  /** A record followed by any bytes reads back unchanged, exactly when both lengths fit 32 bits. */
  lemma RecordRoundTrip(e: Entry, more: seq<byte>, index: Index)
    requires Sized(e) && Describes(index, e)
    ensures Parse(RecordBytes(e) + more, index)
            == if |e.metadata| < U32_LIMIT && |e.payload| < U32_LIMIT
               then Some(Record(e.partition, e.metadata, e.payload)) else None
  {
    var b := RecordBytes(e) + more;
    LayoutThen(HeaderFields(e), e.metadata + e.payload, more);
    HeaderValues(e, b, e.metadata + e.payload + more);
    BodyParts(b, e.metadata, e.payload, more);
  }

  lemma RecordSize(e: Entry)
    requires Sized(e)
    ensures |RecordBytes(e)| == RecordLen(e)
  {
    HeaderOffsets(e);
    TailAt(HeaderFields(e), e.metadata + e.payload);
  }

  lemma FirstBytes()
    ensures ToLE(MAGIC, 4) + ToLE(VERSION, 2) + ToLE(HEADER, 2) == [0x47, 0x45, 0x4C, 0x50, 2, 0, 44, 0]
  {
    assert ToLE(MAGIC, 4) == [0x47, 0x45, 0x4C, 0x50] by {
      assert ToLE(0x50, 1) == [0x50] + ToLE(0, 0);
      assert ToLE(0x504C, 2) == [0x4C] + ToLE(0x50, 1);
      assert ToLE(0x504C45, 3) == [0x45] + ToLE(0x504C, 2);
    }
    assert ToLE(VERSION, 2) == [2, 0] by { assert ToLE(0, 1) == [0] + ToLE(0, 0); }
    assert ToLE(HEADER, 2) == [44, 0] by { assert ToLE(0, 1) == [0] + ToLE(0, 0); }
  }

  /** Bytes are the parts they fall into. */
  lemma EightParts(b: seq<byte>, parts: seq<seq<byte>>)
    requires |b| >= 44 && |parts| == 8 && b[..8] == parts[0] && b[8..16] == parts[1] && b[16..24] == parts[2]
    requires b[24..28] == parts[3] && b[28..32] == parts[4] && b[32..36] == parts[5] && b[36..44] == parts[6]
    requires b[44..] == parts[7]
    ensures b == parts[0] + parts[1] + parts[2] + parts[3] + parts[4] + parts[5] + parts[6] + parts[7]
  {
  }

  /** The bytes 47 45 4C 50, version 2 and header size 44, then ids, partition, lengths and checksum, and the bodies. */
  ghost function WireParts(e: Entry): (parts: seq<seq<byte>>)
    requires Sized(e)
    ensures |parts| == 8
  {
    var partition := if e.partition < 0 then e.partition + 0x1_0000_0000 else e.partition;
    [[0x47, 0x45, 0x4C, 0x50, 2, 0, 44, 0], ToLE(e.ledger, 8), ToLE(e.id, 8),
     ToLE(partition, 4), ToLE(|e.metadata|, 4), ToLE(|e.payload|, 4), ToLE(ChecksumOf(e.metadata, e.payload), 8),
     e.metadata + e.payload]
  }

  lemma RecordWire(e: Entry, b: seq<byte>, parts: seq<seq<byte>>)
    requires Sized(e) && b == RecordBytes(e) && parts == WireParts(e)
    ensures b == parts[0] + parts[1] + parts[2] + parts[3] + parts[4] + parts[5] + parts[6] + parts[7]
  {
    HeaderSlices(e, b, e.metadata + e.payload);
    FirstBytes();
    assert b[..8] == parts[0] by { assert b[..8] == b[..4] + b[4..6] + b[6..8]; }
    EightParts(b, parts);
  }

  // ---------------------------------------------------------------- legacy records

  lemma LegacyOffsets(e: Entry)
    requires Sized(e)
    ensures var f := LegacyFields(e);
            && Offset(f, 0) == 0 && Offset(f, 1) == 4 && Offset(f, 2) == 6 && Offset(f, 3) == 8 && Offset(f, 4) == 16
            && Offset(f, 5) == 24 && Offset(f, 6) == 28 && Offset(f, 7) == 32 && Offset(f, 8) == 40
  {
    var f := LegacyFields(e);
    assert Offset(f, 1) == 4;
    assert Offset(f, 2) == 6;
    assert Offset(f, 3) == 8;
    assert Offset(f, 4) == 16;
    assert Offset(f, 5) == 24;
    assert Offset(f, 6) == 28;
    assert Offset(f, 7) == 32;
  }

  lemma LegacySlices(e: Entry, b: seq<byte>, tail: seq<byte>)
    requires Sized(e) && b == Layout(LegacyFields(e), tail)
    ensures |b| >= HEADER_LEGACY && b[HEADER_LEGACY..] == tail
    ensures b[..4] == ToLE(MAGIC, 4) && b[4..6] == ToLE(VERSION_LEGACY, 2) && b[6..8] == ToLE(HEADER_LEGACY, 2)
    ensures b[8..16] == ToLE(e.ledger, 8) && b[16..24] == ToLE(e.id, 8) && b[24..28] == ToLE(Bits(e.partition), 4)
    ensures b[28..32] == ToLE(|e.payload|, 4) && b[32..40] == ToLE(ChecksumOf([], e.payload), 8)
  {
    var f := LegacyFields(e);
    LegacyOffsets(e);
    TailAt(f, tail);
    FieldAt(f, tail, 0);
    FieldAt(f, tail, 1);
    FieldAt(f, tail, 2);
    FieldAt(f, tail, 3);
    FieldAt(f, tail, 4);
    FieldAt(f, tail, 5);
    FieldAt(f, tail, 6);
    FieldAt(f, tail, 7);
  }

  /** A record of the previous version reads back with empty metadata, exactly when its length fits. */
  lemma LegacyRoundTrip(e: Entry, more: seq<byte>, index: Index)
    requires Sized(e) && index.ledger == e.ledger && index.id == e.id
    requires index.len == HEADER_LEGACY + |e.payload| && index.checksum == ChecksumOf([], e.payload)
    ensures Parse(Layout(LegacyFields(e), e.payload) + more, index)
            == if |e.payload| < U32_LIMIT then Some(Record(e.partition, [], e.payload)) else None
  {
    var b := Layout(LegacyFields(e), e.payload) + more;
    LayoutThen(LegacyFields(e), e.payload, more);
    LegacySlices(e, b, e.payload + more);
    Widths();
    SignedBits(e.partition);
    ChecksumFits(0, []);
    ChecksumFits(0, e.payload);
    LERoundTrip(MAGIC, 4);
    LERoundTrip(VERSION_LEGACY, 2);
    LERoundTrip(HEADER_LEGACY, 2);
    LERoundTrip(e.ledger, 8);
    LERoundTrip(e.id, 8);
    LERoundTrip(Bits(e.partition), 4);
    LERoundTrip(|e.payload|, 4);
    LERoundTrip(ChecksumOf([], e.payload), 8);
    Shifted(b[..HEADER_LEGACY], b[HEADER_LEGACY..], 0, |e.payload|);
    assert b == b[..HEADER_LEGACY] + b[HEADER_LEGACY..];
  }
}
