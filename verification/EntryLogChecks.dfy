/**
 What reading an entry log accepts, and what the checksum of a record catches.
 */
module EntryLogChecks {
  import opened Arithmetic
  import opened Base
  import opened Bytes
  import opened EntryLogs

  // ---------------------------------------------------------------- the checksum is a byte sum

  ghost function ByteSum(b: seq<byte>): nat {
    if b == [] then 0 else b[0] as nat + ByteSum(b[1..])
  }

  lemma {:induction false} ChecksumIsSum(acc: nat, b: seq<byte>)
    requires acc < U64_LIMIT
    ensures Checksum(acc, b) == (acc + ByteSum(b)) % 0x1_0000_0000_0000_0000
    decreases |b|
  {
    if b != [] {
      var x := b[0] as nat;
      ChecksumIsSum((acc + x) % U64_LIMIT, b[1..]);
      ModAgain(acc, x, ByteSum(b[1..]), U64_LIMIT);
    }
  }

  /** The checksum of a record is the sum of all its body bytes modulo 2^64. */
  lemma ChecksumOfIsSum(metadata: seq<byte>, payload: seq<byte>)
    ensures ChecksumOf(metadata, payload) == (ByteSum(metadata) + ByteSum(payload)) % 0x1_0000_0000_0000_0000
  {
    ChecksumFits(0, metadata);
    ChecksumIsSum(0, metadata);
    ChecksumIsSum(Checksum(0, metadata), payload);
    SumAgain(Checksum(0, metadata), ChecksumOf(metadata, payload), ByteSum(metadata), ByteSum(payload), U64_LIMIT);
  }

  lemma SumAgain(a: nat, b: nat, s: nat, t: nat, d: nat)
    requires d > 0 && a == s % d && b == (a + t) % d
    ensures b == (s + t) % d
  {
    ModAgain(0, s, t, d);
  }

  // ---------------------------------------------------------------- damaged bodies

  /** The record of `e` with the body bytes replaced by as many others. */
  ghost function Damaged(e: Entry, metadata: seq<byte>, payload: seq<byte>): seq<byte>
    requires Sized(e)
  {
    Layout(HeaderFields(e), metadata + payload)
  }

  /** Both bodies have the same byte sum modulo 2^64. */
  ghost predicate SameSum(metadata: seq<byte>, payload: seq<byte>, e: Entry) {
    (ByteSum(metadata) + ByteSum(payload)) % 0x1_0000_0000_0000_0000 ==
    (ByteSum(e.metadata) + ByteSum(e.payload)) % 0x1_0000_0000_0000_0000
  }

  lemma SameSumExact(metadata: seq<byte>, payload: seq<byte>, e: Entry)
    ensures SameSum(metadata, payload, e) <==> ChecksumOf(metadata, payload) == ChecksumOf(e.metadata, e.payload)
  {
    ChecksumOfIsSum(metadata, payload);
    ChecksumOfIsSum(e.metadata, e.payload);
  }

  lemma BodyReads(e: Entry, metadata: seq<byte>, payload: seq<byte>, b: seq<byte>, index: Index)
    requires |b| >= HEADER + |metadata| + |payload| == index.len && index.checksum == ChecksumOf(e.metadata, e.payload)
    requires b[HEADER..HEADER + |metadata|] == metadata && b[HEADER + |metadata|..index.len] == payload
    requires FromLE(b[28..32]) == |metadata| && FromLE(b[32..36]) == |payload|
    requires FromLE(b[36..44]) == index.checksum && Signed(FromLE(b[24..28])) == e.partition
    ensures Body(b, index, VERSION) == if ChecksumOf(metadata, payload) == ChecksumOf(e.metadata, e.payload)
                                       then Some(Record(e.partition, metadata, payload)) else None
  {
  }

  lemma DamageParses(e: Entry, metadata: seq<byte>, payload: seq<byte>, more: seq<byte>, b: seq<byte>, index: Index)
    requires Sized(e) && Describes(index, e) && |e.metadata| < U32_LIMIT && |e.payload| < U32_LIMIT
    requires |metadata| == |e.metadata| && |payload| == |e.payload| && b == Damaged(e, metadata, payload) + more
    ensures Parse(b, index) == if ChecksumOf(metadata, payload) == ChecksumOf(e.metadata, e.payload)
                               then Some(Record(e.partition, metadata, payload)) else None
  {
    LayoutThen(HeaderFields(e), metadata + payload, more);
    HeaderValues(e, b, metadata + payload + more);
    BodyParts(b, metadata, payload, more);
    BodyReads(e, metadata, payload, b, index);
    assert Parse(b, index) == Body(b, index, VERSION);
  }

  /** Reading refuses a damaged body exactly when the damage changes the byte sum modulo 2^64. */
  lemma DamageExact(e: Entry, metadata: seq<byte>, payload: seq<byte>, more: seq<byte>, b: seq<byte>, index: Index)
    requires Sized(e) && Describes(index, e) && |e.metadata| < U32_LIMIT && |e.payload| < U32_LIMIT
    requires |metadata| == |e.metadata| && |payload| == |e.payload| && b == Damaged(e, metadata, payload) + more
    ensures Parse(b, index) ==
            if SameSum(metadata, payload, e) then Some(Record(e.partition, metadata, payload)) else None
  {
    SameSumExact(metadata, payload, e);
    DamageParses(e, metadata, payload, more, b, index);
  }

  lemma {:induction false} SumUpdate(b: seq<byte>, i: nat, x: byte)
    requires i < |b|
    ensures ByteSum(b[i := x]) == ByteSum(b) - b[i] as nat + x as nat
  {
    if i == 0 {
      assert b[i := x][1..] == b[1..];
    } else {
      SumUpdate(b[1..], i - 1, x);
      assert b[i := x][1..] == b[1..][i - 1 := x];
    }
  }

  lemma ChangedByteChangesSum(e: Entry, i: nat, x: byte)
    requires i < |e.payload| && x != e.payload[i]
    ensures !SameSum(e.metadata, e.payload[i := x], e)
  {
    var s, t := ByteSum(e.metadata) + ByteSum(e.payload), ByteSum(e.metadata) + ByteSum(e.payload[i := x]);
    SumUpdate(e.payload, i, x);
    if x < e.payload[i] {
      SmallChange(t, s - t, U64_LIMIT);
    } else {
      SmallChange(s, t - s, U64_LIMIT);
    }
  }

  /** A changed payload byte is always refused. */
  lemma ChangedByteIsRefused(e: Entry, i: nat, x: byte, more: seq<byte>, b: seq<byte>, index: Index)
    requires Sized(e) && Describes(index, e) && |e.metadata| < U32_LIMIT && |e.payload| < U32_LIMIT
    requires i < |e.payload| && x != e.payload[i] && b == Damaged(e, e.metadata, e.payload[i := x]) + more
    ensures Parse(b, index) == None
  {
    ChangedByteChangesSum(e, i, x);
    DamageExact(e, e.metadata, e.payload[i := x], more, b, index);
  }

  /** Two swapped bytes are not noticed. */
  lemma SwappedBytesPass(e: Entry, x: byte, y: byte, more: seq<byte>, b: seq<byte>, index: Index)
    requires Sized(e) && Describes(index, e) && e.metadata == [] && e.payload == [x, y]
    requires b == Damaged(e, [], [y, x]) + more
    ensures Parse(b, index) == Some(Record(e.partition, [], [y, x]))
  {
    assert [x, y][1..] == [y] && [y, x][1..] == [x] && [x][1..] == [] && [y][1..] == [];
    assert ByteSum([x]) == x as nat && ByteSum([y]) == y as nat;
    DamageExact(e, [], [y, x], more, b, index);
  }

  // ---------------------------------------------------------------- nothing else is accepted

  lemma BitsSigned(x: nat)
    requires x < U32_LIMIT
    ensures -0x8000_0000 <= Signed(x) < 0x8000_0000 && Bits(Signed(x)) == x
  {
  }

  /** The entry a reader takes the bytes for. */
  ghost function EntryFor(index: Index, r: Record): Entry {
    Entry(index.ledger, index.id, r.partition, r.metadata, r.payload)
  }

  /** The header fields of an accepted record. */
  ghost predicate HasHeader(b: seq<byte>, e: Entry) {
    && |b| >= 44 && b[..4] == ToLE(MAGIC, 4) && b[4..6] == ToLE(VERSION, 2) && b[6..8] == ToLE(HEADER, 2)
    && b[8..16] == ToLE(e.ledger, 8) && b[16..24] == ToLE(e.id, 8)
    && -0x8000_0000 <= e.partition < 0x8000_0000 && b[24..28] == ToLE(Bits(e.partition), 4)
    && b[28..32] == ToLE(|e.metadata|, 4) && b[32..36] == ToLE(|e.payload|, 4)
    && b[36..44] == ToLE(ChecksumOf(e.metadata, e.payload), 8)
  }

  lemma FieldIs(b: seq<byte>, lo: nat, hi: nat, x: nat)
    requires lo <= hi <= |b| && FromLE(b[lo..hi]) == x
    ensures x < Pow256(hi - lo) && b[lo..hi] == ToLE(x, hi - lo)
  {
    LEInverse(b[lo..hi]);
  }

  /** Where an accepted record has its bodies, and what its index says. */
  ghost predicate HasBodies(b: seq<byte>, e: Entry, index: Index) {
    && index.len == RecordLen(e) <= |b| && index.checksum == ChecksumOf(e.metadata, e.payload)
    && b[44..44 + |e.metadata|] == e.metadata && b[44 + |e.metadata|..index.len] == e.payload
  }

  lemma AcceptedBodies(b: seq<byte>, index: Index, r: Record)
    requires Parse(b, index) == Some(r) && FromLE(b[4..6]) == VERSION
    ensures |b| >= 44 && HasBodies(b, EntryFor(index, r), index)
    ensures FromLE(b[..4]) == MAGIC && FromLE(b[6..8]) == HEADER
    ensures FromLE(b[8..16]) == index.ledger && FromLE(b[16..24]) == index.id
    ensures Signed(FromLE(b[24..28])) == r.partition
    ensures FromLE(b[28..32]) == |r.metadata| && FromLE(b[32..36]) == |r.payload|
    ensures FromLE(b[36..44]) == index.checksum
  {
  }

  lemma HeaderIs(b: seq<byte>, e: Entry)
    requires |b| >= 44 && FromLE(b[..4]) == MAGIC && FromLE(b[4..6]) == VERSION && FromLE(b[6..8]) == HEADER
    requires FromLE(b[8..16]) == e.ledger && FromLE(b[16..24]) == e.id && Signed(FromLE(b[24..28])) == e.partition
    requires FromLE(b[28..32]) == |e.metadata| && FromLE(b[32..36]) == |e.payload|
    requires FromLE(b[36..44]) == ChecksumOf(e.metadata, e.payload)
    ensures Sized(e) && HasHeader(b, e) && |e.metadata| < U32_LIMIT && |e.payload| < U32_LIMIT
  {
    var checksum := ChecksumOf(e.metadata, e.payload);
    Widths();
    FieldIs(b, 0, 4, MAGIC);
    FieldIs(b, 4, 6, VERSION);
    FieldIs(b, 6, 8, HEADER);
    FieldIs(b, 8, 16, e.ledger);
    FieldIs(b, 16, 24, e.id);
    FieldIs(b, 24, 28, FromLE(b[24..28]));
    BitsSigned(FromLE(b[24..28]));
    FieldIs(b, 28, 32, |e.metadata|);
    FieldIs(b, 32, 36, |e.payload|);
    FieldIs(b, 36, 44, checksum);
  }

  lemma FieldsOfPrefix(b: seq<byte>, p: seq<byte>)
    requires 44 <= |p| && p <= b
    ensures p[8..16] == b[8..16] && p[16..24] == b[16..24] && p[24..28] == b[24..28] && p[28..32] == b[28..32]
    ensures p[32..36] == b[32..36] && p[36..44] == b[36..44]
  {
  }

  lemma HeaderAndBodies(b: seq<byte>, e: Entry, index: Index, record: seq<byte>, parts: seq<seq<byte>>)
    requires Sized(e) && record == RecordBytes(e) && HasHeader(b, e) && HasBodies(b, e, index) && parts == WireParts(e)
    ensures b[..index.len] == record
  {
    var p := b[..index.len];
    RecordWire(e, record, parts);
    FirstBytes();
    assert p[..8] == parts[0] by { assert p[..8] == b[..4] + b[4..6] + b[6..8]; }
    assert p[44..] == parts[7] by { assert p[44..] == b[44..44 + |e.metadata|] + b[44 + |e.metadata|..index.len]; }
    FieldsOfPrefix(b, p);
    EightParts(p, parts);
  }

  /** Whatever reading accepts is the record of the entry it returns, under an index with its ids, length and checksum:
      together with `RecordRoundTrip`, reading is the exact inverse of writing. */
  lemma AcceptsOnlyRecords(b: seq<byte>, index: Index, r: Record, e: Entry)
    requires Parse(b, index) == Some(r) && FromLE(b[4..6]) != VERSION_LEGACY && e == EntryFor(index, r)
    ensures Sized(e) && RecordBytes(e) <= b && Describes(index.(partition := r.partition), e)
    ensures |e.metadata| < U32_LIMIT && |e.payload| < U32_LIMIT
  {
    AcceptedBodies(b, index, r);
    HeaderIs(b, e);
    HeaderAndBodies(b, e, index, RecordBytes(e), WireParts(e));
  }

  /** A record read under any index at all is returned exactly when the index has its ids, length and checksum. */
  lemma OnlyItsIndexReads(e: Entry, more: seq<byte>, b: seq<byte>, index: Index)
    requires Sized(e) && |e.metadata| < U32_LIMIT && |e.payload| < U32_LIMIT && b == RecordBytes(e) + more
    ensures Parse(b, index).Some? <==> Describes(index.(partition := e.partition), e)
    ensures Parse(b, index).Some? ==> Parse(b, index).value == Record(e.partition, e.metadata, e.payload)
  {
    LayoutThen(HeaderFields(e), e.metadata + e.payload, more);
    HeaderValues(e, b, e.metadata + e.payload + more);
    BodyParts(b, e.metadata, e.payload, more);
  }
}
