/**
 The Pulsar frame codec, as in section "Framing" of the Apache Pulsar binary protocol
 specification: simple commands and message commands with metadata and payload. A serialized
 command is an opaque byte string.
 */
module FrameCodec {
  import opened Base
  import opened Bytes

  const MAGIC := 0x0e01
  const MAX_FRAME := 5 * 1024 * 1024 + 10 * 1024

  datatype Frame = Frame(command: seq<byte>, metadata: Option<seq<byte>>, payload: seq<byte>, checksum: Option<nat>)

  /** What one decoding attempt finds at the front of the buffer. */
  datatype Step = More | Bad | Got(frame: Frame, rest: seq<byte>)

  // ---------------------------------------------------------------- encoding

  function EncodeCommand(command: seq<byte>): seq<byte> {
    Layout([ToBE(4 + |command|, 4), ToBE(|command|, 4)], command)
  }

  function MessageSize(command: seq<byte>, metadata: seq<byte>, payload: seq<byte>): nat {
    4 + |command| + 4 + |metadata| + |payload|
  }

  /** Header, metadata and payload of a message command; empty metadata is replaced by `synthesized`. */
  function EncodeMessage(command: seq<byte>, metadata: seq<byte>, synthesized: seq<byte>,
                         payload: seq<byte>): seq<byte> {
    EncodePlain(command, if metadata == [] then synthesized else metadata, payload)
  }

  function EncodePlain(command: seq<byte>, metadata: seq<byte>, payload: seq<byte>): seq<byte> {
    Layout([ToBE(MessageSize(command, metadata, payload), 4), ToBE(|command|, 4), command, ToBE(|metadata|, 4)],
           metadata + payload)
  }

  /** A message command as clients send it, with a checksum. */
  function EncodeChecksummed(command: seq<byte>, checksum: nat, metadata: seq<byte>, payload: seq<byte>): seq<byte> {
    Layout([ToBE(MessageSize(command, metadata, payload) + 6, 4), ToBE(|command|, 4), command,
            ToBE(MAGIC, 2), ToBE(checksum, 4), ToBE(|metadata|, 4)], metadata + payload)
  }

  // ---------------------------------------------------------------- decoding

  function Content(command: seq<byte>, checksum: Option<nat>, b: seq<byte>): Frame {
    if |b| < 4 then Frame(command, None, b, checksum)
    else
      var size, rest := FromBE(b[..4]), b[4..];
      if |rest| >= size then Frame(command, Some(rest[..size]), rest[size..], checksum)
      else Frame(command, None, rest, checksum)
  }

  /** What follows the command: an optional checksum, then metadata and payload. */
  function AfterCommand(command: seq<byte>, b: seq<byte>): Frame {
    if |b| >= 6 && FromBE(b[..2]) == MAGIC then Content(command, Some(FromBE(b[2..6])), b[6..])
    else Content(command, None, b)
  }

  /** A complete frame without its total size. */
  function Inside(b: seq<byte>): Option<Frame> {
    if |b| < 4 then None
    else
      var size, rest := FromBE(b[..4]), b[4..];
      if |rest| < size then None else Some(AfterCommand(rest[..size], rest[size..]))
  }

  function Decode(b: seq<byte>): Step {
    if |b| < 4 then More
    else
      var total := FromBE(b[..4]);
      if total > MAX_FRAME then Bad
      else if |b| < 4 + total then More
      else match Inside(b[4..4 + total])
        case None => Bad
        case Some(frame) => Got(frame, b[4 + total..])
  }

  // ---------------------------------------------------------------- decoding what was encoded

  /** A size prefix in front of anything. */
  lemma {:induction false} PrefixRead(x: nat, rest: seq<byte>)
    requires x < U32_LIMIT
    ensures var b := ToBE(x, 4) + rest; |b| >= 4 && FromBE(b[..4]) == x && b[4..] == rest
  {
    Widths();
    BERoundTrip(x, 4);
    assert (ToBE(x, 4) + rest)[..4] == ToBE(x, 4);
  }

  lemma {:induction false} InsideRead(command: seq<byte>, after: seq<byte>)
    requires |command| < U32_LIMIT
    ensures Inside(ToBE(|command|, 4) + (command + after)) == Some(AfterCommand(command, after))
  {
    PrefixRead(|command|, command + after);
    assert (command + after)[..|command|] == command && (command + after)[|command|..] == after;
  }

  lemma {:induction false} Front(a: seq<byte>, rest: seq<byte>, more: seq<byte>)
    ensures (a + rest + more)[..|a|] == a && (a + rest + more)[|a|..] == rest + more
  {
  }

  /** A buffer that starts with a size-prefixed body. */
  lemma {:induction false} DecodeOf(b: seq<byte>, body: seq<byte>, frame: Frame, more: seq<byte>)
    requires |b| >= 4 && FromBE(b[..4]) == |body| && b[4..] == body + more
    requires |body| <= MAX_FRAME ==> Inside(body) == Some(frame)
    ensures Decode(b) == if |body| <= MAX_FRAME then Got(frame, more) else Bad
  {
    assert b[4..4 + |body|] == b[4..][..|body|] == body;
    assert b[4 + |body|..] == b[4..][|body|..] == more;
  }

  /** Decoding gives `frame` and leaves `more` exactly within the limit; a size that fits its field but not the limit
      is refused. */
  predicate Delivers(b: seq<byte>, size: nat, frame: Frame, more: seq<byte>) {
    (Decode(b) == Got(frame, more) <==> size <= 5_253_120) && (5_253_120 < size < U32_LIMIT ==> Decode(b).Bad?)
  }

  /** A body over the limit is never consumed whole, whatever its size field says. */
  lemma {:induction false} TooLong(prefix: seq<byte>, body: seq<byte>, more: seq<byte>)
    requires |prefix| == 4 && |body| > MAX_FRAME
    ensures Decode(prefix + body + more).Got? ==> Decode(prefix + body + more).rest != more
  {
    var b := prefix + body + more;
    if Decode(b).Got? { assert |Decode(b).rest| == |b| - 4 - FromBE(b[..4]); }
  }

  lemma {:induction false} SizedRead(size: nat, body: seq<byte>, frame: Frame, more: seq<byte>)
    requires size == |body| < U32_LIMIT && (size <= MAX_FRAME ==> Inside(body) == Some(frame))
    ensures Decode(ToBE(size, 4) + body + more) == if size <= MAX_FRAME then Got(frame, more) else Bad
  {
    Front(ToBE(size, 4), body, more);
    Widths();
    BERoundTrip(size, 4);
    DecodeOf(ToBE(size, 4) + body + more, body, frame, more);
  }

  /** A framed command and what follows it. */
  lemma {:induction false} FrameRead(size: nat, command: seq<byte>, after: seq<byte>, frame: Frame, more: seq<byte>)
    requires size == 4 + |command| + |after| && (size <= MAX_FRAME ==> AfterCommand(command, after) == frame)
    ensures Delivers(ToBE(size, 4) + (ToBE(|command|, 4) + (command + after)) + more, size, frame, more)
  {
    var body := ToBE(|command|, 4) + (command + after);
    if size < U32_LIMIT {
      InsideRead(command, after);
      SizedRead(size, body, frame, more);
    } else {
      TooLong(ToBE(size, 4), body, more);
    }
  }

  /** A metadata length within the frame limit never starts with the checksum magic. */
  lemma {:induction false} LengthIsNotMagic(n: nat, rest: seq<byte>)
    requires n <= MAX_FRAME
    ensures FromBE((ToBE(n, 4) + rest)[..2]) != MAGIC
  {
    var hi := n / 256 / 256;
    assert ToBE(n, 4) == ToBE(n / 256, 3) + [(n % 256) as byte];
    assert ToBE(n / 256, 3) == ToBE(hi, 2) + [(n / 256 % 256) as byte];
    assert (ToBE(n, 4) + rest)[..2] == ToBE(hi, 2);
    BERoundTrip(hi, 2);
    assert hi <= MAX_FRAME / 256 / 256;
  }

  lemma {:induction false} ContentRead(command: seq<byte>, checksum: Option<nat>, metadata: seq<byte>,
                                       payload: seq<byte>)
    requires |metadata| < U32_LIMIT
    ensures Content(command, checksum, ToBE(|metadata|, 4) + (metadata + payload))
            == Frame(command, Some(metadata), payload, checksum)
  {
    PrefixRead(|metadata|, metadata + payload);
    assert (metadata + payload)[..|metadata|] == metadata && (metadata + payload)[|metadata|..] == payload;
  }

  /** A command followed by any bytes comes back alone, exactly when it is within the limit. */
  lemma {:induction false} CommandRoundTrip(command: seq<byte>, more: seq<byte>)
    ensures Delivers(EncodeCommand(command) + more, 4 + |command|, Frame(command, None, [], None), more)
  {
    LayoutTwo(ToBE(4 + |command|, 4), ToBE(|command|, 4), command);
    assert command + [] == command;
    FrameRead(4 + |command|, command, [], Frame(command, None, [], None), more);
  }

  lemma {:induction false} LayoutTwo(a: seq<byte>, b: seq<byte>, tail: seq<byte>)
    ensures Layout([a, b], tail) == a + (b + tail)
  {
    assert Layout([b], tail) == b + tail;
  }

  lemma {:induction false} LayoutFour(a: seq<byte>, b: seq<byte>, c: seq<byte>, d: seq<byte>, tail: seq<byte>)
    ensures Layout([a, b, c, d], tail) == a + (b + (c + (d + tail)))
  {
    assert Layout([d], tail) == d + tail;
    assert Layout([c, d], tail) == c + Layout([d], tail);
    assert Layout([b, c, d], tail) == b + Layout([c, d], tail);
  }

  /** What follows the command in a plain message. */
  function PlainRest(metadata: seq<byte>, payload: seq<byte>): (b: seq<byte>)
    ensures |b| == 4 + |metadata| + |payload|
  {
    ToBE(|metadata|, 4) + (metadata + payload)
  }

  /** What follows the command in a checksummed message. */
  function CheckedRest(checksum: nat, metadata: seq<byte>, payload: seq<byte>): (b: seq<byte>)
    ensures |b| == 10 + |metadata| + |payload|
  {
    ToBE(MAGIC, 2) + (ToBE(checksum, 4) + PlainRest(metadata, payload))
  }

  lemma {:induction false} PlainLayout(command: seq<byte>, metadata: seq<byte>, payload: seq<byte>)
    ensures EncodePlain(command, metadata, payload) ==
            ToBE(MessageSize(command, metadata, payload), 4)
            + (ToBE(|command|, 4) + (command + PlainRest(metadata, payload)))
  {
    LayoutFour(ToBE(MessageSize(command, metadata, payload), 4), ToBE(|command|, 4), command, ToBE(|metadata|, 4),
               metadata + payload);
  }

  lemma {:induction false} PlainRoundTrip(command: seq<byte>, metadata: seq<byte>, payload: seq<byte>, more: seq<byte>)
    ensures Delivers(EncodePlain(command, metadata, payload) + more, MessageSize(command, metadata, payload),
                     Frame(command, Some(metadata), payload, None), more)
  {
    var size := MessageSize(command, metadata, payload);
    PlainLayout(command, metadata, payload);
    if size <= MAX_FRAME { PlainAfter(command, metadata, payload); }
    FrameRead(size, command, PlainRest(metadata, payload), Frame(command, Some(metadata), payload, None), more);
  }

  /** A message followed by any bytes comes back with its metadata and payload, exactly when it is within the limit. */
  lemma {:induction false} MessageRoundTrip(command: seq<byte>, metadata: seq<byte>, synthesized: seq<byte>,
                                            payload: seq<byte>, more: seq<byte>)
    ensures var m := if metadata == [] then synthesized else metadata;
            Delivers(EncodeMessage(command, metadata, synthesized, payload) + more, MessageSize(command, m, payload),
                     Frame(command, Some(m), payload, None), more)
  {
    PlainRoundTrip(command, if metadata == [] then synthesized else metadata, payload, more);
  }

  lemma {:induction false} PlainAfter(command: seq<byte>, metadata: seq<byte>, payload: seq<byte>)
    requires |metadata| <= MAX_FRAME
    ensures AfterCommand(command, PlainRest(metadata, payload)) == Frame(command, Some(metadata), payload, None)
  {
    LengthIsNotMagic(|metadata|, metadata + payload);
    ContentRead(command, None, metadata, payload);
  }

  lemma {:induction false} CheckedAfter(command: seq<byte>, checksum: nat, metadata: seq<byte>, payload: seq<byte>)
    requires |metadata| < U32_LIMIT && checksum < U32_LIMIT
    ensures AfterCommand(command, CheckedRest(checksum, metadata, payload)) ==
            Frame(command, Some(metadata), payload, Some(checksum))
  {
    var content := ToBE(|metadata|, 4) + (metadata + payload);
    var b := ToBE(MAGIC, 2) + (ToBE(checksum, 4) + content);
    Widths();
    BERoundTrip(MAGIC, 2);
    BERoundTrip(checksum, 4);
    assert b[..2] == ToBE(MAGIC, 2) && b[2..6] == ToBE(checksum, 4) && b[6..] == content;
    ContentRead(command, Some(checksum), metadata, payload);
  }

  lemma {:induction false} LayoutSix(a: seq<byte>, b: seq<byte>, c: seq<byte>, d: seq<byte>, e: seq<byte>, f: seq<byte>,
                                     tail: seq<byte>)
    ensures Layout([a, b, c, d, e, f], tail) == a + (b + (c + (d + (e + (f + tail)))))
  {
    LayoutFour(c, d, e, f, tail);
    assert [b, c, d, e, f][1..] == [c, d, e, f];
    assert Layout([b, c, d, e, f], tail) == b + Layout([c, d, e, f], tail);
    assert [a, b, c, d, e, f][1..] == [b, c, d, e, f];
  }

  lemma {:induction false} CheckedLayout(command: seq<byte>, checksum: nat, metadata: seq<byte>, payload: seq<byte>)
    ensures EncodeChecksummed(command, checksum, metadata, payload) ==
            ToBE(MessageSize(command, metadata, payload) + 6, 4)
            + (ToBE(|command|, 4) + (command + CheckedRest(checksum, metadata, payload)))
  {
    LayoutSix(ToBE(MessageSize(command, metadata, payload) + 6, 4), ToBE(|command|, 4), command,
              ToBE(MAGIC, 2), ToBE(checksum, 4), ToBE(|metadata|, 4), metadata + payload);
  }

  /** A checksummed message comes back with its checksum, exactly when it is within the limit. */
  lemma {:induction false} ChecksummedRoundTrip(command: seq<byte>, checksum: nat, metadata: seq<byte>,
                                                payload: seq<byte>, more: seq<byte>)
    requires checksum < U32_LIMIT
    ensures Delivers(EncodeChecksummed(command, checksum, metadata, payload) + more,
                     MessageSize(command, metadata, payload) + 6,
                     Frame(command, Some(metadata), payload, Some(checksum)), more)
  {
    var size := MessageSize(command, metadata, payload) + 6;
    CheckedLayout(command, checksum, metadata, payload);
    if size <= MAX_FRAME { CheckedAfter(command, checksum, metadata, payload); }
    FrameRead(size, command, CheckedRest(checksum, metadata, payload),
              Frame(command, Some(metadata), payload, Some(checksum)), more);
  }

  // ---------------------------------------------------------------- malformed frames

  /** A complete frame within the limit is refused exactly when its command does not fit into it. */
  lemma {:induction false} BadExact(body: seq<byte>, more: seq<byte>, b: seq<byte>)
    requires |body| <= 5_253_120 && b == ToBE(|body|, 4) + body + more
    ensures Decode(b).Bad? <==> |body| < 4 || FromBE(body[..4]) > |body| - 4
    ensures !Decode(b).Bad? ==> Decode(b).Got? && Decode(b).rest == more
  {
    Front(ToBE(|body|, 4), body, more);
    Widths();
    BERoundTrip(|body|, 4);
    assert b[..4] == ToBE(|body|, 4) && b[4..4 + |body|] == body && b[4 + |body|..] == more;
  }

  /** Without a checksum, content too short for the metadata it announces is taken for payload. */
  lemma {:induction false} ShortContent(command: seq<byte>, after: seq<byte>, more: seq<byte>, b: seq<byte>)
    requires 4 + |command| + |after| <= 5_253_120
    requires b == ToBE(4 + |command| + |after|, 4) + (ToBE(|command|, 4) + (command + after)) + more
    requires |after| < 4 || (FromBE(after[..4]) > |after| - 4 && (|after| < 6 || FromBE(after[..2]) != MAGIC))
    ensures Decode(b) == Got(Frame(command, None, if |after| < 4 then after else after[4..], None), more)
  {
    FrameRead(4 + |command| + |after|, command, after,
              Frame(command, None, if |after| < 4 then after else after[4..], None), more);
  }

  // ---------------------------------------------------------------- on the wire

  /** The total size, then the size of the command and the command. */
  lemma {:induction false} CommandWire(command: seq<byte>)
    ensures var body := ToBE(|command|, 4) + command; EncodeCommand(command) == ToBE(|body|, 4) + body
  {
    LayoutTwo(ToBE(4 + |command|, 4), ToBE(|command|, 4), command);
  }

  /** Then the size of the metadata, the metadata and the payload. */
  lemma {:induction false} PlainWire(command: seq<byte>, metadata: seq<byte>, payload: seq<byte>)
    ensures var body := ToBE(|command|, 4) + command + ToBE(|metadata|, 4) + metadata + payload;
            EncodePlain(command, metadata, payload) == ToBE(|body|, 4) + body
  {
    PlainLayout(command, metadata, payload);
    assert ToBE(|command|, 4) + command + ToBE(|metadata|, 4) + metadata + payload ==
           ToBE(|command|, 4) + (command + PlainRest(metadata, payload));
  }

  lemma MagicBytes()
    ensures ToBE(MAGIC, 2) == [0x0e, 0x01]
  {
    assert ToBE(0x0e, 1) == ToBE(0, 0) + [0x0e];
  }

  /** With a checksum, its two magic bytes and four bytes of checksum come before the metadata. */
  lemma {:induction false} ChecksummedWire(command: seq<byte>, checksum: nat, metadata: seq<byte>, payload: seq<byte>)
    ensures var body := ToBE(|command|, 4) + command + [0x0e, 0x01] + ToBE(checksum, 4) + ToBE(|metadata|, 4) +
                        metadata + payload;
            EncodeChecksummed(command, checksum, metadata, payload) == ToBE(|body|, 4) + body
  {
    CheckedLayout(command, checksum, metadata, payload);
    MagicBytes();
    assert ToBE(|command|, 4) + command + [0x0e, 0x01] + ToBE(checksum, 4) + ToBE(|metadata|, 4) + metadata + payload ==
           ToBE(|command|, 4) + (command + CheckedRest(checksum, metadata, payload));
  }

  // ---------------------------------------------------------------- streams

  /** Everything a buffer yields: its frames, the bytes left over, and whether decoding failed. */
  datatype Drained = Drained(frames: seq<Frame>, rest: seq<byte>, failed: bool)

  lemma {:induction false} GotIsShorter(b: seq<byte>)
    ensures Decode(b).Got? ==> |Decode(b).rest| < |b|
  {
  }

  function Drain(b: seq<byte>): Drained
    decreases |b|
  {
    match Decode(b)
    case More => Drained([], b, false)
    case Bad => Drained([], b, true)
    case Got(frame, rest) =>
      GotIsShorter(b);
      var d := Drain(rest);
      d.(frames := [frame] + d.frames)
  }

  /** Feeding one more chunk; a failed stream stays failed and decodes nothing more. */
  function Feed(d: Drained, chunk: seq<byte>): Drained {
    if d.failed then d.(rest := d.rest + chunk)
    else var next := Drain(d.rest + chunk); next.(frames := d.frames + next.frames)
  }

  function FeedAll(chunks: seq<seq<byte>>): Drained {
    if chunks == [] then Drained([], [], false)
    else Feed(FeedAll(chunks[..|chunks| - 1]), chunks[|chunks| - 1])
  }

  function Joined(chunks: seq<seq<byte>>): seq<byte> {
    if chunks == [] then [] else Joined(chunks[..|chunks| - 1]) + chunks[|chunks| - 1]
  }

  /** More bytes do not change a decision already made. */
  lemma {:induction false} DecodeMore(b: seq<byte>, more: seq<byte>)
    ensures Decode(b).Bad? ==> Decode(b + more).Bad?
    ensures Decode(b).Got? ==> Decode(b + more) == Got(Decode(b).frame, Decode(b).rest + more)
  {
    if |b| >= 4 {
      var total := FromBE(b[..4]);
      assert (b + more)[..4] == b[..4];
      if 4 + total <= |b| {
        assert (b + more)[4..4 + total] == b[4..4 + total];
        assert (b + more)[4 + total..] == b[4 + total..] + more;
      }
    }
  }

  lemma {:induction false} DrainStep(b: seq<byte>, frame: Frame, rest: seq<byte>)
    requires Decode(b) == Got(frame, rest)
    ensures Drain(b) == Drain(rest).(frames := [frame] + Drain(rest).frames)
  {
  }

  lemma {:induction false} FeedAfter(d: Drained, frame: Frame, more: seq<byte>)
    ensures Feed(d.(frames := [frame] + d.frames), more) == Feed(d, more).(frames := [frame] + Feed(d, more).frames)
  {
    var next := Drain(d.rest + more).frames;
    assert [frame] + d.frames + next == [frame] + (d.frames + next);
  }

  /** Draining in two parts yields the same frames. */
  lemma {:induction false} DrainMore(b: seq<byte>, more: seq<byte>)
    ensures Drain(b + more) == Feed(Drain(b), more)
    decreases |b|
  {
    DecodeMore(b, more);
    match Decode(b)
    case More =>
      assert Drain(b) == Drained([], b, false);
      assert [] + Drain(b + more).frames == Drain(b + more).frames;
    case Bad =>
    case Got(frame, rest) =>
      GotIsShorter(b);
      DrainMore(rest, more);
      DrainStep(b, frame, rest);
      DrainStep(b + more, frame, rest + more);
      FeedAfter(Drain(rest), frame, more);
  }

  /** However a stream is cut into chunks, the same frames come out, decoding fails alike and the same bytes are
      left over. */
  lemma {:induction false} ChunksDoNotMatter(chunks: seq<seq<byte>>)
    ensures Drain(Joined(chunks)) == FeedAll(chunks)
  {
    if chunks != [] {
      var n := |chunks| - 1;
      ChunksDoNotMatter(chunks[..n]);
      DrainMore(Joined(chunks[..n]), chunks[n]);
    }
  }

  // ---------------------------------------------------------------- whole streams

  datatype Sent =
    | Command(command: seq<byte>)
    | Message(command: seq<byte>, metadata: seq<byte>, payload: seq<byte>)
    | Checksummed(command: seq<byte>, checksum: nat, metadata: seq<byte>, payload: seq<byte>)

  function Encode(s: Sent): seq<byte> {
    match s
    case Command(command) => EncodeCommand(command)
    case Message(command, metadata, payload) => EncodePlain(command, metadata, payload)
    case Checksummed(command, checksum, metadata, payload) => EncodeChecksummed(command, checksum, metadata, payload)
  }

  predicate Fits(s: Sent) {
    match s
    case Command(command) => 4 + |command| <= MAX_FRAME
    case Message(command, metadata, payload) => MessageSize(command, metadata, payload) <= MAX_FRAME
    case Checksummed(command, checksum, metadata, payload) =>
      MessageSize(command, metadata, payload) + 6 <= MAX_FRAME && checksum < U32_LIMIT
  }

  function FrameOf(s: Sent): Frame {
    match s
    case Command(command) => Frame(command, None, [], None)
    case Message(command, metadata, payload) => Frame(command, Some(metadata), payload, None)
    case Checksummed(command, checksum, metadata, payload) => Frame(command, Some(metadata), payload, Some(checksum))
  }

  function Stream(sent: seq<Sent>): seq<byte> {
    if sent == [] then [] else Encode(sent[0]) + Stream(sent[1..])
  }

  function Frames(sent: seq<Sent>): seq<Frame> {
    if sent == [] then [] else [FrameOf(sent[0])] + Frames(sent[1..])
  }

  lemma {:induction false} SentRoundTrip(s: Sent, more: seq<byte>)
    requires Fits(s)
    ensures Decode(Encode(s) + more) == Got(FrameOf(s), more)
  {
    match s
    case Command(command) => CommandRoundTrip(command, more);
    case Message(command, metadata, payload) => PlainRoundTrip(command, metadata, payload, more);
    case Checksummed(command, checksum, metadata, payload) =>
      ChecksummedRoundTrip(command, checksum, metadata, payload, more);
  }

  lemma {:induction false} StreamRoundTrip(sent: seq<Sent>)
    requires forall i :: 0 <= i < |sent| ==> Fits(sent[i])
    ensures Drain(Stream(sent)) == Drained(Frames(sent), [], false)
  {
    if sent != [] {
      SentRoundTrip(sent[0], Stream(sent[1..]));
      DrainStep(Stream(sent), FrameOf(sent[0]), Stream(sent[1..]));
      StreamRoundTrip(sent[1..]);
    }
  }

  /** However the bytes of a stream arrive, exactly the frames that were sent come out. */
  lemma {:induction false} StreamSurvivesChunking(sent: seq<Sent>, chunks: seq<seq<byte>>)
    requires (forall i :: 0 <= i < |sent| ==> Fits(sent[i])) && Joined(chunks) == Stream(sent)
    ensures FeedAll(chunks) == Drained(Frames(sent), [], false)
  {
    StreamRoundTrip(sent);
    ChunksDoNotMatter(chunks);
  }

  // ---------------------------------------------------------------- the decoder

  lemma {:induction false} FailedStays(chunks: seq<seq<byte>>, i: nat)
    requires i <= |chunks| && FeedAll(chunks[..i]).failed
    ensures FeedAll(chunks).failed && FeedAll(chunks).frames == FeedAll(chunks[..i]).frames
    decreases |chunks|
  {
    if i == |chunks| {
      assert chunks[..i] == chunks;
    } else {
      var n := |chunks| - 1;
      assert chunks[..n][..i] == chunks[..i];
      FailedStays(chunks[..n], i);
    }
  }

  /** The receive buffer that decoding consumes. */
  class FrameDecoder {
    var src: seq<byte>

    constructor ()
      ensures src == []
    {
      src := [];
    }

    method Receive(chunk: seq<byte>)
      modifies this
      ensures src == old(src) + chunk
    {
      src := src + chunk;
    }

    /** A complete frame leaves the buffer even when its content is malformed; an oversized one stays. */
    method DecodeNext() returns (step: Step)
      modifies this
      ensures step == Decode(old(src))
      ensures step.More? ==> src == old(src)
      ensures step.Got? ==> src == step.rest
      ensures step.Bad? ==>
                |old(src)| >= 4
                && src == if FromBE(old(src)[..4]) > MAX_FRAME then old(src) else old(src)[4 + FromBE(old(src)[..4])..]
    {
      if |src| < 4 { return More; }
      var total := FromBE(src[..4]);
      if total > MAX_FRAME { return Bad; }
      if |src| < 4 + total { return More; }
      var data := src[4..4 + total];
      src := src[4 + total..];
      if |data| < 4 { return Bad; }
      var size := FromBE(data[..4]);
      data := data[4..];
      if |data| < size { return Bad; }
      var command := data[..size];
      data := data[size..];
      var checksum: Option<nat> := None;
      if |data| >= 6 && FromBE(data[..2]) == MAGIC {
        checksum := Some(FromBE(data[2..6]));
        data := data[6..];
      }
      var metadata: Option<seq<byte>> := None;
      if |data| >= 4 {
        var metadataSize := FromBE(data[..4]);
        data := data[4..];
        if |data| >= metadataSize {
          metadata := Some(data[..metadataSize]);
          data := data[metadataSize..];
        }
      }
      return Got(Frame(command, metadata, data, checksum), src);
    }

    /** Take in a chunk and decode until more bytes are needed or decoding fails. */
    method Consume(chunk: seq<byte>) returns (frames: seq<Frame>, failed: bool)
      modifies this
      ensures var d := Drain(old(src) + chunk);
              frames == d.frames && failed == d.failed && (!failed ==> src == d.rest)
    {
      Receive(chunk);
      frames, failed := [], false;
      ghost var d := Drain(src);
      while true
        invariant !failed && d == Drain(src).(frames := frames + Drain(src).frames)
        decreases |src|
      {
        GotIsShorter(src);
        var step := DecodeNext();
        match step {
          case More => break;
          case Bad =>
            failed := true;
            break;
          case Got(frame, _) =>
            assert frames + ([frame] + Drain(src).frames) == frames + [frame] + Drain(src).frames;
            frames := frames + [frame];
        }
      }
    }

    /** The frames of a whole stream that arrives in these chunks; nothing is decoded after a failure. */
    method ConsumeAll(chunks: seq<seq<byte>>) returns (frames: seq<Frame>, failed: bool)
      requires src == []
      modifies this
      ensures frames == FeedAll(chunks).frames && failed == FeedAll(chunks).failed
    {
      frames, failed := [], false;
      var i := 0;
      while i < |chunks| && !failed
        invariant i <= |chunks| && frames == FeedAll(chunks[..i]).frames && failed == FeedAll(chunks[..i]).failed
        invariant !failed ==> src == FeedAll(chunks[..i]).rest
      {
        assert chunks[..i + 1][..i] == chunks[..i];
        var more, bad := Consume(chunks[i]);
        frames, failed := frames + more, bad;
        i := i + 1;
      }
      if failed {
        FailedStays(chunks, i);
      } else {
        assert chunks[..i] == chunks;
      }
    }
  }
}
