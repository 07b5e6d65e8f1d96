/** Length-prefixed frames over a byte stream: 4 bytes of payload size, 2 of message
    type and 2 of flags, all big-endian, then the payload. */
module FrameCodec {
  import opened Common

  type u8 = x: int | 0 <= x < 0x100
  type u16 = x: int | 0 <= x < 0x1_0000
  type u32 = x: int | 0 <= x < 0x1_0000_0000
  type Bytes = seq<u8>

  datatype Message = Message(kind: u16, flags: u16, payload: Bytes)
  datatype Header = Header(size: u32, kind: u16, flags: u16)

  const HEADER_SIZE := 8
  const DEFAULT_MAX_PAYLOAD := 1024 * 1024

  // ---------- big-endian numbers ----------

  // A byte shifted left is multiplied, and bytes in different places are added; a
  // number shifted right is divided, and its last byte is the remainder.

  function ReadU16(d: Bytes): u16
    requires |d| == 2
  {
    (d[0] as int) * 0x100 + d[1]
  }

  function ReadU32(d: Bytes): u32
    requires |d| == 4
  {
    (d[0] as int) * 0x100_0000 + (d[1] as int) * 0x1_0000 + (d[2] as int) * 0x100 + d[3]
  }

  function WriteU16(v: u16): (d: Bytes)
    ensures |d| == 2
  {
    [v / 0x100, v % 0x100]
  }

  function WriteU32(v: u32): (d: Bytes)
    ensures |d| == 4
  {
    [v / 0x100_0000, v / 0x1_0000 % 0x100, v / 0x100 % 0x100, v % 0x100]
  }

  lemma U16RoundTrip(v: u16)
    ensures ReadU16(WriteU16(v)) == v
  {
  }

  /** Shifting by 16 and by 24 is shifting by 8 again and again. */
  lemma Shifts(v: nat)
    ensures v / 0x1_0000 == v / 0x100 / 0x100
    ensures v / 0x100_0000 == v / 0x100 / 0x100 / 0x100
  {
  }

  lemma LastByte(q: nat, r: u8)
    ensures (q * 0x100 + r) / 0x100 == q && (q * 0x100 + r) % 0x100 == r
  {
  }

  lemma U32RoundTrip(v: u32)
    ensures ReadU32(WriteU32(v)) == v
  {
    var a := v / 0x100;
    var b := a / 0x100;
    Shifts(v);
    assert b == b / 0x100 * 0x100 + b % 0x100;
    assert a == b * 0x100 + a % 0x100;
  }

  lemma U16Canonical(d: Bytes)
    requires |d| == 2
    ensures WriteU16(ReadU16(d)) == d
  {
  }

  lemma U32Canonical(d: Bytes)
    requires |d| == 4
    ensures WriteU32(ReadU32(d)) == d
  {
    var a: int := d[0];
    var b := a * 0x100 + d[1];
    var e := b * 0x100 + d[2];
    assert ReadU32(d) == e * 0x100 + d[3];
    Shifts(ReadU32(d));
    LastByte(a, d[1]);
    LastByte(b, d[2]);
    LastByte(e, d[3]);
  }

  // ---------- frames ----------

  function HeaderBytes(h: Header): (d: Bytes)
    ensures |d| == HEADER_SIZE
  {
    WriteU32(h.size) + WriteU16(h.kind) + WriteU16(h.flags)
  }

  function HeaderOf(d: Bytes): Header
    requires |d| == HEADER_SIZE
  {
    Header(ReadU32(d[..4]), ReadU16(d[4..6]), ReadU16(d[6..]))
  }

  /** Header bytes and headers correspond one to one. */
  lemma HeaderRoundTrip(h: Header, d: Bytes)
    requires |d| == HEADER_SIZE
    ensures HeaderBytes(h) == d <==> HeaderOf(d) == h
  {
    hide WriteU16, WriteU32, ReadU16, ReadU32;
    U32RoundTrip(h.size);
    U16RoundTrip(h.kind);
    U16RoundTrip(h.flags);
    U32Canonical(d[..4]);
    U16Canonical(d[4..6]);
    U16Canonical(d[6..]);
    var b := HeaderBytes(h);
    assert b[..4] == WriteU32(h.size) && b[4..6] == WriteU16(h.kind) && b[6..] == WriteU16(h.flags);
    assert d == d[..4] + d[4..6] + d[6..];
  }

  function Frame(m: Message): Bytes
    requires |m.payload| < TWO_TO_THE_32
  {
    HeaderBytes(Header(|m.payload|, m.kind, m.flags)) + m.payload
  }

  /** Encoding refuses payloads over the built-in limit. */
  function Encoded(m: Message): Option<Bytes> {
    if |m.payload| > DEFAULT_MAX_PAYLOAD then None else Some(Frame(m))
  }

  datatype Decoded = Incomplete | TooLarge | Complete(message: Message, rest: Bytes)

  /** The first frame of a buffer, with what follows it. */
  function Decode(b: Bytes, max: nat): Decoded {
    if |b| < HEADER_SIZE then Incomplete
    else
      var h := HeaderOf(b[..HEADER_SIZE]);
      var size := h.size;
      if size > max then TooLarge
      else if |b| < HEADER_SIZE + size then Incomplete
      else Complete(Message(h.kind, h.flags, b[HEADER_SIZE..HEADER_SIZE + size]), b[HEADER_SIZE + size..])
  }

  /** The decoder is the exact inverse of framing: it yields a message and a rest exactly
      if the buffer is the frame of that message, within the limit, followed by the
      rest. */
  lemma DecodeInvertsFrame(b: Bytes, max: nat, m: Message, rest: Bytes)
    requires |m.payload| < TWO_TO_THE_32
    ensures Decode(b, max) == Complete(m, rest) <==> |m.payload| <= max && b == Frame(m) + rest
  {
    hide HeaderBytes, HeaderOf;
    var h := Header(|m.payload|, m.kind, m.flags);
    if |b| >= HEADER_SIZE {
      HeaderRoundTrip(h, b[..HEADER_SIZE]);
      if b == Frame(m) + rest {
        assert b[..HEADER_SIZE] == HeaderBytes(h);
        assert b[HEADER_SIZE..HEADER_SIZE + |m.payload|] == m.payload && b[HEADER_SIZE + |m.payload|..] == rest;
      }
      if Decode(b, max) == Complete(m, rest) {
        assert |m.payload| == HeaderOf(b[..HEADER_SIZE]).size;
        SplitInThree(b, HEADER_SIZE, HEADER_SIZE + |m.payload|);
      }
    }
  }

  lemma SplitInThree(b: Bytes, i: nat, j: nat)
    requires i <= j <= |b|
    ensures b == (b[..i] + b[i..j]) + b[j..]
  {
  }

  /** More bytes do not change what has been decoded or rejected already. */
  lemma DecodeExtends(b: Bytes, x: Bytes, max: nat)
    ensures Decode(b, max).Complete? ==> Decode(b + x, max) == Decode(b, max).(rest := Decode(b, max).rest + x)
    ensures Decode(b, max).TooLarge? ==> Decode(b + x, max).TooLarge?
  {
    hide HeaderOf;
    if |b| >= HEADER_SIZE { assert (b + x)[..HEADER_SIZE] == b[..HEADER_SIZE]; }
  }

  lemma ShorterRest(b: Bytes, max: nat)
    requires Decode(b, max).Complete?
    ensures |Decode(b, max).rest| < |b|
  {
  }

  // ---------- streams ----------

  /** What repeated decoding yields: the messages, the bytes left over, and whether it
      stopped at an oversized frame. */
  datatype Outcome = Outcome(messages: seq<Message>, rest: Bytes, rejected: bool)

  function DecodeAll(b: Bytes, max: nat): Outcome
    decreases |b|
  {
    match Decode(b, max)
    case Incomplete => Outcome([], b, false)
    case TooLarge => Outcome([], b, true)
    case Complete(m, rest) =>
      After([m], DecodeAll(rest, max))
  }

  /** Decoding as chunks arrive: each is appended to what is left over, and decoding
      goes on until it needs more or rejects. */
  function FeedAll(start: Outcome, chunks: seq<Bytes>, max: nat): Outcome
    decreases |chunks|
  {
    if |chunks| == 0 || start.rejected then start
    else
      var more := DecodeAll(start.rest + chunks[0], max);
      FeedAll(After(start.messages, more), chunks[1..], max)
  }

  function Frames(ms: seq<Message>): seq<Bytes>
    requires forall m :: m in ms ==> |m.payload| < TWO_TO_THE_32
  {
    if |ms| == 0 then [] else [Frame(ms[0])] + Frames(ms[1..])
  }

  lemma DecodeAllStep(b: Bytes, max: nat)
    ensures var d := Decode(b, max);
      DecodeAll(b, max) ==
          if d.Complete? then After([d.message], DecodeAll(d.rest, max)) else Outcome([], b, d.TooLarge?)
  {
    hide Decode;
  }

  /** An outcome with earlier messages in front. */
  function After(before: seq<Message>, o: Outcome): Outcome { o.(messages := before + o.messages) }

  lemma AfterAfter(a: seq<Message>, b: seq<Message>, o: Outcome)
    ensures After(a, After(b, o)) == After(a + b, o)
  {
    assert a + (b + o.messages) == (a + b) + o.messages;
  }

  /** Decoding a longer stream goes on where decoding the shorter one stopped. */
  lemma {:induction false} DecodeAllExtends(b: Bytes, x: Bytes, max: nat)
    ensures var now, all := DecodeAll(b, max), DecodeAll(b + x, max);
      if now.rejected then all.rejected && all.messages == now.messages
      else all == After(now.messages, DecodeAll(now.rest + x, max))
    decreases |b|
  {
    DecodeExtends(b, x, max);
    DecodeAllStep(b, max);
    DecodeAllStep(b + x, max);
    if Decode(b, max).Complete? { ShorterRest(b, max); }
    hide Decode, DecodeAll;
    match Decode(b, max)
    case Complete(m, rest) =>
      DecodeAllExtends(rest, x, max);
      var now := DecodeAll(rest, max);
      if !now.rejected { AfterAfter([m], now.messages, DecodeAll(now.rest + x, max)); }
    case Incomplete =>
      assert [] + DecodeAll(b + x, max).messages == DecodeAll(b + x, max).messages;
    case TooLarge =>
  }

  /** However the stream is cut, the messages delivered and the rejection are those of
      the whole stream. */
  lemma {:induction false} CutsDoNotMatter(b: Bytes, chunks: seq<Bytes>, max: nat)
    ensures var fed, all := FeedAll(DecodeAll(b, max), chunks, max), DecodeAll(b + Flatten(chunks), max);
      && fed.messages == all.messages && fed.rejected == all.rejected
      && (!all.rejected ==> fed.rest == all.rest)
    decreases |chunks|
  {
    hide DecodeAll;
    var now := DecodeAll(b, max);
    if |chunks| == 0 {
      assert b + Flatten(chunks) == b;
    } else {
      var x := chunks[0];
      DecodeAllExtends(b, x, max);
      DecodeAllExtends(b, Flatten(chunks), max);
      if !now.rejected {
        CutsDoNotMatter(b + x, chunks[1..], max);
        assert (b + x) + Flatten(chunks[1..]) == b + Flatten(chunks);
      }
    }
  }

  lemma FramesCons(ms: seq<Message>, tail: Bytes)
    requires |ms| > 0 && forall m :: m in ms ==> |m.payload| < TWO_TO_THE_32
    ensures Flatten(Frames(ms)) + tail == Frame(ms[0]) + (Flatten(Frames(ms[1..])) + tail)
  {
    hide Frame;
    assert Frames(ms)[1..] == Frames(ms[1..]);
    Associate(Frame(ms[0]), Flatten(Frames(ms[1..])), tail);
  }

  lemma {:induction false} DecodeFrames(ms: seq<Message>, tail: Bytes, max: nat)
    requires forall m :: m in ms ==> |m.payload| < TWO_TO_THE_32 && |m.payload| <= max
    ensures DecodeAll(Flatten(Frames(ms)) + tail, max) == After(ms, DecodeAll(tail, max))
    decreases |ms|
  {
    hide Frame, Decode, DecodeAll, After;
    if |ms| == 0 {
      NothingBefore(tail);
      AfterNothing(DecodeAll(tail, max));
    } else {
      var m, rest := ms[0], Flatten(Frames(ms[1..])) + tail;
      assert m in ms;
      FramesCons(ms, tail);
      DecodeFrames(ms[1..], tail, max);
      hide Flatten, Frames;
      DecodeInvertsFrame(Frame(m) + rest, max, m, rest);
      DecodeAllStep(Frame(m) + rest, max);
      AfterAfter([m], ms[1..], DecodeAll(tail, max));
      assert [m] + ms[1..] == ms;
    }
  }

  lemma AfterNothing(o: Outcome)
    ensures After([], o) == o
  {
    NothingBefore(o.messages);
  }

  /** Feeding chunks from the start is decoding the whole stream. */
  lemma FeedIsDecode(chunks: seq<Bytes>, max: nat)
    ensures var fed, all := FeedAll(Outcome([], [], false), chunks, max), DecodeAll(Flatten(chunks), max);
      && fed.messages == all.messages && fed.rejected == all.rejected
      && (!all.rejected ==> fed.rest == all.rest)
  {
    NothingDecodes(max);
    hide Decode, DecodeAll, FeedAll, Flatten;
    CutsDoNotMatter([], chunks, max);
    NothingBefore(Flatten(chunks));
  }

  lemma NothingDecodes(max: nat)
    ensures DecodeAll([], max) == Outcome([], [], false)
  {
  }

  /** The promise of the protocol: for messages within the limits and any way of cutting
      their concatenated frames into chunks, decoding delivers exactly those messages, in
      order, and nothing is left over. */
  lemma StreamRoundTrip(ms: seq<Message>, chunks: seq<Bytes>, max: nat)
    requires forall m :: m in ms ==> |m.payload| <= DEFAULT_MAX_PAYLOAD && |m.payload| <= max
    requires Flatten(chunks) == Flatten(Frames(ms))
    ensures FeedAll(Outcome([], [], false), chunks, max) == Outcome(ms, [], false)
  {
    hide Decode, DecodeAll, FeedAll, Frame;
    FeedIsDecode(chunks, max);
    DecodeFrames(ms, [], max);
    NothingDecodes(max);
    NothingAfter(Flatten(Frames(ms)));
    NothingAfter(ms);
  }

  /** The header of a frame over the limit is enough for it to be rejected, however the
      stream is cut, after exactly the messages before it. */
  lemma OversizedIsRejected(ms: seq<Message>, h: Header, tail: Bytes, chunks: seq<Bytes>, max: nat)
    requires forall m :: m in ms ==> |m.payload| < TWO_TO_THE_32 && |m.payload| <= max
    requires max < h.size
    requires Flatten(chunks) == Flatten(Frames(ms)) + (HeaderBytes(h) + tail)
    ensures var fed := FeedAll(Outcome([], [], false), chunks, max); fed.messages == ms && fed.rejected
  {
    BigHeader(h, tail, max);
    hide Decode, DecodeAll, FeedAll, HeaderBytes, Flatten, Frames;
    FeedIsDecode(chunks, max);
    DecodeFrames(ms, HeaderBytes(h) + tail, max);
    DecodeAllStep(HeaderBytes(h) + tail, max);
    NothingAfter(ms);
  }

  lemma BigHeader(h: Header, tail: Bytes, max: nat)
    requires max < h.size
    ensures Decode(HeaderBytes(h) + tail, max).TooLarge?
  {
    hide HeaderBytes, HeaderOf;
    var b := HeaderBytes(h) + tail;
    assert b[..HEADER_SIZE] == HeaderBytes(h);
    HeaderRoundTrip(h, b[..HEADER_SIZE]);
  }

  /** What goes over the wire, byte by byte: the size most significant byte first, then
      type and flags in the same way, then the payload; and only up to one mebibyte. */
  lemma WireLayout(m: Message)
    ensures Encoded(m).Some? <==> |m.payload| <= 1048576
    ensures Encoded(m).Some? ==>
      && var d := Encoded(m).value;
      && |d| == 8 + |m.payload| && d[8..] == m.payload
      && (d[0] as int) * 16777216 + (d[1] as int) * 65536 + (d[2] as int) * 256 + d[3] == |m.payload|
      && (d[4] as int) * 256 + d[5] == m.kind
      && (d[6] as int) * 256 + d[7] == m.flags
  {
    if |m.payload| <= 1048576 {
      U32RoundTrip(|m.payload|);
      U16RoundTrip(m.kind);
      U16RoundTrip(m.flags);
      hide WriteU32, WriteU16;
    }
  }

  /** A frame is rejected exactly once its header announces more than the limit. */
  lemma RejectedIff(d: Bytes, max: nat)
    ensures Decode(d, max).TooLarge? <==>
      |d| >= 8 && (d[0] as int) * 16777216 + (d[1] as int) * 65536 + (d[2] as int) * 256 + d[3] > max
    ensures Decode(d, max).Complete? ==>
      && var size := (d[0] as int) * 16777216 + (d[1] as int) * 65536 + (d[2] as int) * 256 + d[3];
      && |d| >= 8 + size && size <= max
      && Decode(d, max).message == Message((d[4] as int) * 256 + d[5], (d[6] as int) * 256 + d[7], d[8..8 + size])
      && Decode(d, max).rest == d[8 + size..]
  {
  }

  // ---------- in place ----------

  method WriteU16Be(value: u16, out: array<u8>, at: nat)
    requires at + 2 <= out.Length
    modifies out
    ensures out[..] == old(out[..at]) + WriteU16(value) + old(out[at + 2..])
  {
    out[at] := value / 0x100;
    out[at + 1] := value % 0x100;
  }

  method WriteU32Be(value: u32, out: array<u8>, at: nat)
    requires at + 4 <= out.Length
    modifies out
    ensures out[..] == old(out[..at]) + WriteU32(value) + old(out[at + 4..])
  {
    out[at] := value / 0x100_0000;
    out[at + 1] := value / 0x1_0000 % 0x100;
    out[at + 2] := value / 0x100 % 0x100;
    out[at + 3] := value % 0x100;
  }

  method EncodeHeader(h: Header, out: array<u8>)
    requires out.Length >= HEADER_SIZE
    modifies out
    ensures out[..] == HeaderBytes(h) + old(out[HEADER_SIZE..])
  {
    hide WriteU16, WriteU32;
    ghost var was := out[..];
    WriteU32Be(h.size, out, 0);
    WriteU16Be(h.kind, out, 4);
    WriteU16Be(h.flags, out, 6);
  }

  method Encode(m: Message) returns (r: Option<Bytes>)
    ensures r == Encoded(m)
  {
    if |m.payload| > DEFAULT_MAX_PAYLOAD { return None; }
    hide HeaderBytes;
    var n := |m.payload|;
    var buffer := new u8[HEADER_SIZE + n];
    var header := Header(|m.payload|, m.kind, m.flags);
    EncodeHeader(header, buffer);
    assert buffer[..HEADER_SIZE] == HeaderBytes(header);
    for i := 0 to n
      invariant buffer[..HEADER_SIZE] == HeaderBytes(header)
      invariant buffer[HEADER_SIZE..HEADER_SIZE + i] == m.payload[..i]
    {
      buffer[HEADER_SIZE + i] := m.payload[i];
    }
    assert m.payload[..n] == m.payload;
    assert buffer[..] == buffer[..HEADER_SIZE] + buffer[HEADER_SIZE..HEADER_SIZE + n];
    assert buffer[..] == Frame(m);
    r := Some(buffer[..]);
  }

  datatype TryResult = NeedMore | Oversized | Got(message: Message)

  /** The stream buffer, from whose front frames are taken. */
  class FrameBuffer {
    var bytes: Bytes

    constructor ()
      ensures bytes == []
    {
      bytes := [];
    }

    method Append(chunk: Bytes)
      modifies this
      ensures bytes == old(bytes) + chunk
    {
      bytes := bytes + chunk;
    }

    /** Takes the first frame if it is complete; otherwise the buffer is left alone. */
    method TryDecode(max: nat) returns (r: TryResult)
      modifies this
      ensures match Decode(old(bytes), max)
              case Incomplete => r == NeedMore && bytes == old(bytes)
              case TooLarge => r == Oversized && bytes == old(bytes)
              case Complete(m, rest) => r == Got(m) && bytes == rest
    {
      hide HeaderOf;
      if |bytes| < HEADER_SIZE { return NeedMore; }
      var header := HeaderOf(bytes[..HEADER_SIZE]);
      var size := header.size;
      if size > max { return Oversized; }
      var frameSize := HEADER_SIZE + size;
      if |bytes| < frameSize { return NeedMore; }
      r := Got(Message(header.kind, header.flags, bytes[HEADER_SIZE..frameSize]));
      bytes := bytes[frameSize..];
    }

    /** Takes all complete frames of a chunk that has arrived. */
    method Receive(chunk: Bytes, max: nat) returns (messages: seq<Message>, rejected: bool)
      modifies this
      ensures var all := DecodeAll(old(bytes) + chunk, max);
        messages == all.messages && rejected == all.rejected && (!rejected ==> bytes == all.rest)
    {
      hide Decode;
      Append(chunk);
      messages := [];
      while true
        invariant DecodeAll(old(bytes) + chunk, max) == After(messages, DecodeAll(bytes, max))
        decreases |bytes|
      {
        ghost var before := bytes;
        var r := TryDecode(max);
        match r
        case NeedMore => return messages, false;
        case Oversized => return messages, true;
        case Got(m) =>
          ShorterRest(before, max);
          AfterAfter(messages, [m], DecodeAll(bytes, max));
          messages := messages + [m];
      }
    }
  }
}
