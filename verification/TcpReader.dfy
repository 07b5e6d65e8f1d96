/** The connection's read loop: it asks the socket for exactly a header, then for
    exactly a body of the announced size, and so on. */
module TcpReader {
  import opened Common
  import opened FrameCodec

  /** Where the loop is, with the bytes that have arrived for the read it waits for. */
  datatype Reader = InHeader(have: Bytes) | InBody(header: Header, have: Bytes) | Failed

  const START := InHeader([])

  datatype Result = Result(reader: Reader, messages: seq<Message>)

  /** One more byte from the socket; a read completes as soon as it is full, and a read
      of an empty body at once. */
  function OnByte(r: Reader, x: u8, max: nat): Result {
    match r
    case InHeader(have) =>
      var all := have + [x];
      if |all| != HEADER_SIZE then Result(InHeader(all), [])
      else
        var h := HeaderOf(all);
        if h.size > max then Result(Failed, [])
        else if h.size == 0 then Result(START, [Message(h.kind, h.flags, [])])
        else Result(InBody(h, []), [])
    case InBody(h, have) =>
      var all := have + [x];
      if |all| < h.size then Result(InBody(h, all), []) else Result(START, [Message(h.kind, h.flags, all)])
    case Failed => Result(Failed, [])
  }

  function ReadAll(r: Reader, stream: Bytes, max: nat): Result
    decreases |stream|
  {
    if |stream| == 0 then Result(r, [])
    else
      var one := OnByte(r, stream[0], max);
      var more := ReadAll(one.reader, stream[1..], max);
      Result(more.reader, one.messages + more.messages)
  }

  /** Bytes of the stream that the loop holds but has not delivered. */
  function Held(r: Reader): Bytes {
    match r
    case InHeader(have) => have
    case InBody(h, have) => HeaderBytes(h) + have
    case Failed => []
  }

  ghost predicate Ready(r: Reader, max: nat) {
    match r
    case InHeader(have) => |have| < HEADER_SIZE
    case InBody(h, have) => h.size <= max && |have| < h.size
    case Failed => false
  }

  lemma HeldHeader(h: Header, have: Bytes)
    ensures (HeaderBytes(h) + have)[..HEADER_SIZE] == HeaderBytes(h) && (HeaderBytes(h) + have)[HEADER_SIZE..] == have
    ensures HeaderOf(HeaderBytes(h)) == h
  {
    HeaderRoundTrip(h, HeaderBytes(h));
  }

  /** One byte further, the loop has decoded exactly what the buffer decoder would. */
  lemma OnByteDecodes(r: Reader, x: u8, max: nat)
    requires Ready(r, max)
    ensures var one := OnByte(r, x, max); var b := Held(r) + [x];
      match Decode(b, max)
      case Incomplete => one.messages == [] && Ready(one.reader, max) && Held(one.reader) == b
      case TooLarge => one.messages == [] && one.reader == Failed
      case Complete(m, rest) => one.messages == [m] && one.reader == START && rest == []
  {
    var b := Held(r) + [x];
    match r
    case InHeader(have) =>
      assert b[..|b|] == b;
      if |b| == HEADER_SIZE {
        HeaderRoundTrip(HeaderOf(b), b);
        assert b[HEADER_SIZE..] == [] && b[HEADER_SIZE..HEADER_SIZE + 0] == [];
        assert HeaderBytes(HeaderOf(b)) + [] == b;
      }
    case InBody(h, have) =>
      assert b == HeaderBytes(h) + (have + [x]);
      HeldHeader(h, have + [x]);
      assert b[HEADER_SIZE..HEADER_SIZE + |have + [x]|] == have + [x];
  }

  ghost predicate Agrees(read: Result, all: Outcome, max: nat) {
    && read.messages == all.messages
    && (read.reader == Failed <==> all.rejected)
    && (!all.rejected ==> Ready(read.reader, max) && Held(read.reader) == all.rest)
  }

  lemma BothAfter(ms: seq<Message>, read: Result, all: Outcome, max: nat)
    requires Agrees(read, all, max)
    ensures Agrees(Result(read.reader, ms + read.messages), After(ms, all), max)
  {
  }

  lemma OneMore(held: Bytes, stream: Bytes)
    requires |stream| > 0
    ensures (held + [stream[0]]) + stream[1..] == held + stream
  {
  }

  /** The read loop delivers exactly the messages that repeated decoding of the stream
      delivers, rejects at the same oversized frame, and otherwise holds exactly the
      bytes that decoding would leave over. */
  lemma {:induction false} LoopIsDecoder(r: Reader, stream: Bytes, max: nat)
    requires Ready(r, max)
    ensures Agrees(ReadAll(r, stream, max), DecodeAll(Held(r) + stream, max), max)
    decreases |stream|
  {
    if |stream| == 0 {
      assert Held(r) + stream == Held(r);
      HeldIsIncomplete(r, max);
    } else {
      var one, b, rest := OnByte(r, stream[0], max), Held(r) + [stream[0]], stream[1..];
      OnByteDecodes(r, stream[0], max);
      DecodeExtends(b, rest, max);
      DecodeAllStep(b + rest, max);
      FailedStays(rest, max);
      StartIsReady(max);
      hide Decode, DecodeAll, OnByte, Ready, Held;
      var more := ReadAll(one.reader, rest, max);
      OneMore(Held(r), stream);
      NothingBefore(rest);
      NothingBefore(more.messages);
      hide ReadAll;
      match Decode(b, max)
      case Incomplete => LoopIsDecoder(one.reader, rest, max);
      case TooLarge =>
      case Complete(m, _) =>
        LoopIsDecoder(START, rest, max);
        hide Agrees;
        BothAfter([m], more, DecodeAll(rest, max), max);
    }
  }

  lemma StartIsReady(max: nat)
    ensures Ready(START, max) && Held(START) == []
  {
  }

  lemma HeldIsIncomplete(r: Reader, max: nat)
    requires Ready(r, max)
    ensures Decode(Held(r), max).Incomplete? && DecodeAll(Held(r), max) == Outcome([], Held(r), false)
  {
    if r.InBody? { HeldHeader(r.header, r.have); }
  }

  lemma {:induction false} FailedStays(stream: Bytes, max: nat)
    ensures ReadAll(Failed, stream, max) == Result(Failed, [])
  {
    if |stream| != 0 { FailedStays(stream[1..], max); }
  }

  /** Through a connection: messages within the limit arrive exactly as they were
      framed, with no rate limit in the way. */
  lemma MessagesArrive(ms: seq<Message>, max: nat)
    requires forall m :: m in ms ==> |m.payload| <= DEFAULT_MAX_PAYLOAD && |m.payload| <= max
    ensures ReadAll(START, Flatten(Frames(ms)), max) == Result(START, ms)
  {
    var stream := Flatten(Frames(ms));
    DecodeFrames(ms, [], max);
    assert stream + [] == stream && ms + [] == ms && Held(START) + stream == stream;
    assert DecodeAll([], max) == Outcome([], [], false);
    LoopIsDecoder(START, stream, max);
    NothingHeld(ReadAll(START, stream, max).reader, max);
  }

  lemma NothingHeld(r: Reader, max: nat)
    requires Ready(r, max) && Held(r) == []
    ensures r == START
  {
  }
}
