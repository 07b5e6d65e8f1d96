/** The connection's outbound side: the steps its strand runs one after the other. */
module TcpWriter {
  import opened Common
  import opened FrameCodec

  /** `writing` lists the writes started and not completed, `started` all that were ever
      started, `posted` the frames in the order their sends reached the strand,
      `completed` the frames fully written. */
  datatype Conn = Conn(queue: seq<Bytes>, closed: bool, writing: seq<Bytes>, started: seq<Bytes>, posted: seq<Bytes>,
                       completed: seq<Bytes>, closeCalls: nat, errorCalls: nat)

  const OPEN := Conn([], false, [], [], [], [], 0, 0)

  /** `Written` is the completion of one of the outstanding writes; `ReadError` ends the
      read loop, `Violation` is a frame the peer should not have sent. */
  datatype Event = Send(frame: Bytes) | Written(i: nat, ok: bool) | Close | ReadError | Violation

  function WriteNext(s: Conn): Conn {
    if |s.queue| == 0 || s.closed then s
    else s.(writing := s.writing + [s.queue[0]], started := s.started + [s.queue[0]])
  }

  function CloseNow(s: Conn): Conn {
    if s.closed then s else s.(closed := true, closeCalls := s.closeCalls + 1)
  }

  ghost predicate Enabled(s: Conn, e: Event) { e.Written? ==> e.i < |s.writing| }

  function Next(s: Conn, e: Event): Conn
    requires Enabled(s, e)
  {
    match e
    case Send(frame) =>
      var s1 := s.(queue := s.queue + [frame], posted := s.posted + [frame]);
      if |s.queue| == 0 then WriteNext(s1) else s1
    case Written(i, ok) =>
      var s1 := s.(writing := s.writing[..i] + s.writing[i + 1..]);
      if !ok then CloseNow(s1)
      else WriteNext(s1.(queue := if |s.queue| == 0 then [] else s.queue[1..],
          completed := s.completed + [s.writing[i]]))
    case Close => CloseNow(s)
    case ReadError => CloseNow(s)
    case Violation => CloseNow(s.(errorCalls := s.errorCalls + 1))
  }

  ghost predicate Legal(s: Conn, es: seq<Event>)
    decreases |es|
  {
    |es| == 0 || (Enabled(s, es[0]) && Legal(Next(s, es[0]), es[1..]))
  }

  function After(s: Conn, es: seq<Event>): Conn
    requires Legal(s, es)
    decreases |es|
  {
    if |es| == 0 then s else After(Next(s, es[0]), es[1..])
  }

  /** At most one write is outstanding, and it is of the front of the queue; as long as
      the connection is open and has something to send, one is outstanding. What was
      completed, followed by the queue, is what was posted; writes are started in that
      order, and while the connection is open each is completed or outstanding. */
  ghost predicate Inv(s: Conn) {
    && |s.writing| <= 1
    && (|s.writing| == 1 ==> |s.queue| > 0 && s.writing[0] == s.queue[0])
    && (!s.closed && |s.queue| > 0 ==> |s.writing| == 1)
    && s.posted == s.completed + s.queue
    && s.started <= s.posted
    && (!s.closed ==> s.started == s.completed + s.writing)
    && s.closeCalls == if s.closed then 1 else 0
  }

  lemma StepKeepsInv(s: Conn, e: Event)
    requires Inv(s) && Enabled(s, e)
    ensures Inv(Next(s, e))
  {
    match e
    case Send(frame) => SendKeepsInv(s, frame);
    case Written(i, ok) => WrittenKeepsInv(s, i, ok);
    case _ =>
  }

  lemma SendKeepsInv(s: Conn, frame: Bytes)
    requires Inv(s)
    ensures Inv(Next(s, Send(frame)))
  {
    assert (s.completed + s.queue) + [frame] == s.completed + (s.queue + [frame]);
    if |s.queue| == 0 && !s.closed { assert s.started == s.completed == s.posted; }
  }

  lemma WrittenKeepsInv(s: Conn, i: nat, ok: bool)
    requires Inv(s) && i < |s.writing|
    ensures Inv(Next(s, Written(i, ok)))
  {
    var front, rest := s.queue[0], s.queue[1..];
    assert s.writing == [front] && s.writing[..i] + s.writing[i + 1..] == [];
    assert s.completed + s.queue == (s.completed + [front]) + rest;
    if ok && !s.closed && |rest| > 0 {
      assert s.started + [rest[0]] == (s.completed + [front]) + rest[..1];
      assert s.posted[..|s.started| + 1] == s.started + [rest[0]];
    }
  }

  /** Over every interleaving of sends, write completions, errors and closes: the
      invariant holds, so completed frames are a prefix of those posted, in order, and
      the close callback has run once if the connection is closed and otherwise not. */
  lemma {:induction false} EveryRun(s: Conn, es: seq<Event>)
    requires Inv(s) && Legal(s, es)
    ensures Inv(After(s, es)) && After(s, es).completed <= After(s, es).posted
    decreases |es|
  {
    hide Next, Enabled;
    if |es| != 0 {
      StepKeepsInv(s, es[0]);
      EveryRun(Next(s, es[0]), es[1..]);
    }
  }

  /** After closing, no write starts, and all that can still complete is what was
      outstanding. */
  lemma {:induction false} NothingStartsAfterClose(s: Conn, es: seq<Event>)
    requires s.closed && Legal(s, es)
    ensures var s' := After(s, es);
      && s'.closed && s'.started == s.started && s'.closeCalls == s.closeCalls
      && |s'.completed| + |s'.writing| <= |s.completed| + |s.writing|
    decreases |es|
  {
    if |es| != 0 { NothingStartsAfterClose(Next(s, es[0]), es[1..]); }
  }

  // ---------- everything is written ----------

  function Successes(n: nat): seq<Event> { if n == 0 then [] else [Written(0, true)] + Successes(n - 1) }

  /** While the connection is open and its writes succeed, everything posted is written:
      as many completions as frames are waiting empty the queue. */
  lemma {:induction false} EverythingIsWritten(s: Conn)
    requires Inv(s) && !s.closed
    ensures Legal(s, Successes(|s.queue|))
    ensures var s' := After(s, Successes(|s.queue|));
      && s'.queue == [] && s'.completed == s.posted && s'.posted == s.posted && s'.writing == [] && !s'.closed
    decreases |s.queue|
  {
    if |s.queue| == 0 {
      NothingAfter(s.completed);
    } else {
      var s1 := Next(s, Written(0, true));
      StepKeepsInv(s, Written(0, true));
      assert s1.queue == s.queue[1..] && s1.posted == s.posted && !s1.closed;
      hide Next, Inv;
      EverythingIsWritten(s1);
      assert Successes(|s.queue|)[1..] == Successes(|s1.queue|);
    }
  }

  /** A close, a read error, a bad frame or a failed write. */
  predicate Ends(e: Event) { e.Close? || e.ReadError? || e.Violation? || (e.Written? && !e.ok) }

  function Violations(es: seq<Event>): nat {
    if |es| == 0 then 0 else (if es[0].Violation? then 1 else 0) + Violations(es[1..])
  }

  /** A connection is closed exactly after such an event, the close callback has then run
      exactly once, and the error callback once for every bad frame. */
  lemma {:induction false} ClosedIff(s: Conn, es: seq<Event>)
    requires Legal(s, es)
    ensures var s' := After(s, es);
      && (s'.closed <==> s.closed || exists i :: 0 <= i < |es| && Ends(es[i]))
      && s'.closeCalls == s.closeCalls + (if s'.closed && !s.closed then 1 else 0)
      && s'.errorCalls == s.errorCalls + Violations(es)
    decreases |es|
  {
    if |es| != 0 {
      var s1 := Next(s, es[0]);
      assert s1.closed <==> s.closed || Ends(es[0]);
      ClosedIff(s1, es[1..]);
      assert forall i :: 0 <= i < |es[1..]| ==> es[1..][i] == es[i + 1];
      if i :| 0 <= i < |es| && Ends(es[i]) && i > 0 { assert Ends(es[1..][i - 1]); }
      if i :| 0 <= i < |es[1..]| && Ends(es[1..][i]) { assert Ends(es[i + 1]); }
    }
  }

  // ---------- what the peer reads ----------

  lemma ProperPrefixIsIncomplete(m: Message, part: Bytes, max: nat)
    requires |m.payload| < TWO_TO_THE_32 && |m.payload| <= max
    requires part <= Frame(m) && part != Frame(m)
    ensures DecodeAll(part, max) == Outcome([], part, false)
  {
    hide HeaderBytes, HeaderOf;
    var h := Header(|m.payload|, m.kind, m.flags);
    if |part| >= HEADER_SIZE {
      assert part[..HEADER_SIZE] == Frame(m)[..HEADER_SIZE] == HeaderBytes(h);
      HeaderRoundTrip(h, part[..HEADER_SIZE]);
    }
  }

  lemma {:induction false} FramesPrefix(ms: seq<Message>, n: nat)
    requires n <= |ms| && forall m :: m in ms ==> |m.payload| < TWO_TO_THE_32
    ensures |Frames(ms)| == |ms| && Frames(ms)[..n] == Frames(ms[..n])
    ensures n < |ms| ==> Frames(ms)[n] == Frame(ms[n])
    decreases |ms|
  {
    hide Frame;
    if |ms| != 0 {
      if n == 0 {
        FramesPrefix(ms[1..], 0);
      } else {
        FramesPrefix(ms[1..], n - 1);
        assert ms[..n][1..] == ms[1..][..n - 1];
        assert Frames(ms)[..n] == [Frame(ms[0])] + Frames(ms[1..])[..n - 1];
      }
    }
  }

  /** End to end: however sends, completions and a close interleave, a peer that decodes
      the bytes written so far, including a part of the frame now being written, gets
      exactly the messages whose frames are complete, in the order they were sent. */
  lemma PeerReadsPrefix(es: seq<Event>, ms: seq<Message>, part: Bytes, max: nat)
    requires Legal(OPEN, es)
    requires forall m :: m in ms ==> |m.payload| < TWO_TO_THE_32 && |m.payload| <= max
    requires After(OPEN, es).posted == Frames(ms)
    requires var s := After(OPEN, es); part == [] || (|s.queue| > 0 && part <= s.queue[0] && part != s.queue[0])
    ensures var s := After(OPEN, es);
      |s.completed| <= |ms| && DecodeAll(Flatten(s.completed) + part, max) == Outcome(ms[..|s.completed|], part, false)
  {
    EveryRun(OPEN, es);
    var s := After(OPEN, es);
    var n := |s.completed|;
    hide After, Legal, Frame, Decode;
    FramesPrefix(ms, 0);
    FramesPrefix(ms, n);
    assert s.completed == s.posted[..n] == Frames(ms[..n]);
    if part == [] {
      assert DecodeAll(part, max) == Outcome([], part, false) by { NothingDecodes(max); }
    } else {
      assert s.queue[0] == s.posted[n] == Frame(ms[n]) && ms[n] in ms;
      ProperPrefixIsIncomplete(ms[n], part, max);
    }
    DecodeFrames(ms[..n], part, max);
    assert ms[..n] + [] == ms[..n];
  }
}
