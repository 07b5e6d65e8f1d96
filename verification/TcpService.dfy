/** A connection: its handlers on the strand, with the frames it sends and the read loop. */
module TcpService {
  import opened FrameCodec
  import R = TcpReader
  import W = TcpWriter

  class TcpConnection {
    const maxPayload: nat
    var closed: bool
    var outboundQueue: seq<Bytes>
    var reader: R.Reader
    // what the socket and the callbacks have seen
    ghost var writing: seq<Bytes>
    ghost var started: seq<Bytes>
    ghost var posted: seq<Bytes>
    ghost var completed: seq<Bytes>
    ghost var closeCalls: nat
    ghost var errorCalls: nat

    ghost function View(): W.Conn
      reads this
    {
      W.Conn(outboundQueue, closed, writing, started, posted, completed, closeCalls, errorCalls)
    }

    constructor (maxPayload: nat)
      ensures this.maxPayload == maxPayload && View() == W.OPEN && reader == R.START
    {
      this.maxPayload := maxPayload;
      closed, outboundQueue, reader := false, [], R.START;
      writing, started, posted, completed, closeCalls, errorCalls := [], [], [], [], 0, 0;
    }

    /** Encodes on the caller's side; an oversized message is refused before anything is
        posted. */
    method Send(m: Message) returns (ok: bool)
      modifies this`outboundQueue, this`posted, this`writing, this`started
      ensures ok <==> Encoded(m).Some?
      ensures View() == if ok then W.Next(old(View()), W.Send(Encoded(m).value)) else old(View())
    {
      hide Frame;
      var frame := Encode(m);
      if frame.None? { return false; }
      var writeInProgress := |outboundQueue| != 0;
      outboundQueue := outboundQueue + [frame.value];
      posted := posted + [frame.value];
      if !writeInProgress { WriteNext(); }
      ok := true;
    }

    method WriteNext()
      modifies this`writing, this`started
      ensures View() == W.WriteNext(old(View()))
    {
      if |outboundQueue| == 0 || closed { return; }
      writing := writing + [outboundQueue[0]];
      started := started + [outboundQueue[0]];
    }

    /** The completion of the outstanding write: that there is only one, and that it was
        of the front of the queue, is the invariant. */
    method OnWritten(ok: bool)
      requires W.Inv(View()) && |writing| == 1
      modifies this`writing, this`started, this`outboundQueue, this`completed, this`closed, this`closeCalls
      ensures View() == W.Next(old(View()), W.Written(0, ok)) && W.Inv(View())
    {
      W.StepKeepsInv(View(), W.Written(0, ok));
      ghost var frame := writing[0];
      writing := [];
      assert writing == old(writing)[..0] + old(writing)[1..];
      if !ok {
        CloseNow();
        return;
      }
      outboundQueue := outboundQueue[1..];
      completed := completed + [frame];
      WriteNext();
    }

    method CloseNow()
      modifies this`closed, this`closeCalls
      ensures View() == W.CloseNow(old(View()))
    {
      if closed { return; }
      closed := true;
      closeCalls := closeCalls + 1;
    }

    method Fail()
      modifies this`closed, this`closeCalls, this`errorCalls
      ensures View() == W.Next(old(View()), W.Violation)
    {
      errorCalls := errorCalls + 1;
      CloseNow();
    }

    /** Bytes from the peer, rate limiting being off: delivers the messages they complete,
        and fails the connection at an oversized frame. */
    method OnData(chunk: Bytes) returns (messages: seq<Message>)
      requires reader != R.Failed
      modifies this`reader, this`closed, this`closeCalls, this`errorCalls
      ensures R.Result(reader, messages) == R.ReadAll(old(reader), chunk, maxPayload)
      ensures View() == if reader == R.Failed then W.Next(old(View()), W.Violation) else old(View())
    {
      hide R.OnByte;
      messages := [];
      var i := 0;
      while i < |chunk|
        invariant i <= |chunk| && reader != R.Failed
        invariant var more := R.ReadAll(reader, chunk[i..], maxPayload);
          R.ReadAll(old(reader), chunk, maxPayload) == R.Result(more.reader, messages + more.messages)
        invariant View() == old(View())
      {
        assert chunk[i..][0] == chunk[i] && chunk[i..][1..] == chunk[i + 1..];
        var delivered := OnByte(chunk[i]);
        ghost var more := R.ReadAll(reader, chunk[i + 1..], maxPayload).messages;
        assert messages + (delivered + more) == (messages + delivered) + more;
        messages := messages + delivered;
        i := i + 1;
        if reader == R.Failed {
          R.FailedStays(chunk[i..], maxPayload);
          return;
        }
      }
    }

    /** One byte of the header or the body that the loop waits for. */
    method OnByte(x: u8) returns (delivered: seq<Message>)
      requires reader != R.Failed
      modifies this`reader, this`closed, this`closeCalls, this`errorCalls
      ensures R.Result(reader, delivered) == R.OnByte(old(reader), x, maxPayload)
      ensures View() == if reader == R.Failed then W.Next(old(View()), W.Violation) else old(View())
    {
      hide HeaderOf;
      delivered := [];
      match reader
      case InHeader(have) =>
        var header := have + [x];
        if |header| != HEADER_SIZE {
          reader := R.InHeader(header);
          return;
        }
        var h := HeaderOf(header);
        if h.size > maxPayload {
          reader := R.Failed;
          Fail();
          return;
        }
        if h.size == 0 {
          delivered := [Message(h.kind, h.flags, [])];
          reader := R.START;
        } else {
          reader := R.InBody(h, []);
        }
      case InBody(h, have) =>
        var body := have + [x];
        if |body| < h.size {
          reader := R.InBody(h, body);
        } else {
          delivered := [Message(h.kind, h.flags, body)];
          reader := R.START;
        }
    }
  }
}
