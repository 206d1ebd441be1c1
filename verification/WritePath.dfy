/**
 The outgoing half of websocketpp::connection: the send queue, the single-writer flag, and the
 dispatch / async_write / completion cycle, as a system of atomic steps that threads may interleave
 in any order.
 */
module WritePath {
  import opened Wrappers

  datatype Kind = Data | Ping | Pong | Close

  datatype Message = Message(header: bytes, payload: bytes, terminal: bool, kind: Kind)

  /** m_send_buffer_size is a size_t. */
  const SIZE_LIMIT: int := 0x1_0000_0000_0000_0000

  /** The fields of the connection that the write path owns. */
  datatype Fields = Fields(
    queue: seq<Message>,        // m_send_queue
    bufferSize: nat,            // m_send_buffer_size
    writeFlag: bool,            // m_write_flag
    current: seq<Message>,      // m_current_msgs
    sendBuffer: seq<bytes>)     // m_send_buffer

  // ---------------------------------------------------------------- specification functions

  /** What one call of write_frame takes: everything up to and including the first terminal message. */
  function UpToTerminal(q: seq<Message>): (batch: seq<Message>)
    ensures batch <= q
  {
    if q == [] then []
    else if q[0].terminal then [q[0]]
    else [q[0]] + UpToTerminal(q[1..])
  }

  function PayloadTotal(q: seq<Message>): nat {
    if q == [] then 0 else |q[0].payload| + PayloadTotal(q[1..])
  }

  /** m_send_buffer_size after the messages of q have been popped one by one. */
  function SizeAfterPops(size: nat, q: seq<Message>): nat {
    if q == [] then size
    else (SizeAfterPops(size, q[..|q| - 1]) - |q[|q| - 1].payload|) % SIZE_LIMIT
  }

  /** The scatter list handed to the transport: header and payload of each message in order. */
  function Buffers(msgs: seq<Message>): seq<bytes> {
    if msgs == [] then []
    else Buffers(msgs[..|msgs| - 1]) + [msgs[|msgs| - 1].header, msgs[|msgs| - 1].payload]
  }

  function Pushed(f: Fields, msg: Message): Fields {
    f.(queue := f.queue + [msg], bufferSize := (f.bufferSize + |msg.payload|) % SIZE_LIMIT)
  }

  function Claimed(f: Fields): Fields {
    if f.writeFlag then f else
    var batch := UpToTerminal(f.queue);
    f.(queue := f.queue[|batch|..],
       bufferSize := SizeAfterPops(f.bufferSize, batch),
       current := f.current + batch,
       writeFlag := f.current + batch != [])
  }

  datatype Completion = Failed | Terminal | Continue

  function Outcome(f: Fields, failed: bool): Completion
    requires f.current != []
  {
    if failed then Failed
    else if f.current[|f.current| - 1].terminal then Terminal
    else Continue
  }

  predicate NeedsWriting(f: Fields) {
    !f.writeFlag && f.queue != []
  }

  // ---------------------------------------------------------------- the methods of the source

  class SendPath {
    var queue: seq<Message>
    var bufferSize: nat
    var writeFlag: bool
    var currentMsgs: seq<Message>
    var sendBuffer: seq<bytes>

    function View(): Fields
      reads this
    {
      Fields(queue, bufferSize, writeFlag, currentMsgs, sendBuffer)
    }

    constructor ()
      ensures View() == Fields([], 0, false, [], [])
    {
      queue, bufferSize, writeFlag, currentMsgs, sendBuffer := [], 0, false, [], [];
    }

    /** write_push: a null message is ignored. */
    method WritePush(msg: Option<Message>)
      modifies this
      ensures View() == match msg case None => old(View()) case Some(m) => Pushed(old(View()), m)
    {
      if msg == None {
        return;
      }
      bufferSize := (bufferSize + |msg.value.payload|) % SIZE_LIMIT;
      queue := queue + [msg.value];
    }

    /** write_pop: null when the queue is empty. */
    method WritePop() returns (msg: Option<Message>)
      modifies `queue, `bufferSize
      ensures old(queue) == [] ==> msg == None && View() == old(View())
      ensures old(queue) != [] ==>
        && msg == Some(old(queue)[0])
        && queue == old(queue)[1..]
        && bufferSize == (old(bufferSize) - |old(queue)[0].payload|) % SIZE_LIMIT
    {
      if queue == [] {
        return None;
      }
      msg := Some(queue[0]);
      bufferSize := (bufferSize - |queue[0].payload|) % SIZE_LIMIT;
      queue := queue[1..];
    }

    /** The region of send, ping, pong and send_close_frame under m_write_lock. */
    method Enqueue(msg: Message) returns (needsWriting: bool)
      modifies this
      ensures View() == Pushed(old(View()), msg)
      ensures needsWriting == !old(writeFlag)
    {
      WritePush(Some(msg));
      needsWriting := !writeFlag && queue != [];
    }

    /** The region of write_frame under m_write_lock. */
    method ClaimBatch() returns (claimed: bool)
      modifies this
      ensures View() == Claimed(old(View()))
      ensures claimed == (!old(writeFlag) && writeFlag)
    {
      if writeFlag {
        return false;
      }
      ghost var q, size, held := queue, bufferSize, currentMsgs;
      ghost var n := 0;  // messages popped so far
      var next := WritePop();
      if next.Some? {
        assert q[..1][..0] == [];
        n := 1;
      }
      while next.Some?
        invariant writeFlag == old(writeFlag) && sendBuffer == old(sendBuffer)
        invariant n <= |q| && queue == q[n..]
        invariant bufferSize == SizeAfterPops(size, q[..n])
        invariant next.Some? ==> n > 0 && next.value == q[n - 1] && currentMsgs == held + q[..n - 1]
        invariant forall i :: 0 <= i < n - 1 ==> !q[i].terminal
        invariant next.None? ==> currentMsgs == held + q[..n] && (n == |q| || (n > 0 && q[n - 1].terminal))
        decreases |queue|, next.Some?
      {
        currentMsgs := currentMsgs + [next.value];
        assert q[..n - 1] + [q[n - 1]] == q[..n];
        if !next.value.terminal {
          next := WritePop();
          if next.Some? {
            assert q[..n + 1][..n] == q[..n];
            n := n + 1;
          }
        } else {
          next := None;
        }
      }
      UpToTerminalAt(q, n);
      if currentMsgs == [] {
        return false;
      }
      writeFlag := true;
      return true;
    }

    /** The rest of write_frame: builds the scatter list that async_write receives. */
    method FillSendBuffer() returns (buffers: seq<bytes>)
      requires sendBuffer == []
      modifies `sendBuffer
      ensures buffers == sendBuffer == Buffers(currentMsgs)
      ensures |buffers| == 2 * |currentMsgs|
      ensures forall i :: 0 <= i < |currentMsgs| ==> buffers[2 * i] == currentMsgs[i].header && buffers[2 * i + 1] == currentMsgs[i].payload
    {
      for i := 0 to |currentMsgs|
        invariant sendBuffer == Buffers(currentMsgs[..i])
      {
        assert currentMsgs[..i + 1][..i] == currentMsgs[..i];
        sendBuffer := sendBuffer + [currentMsgs[i].header];
        sendBuffer := sendBuffer + [currentMsgs[i].payload];
      }
      assert currentMsgs[..|currentMsgs|] == currentMsgs;
      BuffersAt(currentMsgs);
      buffers := sendBuffer;
    }

    /** handle_write_frame before it takes the lock. It reads back() of the batch, so there must be one. */
    method FinishWrite(failed: bool) returns (outcome: Completion)
      requires currentMsgs != []
      modifies `sendBuffer, `currentMsgs
      ensures outcome == Outcome(old(View()), failed)
      ensures View() == old(View()).(current := [], sendBuffer := [])
    {
      var terminal := currentMsgs[|currentMsgs| - 1].terminal;
      sendBuffer := [];
      currentMsgs := [];
      if failed {
        return Failed;
      }
      if terminal {
        return Terminal;
      }
      return Continue;
    }

    /** The region of handle_write_frame under m_write_lock. */
    method ReleaseFlag() returns (needsWriting: bool)
      modifies `writeFlag
      ensures View() == old(View()).(writeFlag := false)
      ensures needsWriting == NeedsWriting(View()) == (queue != [])
    {
      writeFlag := false;
      needsWriting := queue != [];
    }
  }

  /** Two buffers a message: the header, then the payload. */
  lemma {:induction false} BuffersAt(msgs: seq<Message>)
    ensures |Buffers(msgs)| == 2 * |msgs|
    ensures forall i :: 0 <= i < |msgs| ==> Buffers(msgs)[2 * i] == msgs[i].header && Buffers(msgs)[2 * i + 1] == msgs[i].payload
  {
    if msgs != [] {
      BuffersAt(msgs[..|msgs| - 1]);
    }
  }

  /** The payload total is the length of all payloads one behind the other. */
  lemma {:induction false} PayloadTotalIsLength(q: seq<Message>)
    ensures PayloadTotal(q) == |Concat(seq(|q|, i requires 0 <= i < |q| => q[i].payload))|
  {
    if q != [] {
      var payloads := seq(|q|, i requires 0 <= i < |q| => q[i].payload);
      var rest := q[1..];
      assert payloads[1..] == seq(|rest|, i requires 0 <= i < |rest| => rest[i].payload);
      PayloadTotalIsLength(rest);
      ConcatFromFront(payloads);
    }
  }

  lemma {:induction false} SizeAfterPopsTotal(size: nat, q: seq<Message>)
    requires size < SIZE_LIMIT
    ensures SizeAfterPops(size, q) == (size - PayloadTotal(q)) % SIZE_LIMIT
  {
    if q != [] {
      var q', m := q[..|q| - 1], q[|q| - 1];
      assert q == q' + [m];
      SizeAfterPopsTotal(size, q');
      PayloadTotalSnoc(q', m);
    }
  }

  lemma {:induction false} UpToTerminalAt(q: seq<Message>, n: nat)
    requires n <= |q|
    requires forall i :: 0 <= i < n - 1 ==> !q[i].terminal
    requires n == |q| || (n > 0 && q[n - 1].terminal)
    ensures UpToTerminal(q) == q[..n]
  {
    if n > 0 && !q[0].terminal {
      UpToTerminalAt(q[1..], n - 1);
      assert q[..n] == [q[0]] + q[1..][..n - 1];
    }
  }

  lemma {:induction false} PayloadTotalSnoc(q: seq<Message>, m: Message)
    ensures PayloadTotal(q + [m]) == PayloadTotal(q) + |m.payload|
  {
    if q == [] {
      assert [] + [m] == [m];
    } else {
      assert (q + [m])[1..] == q[1..] + [m];
      PayloadTotalSnoc(q[1..], m);
    }
  }
}
