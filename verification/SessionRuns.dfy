/**
 Whole runs of a connection: any sequence of handler invocations, public calls and transport
 callbacks, each atomic, except that a send may be split at the gap between its two locks.
 */
module SessionRuns {
  import opened Wrappers
  import opened WritePath
  import opened Session

  /** A connection and what its environment still owes it. */
  datatype Run = Run(
    c: Conn,
    done: set<nat>,       // the async_shutdown calls whose callback has run
    passed: nat,          // threads in send, ping or pong between the state check and the push
    closeReceived: bool)  // a close frame has been read

  const START := Run(FRESH, {}, 0, false)

  datatype Event =
    | Start
    | TransportInit(ec: Ec, requestError: bool)
    | ReadHandshake(ec: Ec, request: RequestRead)
    | WriteResponse(ec: Ec, switching: bool)
    | SendRequest(ec: Ec)
    | ReadResponse(ec: Ec, response: ResponseRead)
    | OpenTimeout(ec: Ec)
    | CloseTimeout(ec: Ec)
    | ReadFrame(ec: Ec)
    | ConsumeError(ec: Ec, code: nat, prep: Prep)
    | PingFrame(reply: bool, prep: Prep)
    | CloseFrame(payload: ClosePayload, prep: Prep)
    | OtherFrame
    | WriteFailed(ec: Ec)         // handle_write_frame with an error
    | TerminalWritten             // handle_write_frame after a terminal message
    | ShutdownDone(index: nat)    // the callback of one async_shutdown call: handle_terminate
    | CallClose(code: nat, prep: Prep)
    | CallSend(kind: Kind, prep: Prep)
    | PassStateCheck              // the first locked region of send, ping or pong
    | PushAfterCheck(msg: Message)  // its second locked region
    | GiveUpAfterCheck            // no message buffer, or the processor refused the frame
    | DeferResponse
    | SendDeferred(statusSet: bool)

  /** HttpConnectionEnded is raised by the connection itself only. */
  predicate Plausible(ec: Ec) {
    ec != HttpConnectionEnded
  }

  /** When the environment can deliver an event. Frames come out of the loop of handle_read_frame only. */
  predicate Enabled(config: Config, r: Run, e: Event) {
    match e
    case TransportInit(ec, _) => Plausible(ec)
    case ReadHandshake(ec, request) =>
      Plausible(ec) && (request.RequestReady? ==> Plausible(request.handshakeEc)) && (request.NoProcessor? ==> Plausible(request.ec))
    case WriteResponse(ec, _) => Plausible(ec)
    case SendRequest(ec) => Plausible(ec)
    case ReadResponse(ec, response) => Plausible(ec) && (response.ResponseInvalid? ==> Plausible(response.ec))
    case ReadFrame(ec) => Plausible(ec)
    case ConsumeError(ec, _, prep) =>
      r.c.istate == ProcessConnection && Plausible(ec) && (prep.PrepareFailed? ==> Plausible(prep.ec))
    case PingFrame(_, _) => r.c.istate == ProcessConnection
    case CloseFrame(payload, _) =>
      r.c.istate == ProcessConnection && (payload.GoodClose? || Plausible(payload.ec))
    case WriteFailed(ec) => r.c.pushed != [] && ec != Success && Plausible(ec)
    case TerminalWritten => exists m :: m in r.c.pushed && m.terminal
    case ShutdownDone(i) => i < |r.c.shutdowns| && i !in r.done
    case CallSend(kind, _) => kind != Kind.Close
    case PassStateCheck => r.c.state == Open
    case PushAfterCheck(m) => r.passed > 0 && m.kind != Kind.Close
    case GiveUpAfterCheck => r.passed > 0
    case _ => true
  }

  function Next(config: Config, r: Run, e: Event): Run {
    match e
    case Start => r.(c := Started(r.c))
    case TransportInit(ec, bad) => r.(c := TransportReady(config, r.c, ec, bad))
    case ReadHandshake(ec, request) => r.(c := HandshakeRead(r.c, ec, request))
    case WriteResponse(ec, switching) => r.(c := HttpResponseWritten(r.c, ec, switching))
    case SendRequest(ec) => r.(c := HttpRequestSent(r.c, ec))
    case ReadResponse(ec, response) => r.(c := HttpResponseRead(r.c, ec, response))
    case OpenTimeout(ec) => r.(c := TimedOut(r.c, ec, OpenHandshakeTimeout))
    case CloseTimeout(ec) => r.(c := TimedOut(r.c, ec, CloseHandshakeTimeout))
    case ReadFrame(ec) => r.(c := FramesRead(config, r.c, ec))
    case ConsumeError(ec, code, prep) => r.(c := ConsumeFailed(config, r.c, ec, code, prep))
    case PingFrame(reply, prep) => r.(c := PingReceived(r.c, reply, prep))
    case CloseFrame(payload, prep) => r.(c := CloseReceived(config, r.c, payload, prep), closeReceived := true)
    case OtherFrame => r
    case WriteFailed(ec) => r.(c := Terminated(r.c, ec))
    case TerminalWritten => r.(c := Terminated(r.c, Success))
    case ShutdownDone(i) =>
      if i < |r.c.shutdowns| then r.(c := TerminationHandled(r.c, r.c.shutdowns[i]), done := r.done + {i}) else r
    case CallClose(code, prep) => r.(c := CloseCalled(config, r.c, code, prep).0)
    case CallSend(kind, prep) => r.(c := FrameSent(r.c, kind, prep))
    case PassStateCheck => r.(passed := r.passed + 1)
    case PushAfterCheck(m) =>
      r.(c := r.c.(pushed := r.c.pushed + [m]), passed := if r.passed > 0 then r.passed - 1 else 0)
    case GiveUpAfterCheck => r.(passed := if r.passed > 0 then r.passed - 1 else 0)
    case DeferResponse => r.(c := r.c.(timer := false, httpState := Deferred))
    case SendDeferred(statusSet) => r.(c := DeferredResponseSent(r.c, statusSet))
  }

  predicate Legal(config: Config, r: Run, events: seq<Event>)
    decreases |events|
  {
    events == [] || (Enabled(config, r, events[0]) && Legal(config, Next(config, r, events[0]), events[1..]))
  }

  function Exec(config: Config, r: Run, events: seq<Event>): Run
    decreases |events|
  {
    if events == [] then r else Exec(config, Next(config, r, events[0]), events[1..])
  }

  // ---------------------------------------------------------------- the branch that falls through

  /** A client reads a valid response whose extensions cannot be negotiated. */
  predicate FallsThrough(r: Run, e: Event) {
    && e.ReadResponse? && e.ec == Success && e.response.NegotiationFailed?
    && r.c.state == Connecting && r.c.istate == ReadHttpResponse
  }

  predicate NeverFallsThrough(config: Config, r: Run, events: seq<Event>)
    decreases |events|
  {
    events == [] || (!FallsThrough(r, events[0]) && NeverFallsThrough(config, Next(config, r, events[0]), events[1..]))
  }

  // ---------------------------------------------------------------- invariants

  function Rank(s: SessionState): nat {
    match s
    case Connecting => 0
    case Open => 1
    case Closing => 2
    case Closed => 3
  }

  /** The transport is shut down exactly when the state says closed. */
  predicate Consistent(r: Run) {
    |r.c.shutdowns| == if r.c.state == Closed then 1 else 0
  }

  predicate ConnectingInv(c: Conn, done: set<nat>) {
    c.shutdowns == [] && c.calls == [] && done == {} && c.istate != ProcessConnection
  }

  predicate LiveInv(c: Conn, done: set<nat>) {
    c.shutdowns == [] && c.calls == [OpenHandler] && done == {} && c.istate == ProcessConnection
  }

  predicate FailedInv(c: Conn, done: set<nat>) {
    && c.shutdowns == [FailedStatus] && c.istate != ProcessConnection
    && (if done == {} then c.calls == []
        else done == {0} && (c.calls == [FailHandler] || (c.calls == [] && c.isHttp)))
  }

  predicate ClosedInv(c: Conn, done: set<nat>) {
    && c.shutdowns == [ClosedStatus] && c.istate == ProcessConnection
    && (if done == {} then c.calls == [OpenHandler]
        else done == {0} && c.calls == [OpenHandler, CloseHandler])
  }

  predicate ConnInv(c: Conn, done: set<nat>) {
    && (c.ec == HttpConnectionEnded ==> c.isHttp)
    && match c.state
       case Connecting => ConnectingInv(c, done)
       case Closed => FailedInv(c, done) || ClosedInv(c, done)
       case _ => LiveInv(c, done)
  }

  predicate Inv(r: Run) {
    ConnInv(r.c, r.done)
  }

  /** c' is a good successor of c: the invariant holds and the state has not moved backwards. */
  predicate Kept(c: Conn, c': Conn, done: set<nat>) {
    ConnInv(c', done) && Rank(c.state) <= Rank(c'.state)
  }

  lemma TerminatedKept(c: Conn, done: set<nat>, ec: Ec)
    requires ConnInv(c, done) && (Plausible(ec) || c.isHttp)
    ensures Kept(c, Terminated(c, ec), done)
  {
  }

  lemma EarlyKept(config: Config, c: Conn, done: set<nat>, ec: Ec, requestError: bool)
    requires ConnInv(c, done) && Plausible(ec)
    ensures Kept(c, Started(c), done) && Kept(c, TransportReady(config, c, ec, requestError), done)
  {
    TerminatedKept(c, done, InvalidState);
    TerminatedKept(c, done, ec);
  }

  lemma HttpRequestSentKept(c: Conn, done: set<nat>, ec: Ec)
    requires ConnInv(c, done) && Plausible(ec)
    ensures Kept(c, HttpRequestSent(c, ec), done)
  {
    TerminatedKept(c, done, ec);
    TerminatedKept(c, done, InvalidState);
  }

  lemma TimedOutKept(c: Conn, done: set<nat>, ec: Ec, reason: Ec)
    requires ConnInv(c, done) && Plausible(reason)
    ensures Kept(c, TimedOut(c, ec, reason), done)
  {
    TerminatedKept(c, done, reason);
  }

  lemma HttpHandledKept(c: Conn, done: set<nat>, deferred: bool, ended: Option<Ec>)
    requires ConnInv(c, done) && c.state == Connecting
    ensures Kept(c, HttpHandled(c, deferred, ended), done)
    ensures HttpHandled(c, deferred, ended).isHttp
  {
    if ended.Some? {
      var f := c.(isHttp := true);
      TerminatedKept(if deferred then f.(httpState := Deferred, timer := false) else f, done, ended.value);
    }
  }

  lemma RequestReadyKept(c: Conn, done: set<nat>, read: RequestRead)
    requires ConnInv(c, done) && HandshakeGuard(c, Success, ReadHttpRequest) == Some(Success)
    requires read.RequestReady? && Plausible(read.handshakeEc)
    ensures Kept(c, HandshakeRead(c, Success, read), done)
  {
    HttpHandledKept(c.(istate := ProcessHttpRequest), done, read.deferred, read.ended);
  }

  lemma HandshakeReadKept(c: Conn, done: set<nat>, ec: Ec, read: RequestRead)
    requires ConnInv(c, done) && Plausible(ec)
    requires (read.RequestReady? ==> Plausible(read.handshakeEc)) && (read.NoProcessor? ==> Plausible(read.ec))
    ensures Kept(c, HandshakeRead(c, ec, read), done)
  {
    var guard := HandshakeGuard(c, ec, ReadHttpRequest);
    if guard != None && guard != Some(Success) {
      TerminatedKept(c, done, guard.value);
    } else if guard == Some(Success) {
      if read.RequestReady? {
        RequestReadyKept(c, done, read);
      } else {
        TerminatedKept(c, done, General);
      }
    }
  }

  lemma HttpResponseWrittenKept(c: Conn, done: set<nat>, ec: Ec, switching: bool)
    requires ConnInv(c, done) && Plausible(ec)
    ensures Kept(c, HttpResponseWritten(c, ec, switching), done)
  {
    var guard := HandshakeGuard(c, ec, ProcessHttpRequest);
    if guard != None && guard != Some(Success) {
      TerminatedKept(c, done, guard.value);
    } else if guard == Some(Success) && !switching {
      var c' := c.(timer := false, ec := if c.isHttp then HttpConnectionEnded else c.ec);
      TerminatedKept(c', done, c'.ec);
    }
  }

  lemma HttpResponseReadKept(c: Conn, done: set<nat>, ec: Ec, read: ResponseRead)
    requires ConnInv(c, done) && Plausible(ec) && (read.ResponseInvalid? ==> Plausible(read.ec))
    requires !(ec == Success && read.NegotiationFailed? && c.state == Connecting && c.istate == ReadHttpResponse)
    ensures Kept(c, HttpResponseRead(c, ec, read), done)
  {
    var guard := HandshakeGuard(c, ec, ReadHttpResponse);
    if guard != None && guard != Some(Success) {
      TerminatedKept(c, done, guard.value);
    } else if guard == Some(Success) {
      TerminatedKept(c, done, General);
      if read.ResponseInvalid? {
        TerminatedKept(c.(timer := false), done, read.ec);
      }
    }
  }

  lemma CloseFrameSentKept(config: Config, c: Conn, done: set<nat>, code: nat, ack: bool, terminal: bool, prep: Prep)
    requires ConnInv(c, done) && c.state in {Open, Closing}
    ensures Kept(c, CloseFrameSent(config, c, code, ack, terminal, prep).0, done)
  {
  }

  lemma CloseCalledKept(config: Config, c: Conn, done: set<nat>, code: nat, prep: Prep)
    requires ConnInv(c, done)
    ensures Kept(c, CloseCalled(config, c, code, prep).0, done)
  {
    if c.state == Open {
      CloseFrameSentKept(config, c, done, code, false, TerminalCode(code), prep);
    }
  }

  lemma ConsumeFailedKept(config: Config, c: Conn, done: set<nat>, ec: Ec, code: nat, prep: Prep)
    requires ConnInv(c, done) && Plausible(ec) && (prep.PrepareFailed? ==> Plausible(prep.ec))
    ensures Kept(c, ConsumeFailed(config, c, ec, code, prep), done)
  {
    if config.dropOnProtocolError {
      TerminatedKept(c, done, ec);
    } else if c.state != Open {
      TerminatedKept(c, done, InvalidState);
    } else {
      CloseFrameSentKept(config, c, done, code, false, TerminalCode(code), prep);
      var (c', closeEc) := CloseFrameSent(config, c, code, false, TerminalCode(code), prep);
      if closeEc != Success {
        TerminatedKept(c', done, closeEc);
      }
    }
  }

  lemma CloseReceivedKept(config: Config, c: Conn, done: set<nat>, payload: ClosePayload, prep: Prep)
    requires ConnInv(c, done) && c.istate == ProcessConnection && (payload.GoodClose? || Plausible(payload.ec))
    ensures Kept(c, CloseReceived(config, c, payload, prep), done)
  {
    if c.state != Closed {
      var c' := c.(remoteCode := payload.code);
      CloseFrameSentKept(config, c', done, if payload.GoodClose? then CLOSE_BLANK else CLOSE_PROTOCOL_ERROR, true, config.isServer, prep);
      if !payload.GoodClose? {
        TerminatedKept(c', done, payload.ec);
      } else {
        TerminatedKept(c'.(wasClean := true), done, Success);
      }
    }
  }

  lemma FramesReadKept(config: Config, c: Conn, done: set<nat>, ec: Ec)
    requires ConnInv(c, done) && Plausible(ec)
    ensures Kept(c, FramesRead(config, c, ec), done)
  {
    TerminatedKept(c, done, InvalidState);
    TerminatedKept(c, done, Success);
    TerminatedKept(c, done, ec);
  }

  lemma ShutdownDoneKept(r: Run, i: nat)
    requires Inv(r) && i < |r.c.shutdowns| && i !in r.done
    ensures Kept(r.c, TerminationHandled(r.c, r.c.shutdowns[i]), r.done + {i})
  {
  }

  /** One step keeps the invariant and never moves the state backwards, unless it is the fall-through. */
  lemma NextKeepsInv(config: Config, r: Run, e: Event)
    requires Inv(r) && Enabled(config, r, e) && !FallsThrough(r, e)
    ensures Inv(Next(config, r, e))
    ensures Rank(r.c.state) <= Rank(Next(config, r, e).c.state)
  {
    match e
    case Start => EarlyKept(config, r.c, r.done, Success, false);
    case TransportInit(ec, bad) => EarlyKept(config, r.c, r.done, ec, bad);
    case ReadHandshake(ec, request) => HandshakeReadKept(r.c, r.done, ec, request);
    case WriteResponse(ec, switching) => HttpResponseWrittenKept(r.c, r.done, ec, switching);
    case SendRequest(ec) => HttpRequestSentKept(r.c, r.done, ec);
    case ReadResponse(ec, response) => HttpResponseReadKept(r.c, r.done, ec, response);
    case OpenTimeout(ec) => TimedOutKept(r.c, r.done, ec, OpenHandshakeTimeout);
    case CloseTimeout(ec) => TimedOutKept(r.c, r.done, ec, CloseHandshakeTimeout);
    case ReadFrame(ec) => FramesReadKept(config, r.c, r.done, ec);
    case ConsumeError(ec, code, prep) => ConsumeFailedKept(config, r.c, r.done, ec, code, prep);
    case CloseFrame(payload, prep) => CloseReceivedKept(config, r.c, r.done, payload, prep);
    case CallClose(code, prep) => CloseCalledKept(config, r.c, r.done, code, prep);
    case WriteFailed(ec) => TerminatedKept(r.c, r.done, ec);
    case TerminalWritten => TerminatedKept(r.c, r.done, Success);
    case ShutdownDone(i) => ShutdownDoneKept(r, i);
    case _ =>
  }

  lemma {:induction false} RunKeepsInv(config: Config, r: Run, events: seq<Event>)
    requires Inv(r) && Legal(config, r, events) && NeverFallsThrough(config, r, events)
    ensures Inv(Exec(config, r, events))
    ensures Rank(r.c.state) <= Rank(Exec(config, r, events).c.state)
    decreases |events|
  {
    if events != [] {
      NextKeepsInv(config, r, events[0]);
      RunKeepsInv(config, Next(config, r, events[0]), events[1..]);
    }
  }

  // ---------------------------------------------------------------- main results on the session

  /**
   The documented handler contract, on every run without the fall-through: the open and the fail
   handler are never both called, the close handler is called at most once and only after the open
   handler, the transport is shut down at most once, and closed is final with respect to all of it.
   */
  lemma SessionSafety(config: Config, events: seq<Event>)
    requires Legal(config, START, events) && NeverFallsThrough(config, START, events)
    ensures var c := Exec(config, START, events).c;
            && c.calls in {[], [OpenHandler], [FailHandler], [OpenHandler, CloseHandler]}
            && |c.shutdowns| == (if c.state == Closed then 1 else 0)
            && (c.state == Connecting ==> c.calls == [])
            && (c.state in {Open, Closing} ==> c.calls == [OpenHandler])
            && (CloseHandler in c.calls || FailHandler in c.calls ==> c.state == Closed)
  {
    RunKeepsInv(config, START, events);
  }

  /** Later states are never lower, from any reachable state on; in particular closed is final. */
  lemma StateNeverMovesBack(config: Config, events: seq<Event>, more: seq<Event>)
    requires Legal(config, START, events) && NeverFallsThrough(config, START, events)
    requires Legal(config, Exec(config, START, events), more) && NeverFallsThrough(config, Exec(config, START, events), more)
    ensures var r := Exec(config, START, events);
            NotBefore(r.c.state, Exec(config, r, more).c.state)
  {
    RunKeepsInv(config, START, events);
    var r := Exec(config, START, events);
    RunKeepsInv(config, r, more);
    RanksOrder(r.c.state, Exec(config, r, more).c.state);
  }

  /** A connection opens once, and from closing it can only go on to closed. */
  predicate NotBefore(earlier: SessionState, later: SessionState) {
    match earlier
    case Connecting => true
    case Open => later != Connecting
    case Closing => later == Closing || later == Closed
    case Closed => later == Closed
  }

  lemma RanksOrder(earlier: SessionState, later: SessionState)
    ensures Rank(earlier) <= Rank(later) <==> NotBefore(earlier, later)
  {
  }

  /**
   Every attempt is answered: once the shutdown callback of a closed connection has run, either the
   open handler and then the close handler were called once each, or the fail handler once, or it was
   a plain HTTP connection.
   */
  lemma EveryAttemptIsAnswered(config: Config, events: seq<Event>)
    requires Legal(config, START, events) && NeverFallsThrough(config, START, events)
    requires var r := Exec(config, START, events); r.c.state == Closed && r.done != {}
    ensures var c := Exec(config, START, events).c;
            c.calls == [OpenHandler, CloseHandler] || c.calls == [FailHandler] || (c.calls == [] && c.isHttp)
  {
    RunKeepsInv(config, START, events);
  }

  /**
   What holds for good once the fall-through has happened: one shutdown too many, an open handler that
   was called, and a failed shutdown whose callback calls the fail handler.
   */
  predicate TaintedConn(c: Conn, done: set<nat>) {
    && c.state != Connecting && c.ec != HttpConnectionEnded
    && |c.shutdowns| == (if c.state == Closed then 2 else 1)
    && c.shutdowns[0] == FailedStatus && (c.state == Closed ==> c.shutdowns[1] == ClosedStatus)
    && OpenHandler in c.calls && (FailHandler in c.calls <==> 0 in done)
  }

  predicate Tainted(r: Run) {
    TaintedConn(r.c, r.done)
  }

  lemma TerminatedTaint(c: Conn, done: set<nat>, ec: Ec)
    requires TaintedConn(c, done) && Plausible(ec)
    ensures TaintedConn(Terminated(c, ec), done)
  {
  }

  /** Past the connecting state a handshake handler returns at once or terminates. */
  lemma GuardTaint(c: Conn, done: set<nat>, ec: Ec, expected: InternalState)
    requires TaintedConn(c, done) && Plausible(ec)
    ensures match HandshakeGuard(c, ec, expected)
            case None => true
            case Some(ecm) => ecm != Success && TaintedConn(Terminated(c, ecm), done)
  {
    var guard := HandshakeGuard(c, ec, expected);
    if guard.Some? {
      TerminatedTaint(c, done, guard.value);
    }
  }

  lemma CloseFrameSentTaint(config: Config, c: Conn, done: set<nat>, code: nat, ack: bool, terminal: bool, prep: Prep)
    requires TaintedConn(c, done) && c.state in {Open, Closing}
    ensures TaintedConn(CloseFrameSent(config, c, code, ack, terminal, prep).0, done)
  {
  }

  lemma CloseReceivedTaint(config: Config, c: Conn, done: set<nat>, payload: ClosePayload, prep: Prep)
    requires TaintedConn(c, done) && (payload.GoodClose? || Plausible(payload.ec))
    ensures TaintedConn(CloseReceived(config, c, payload, prep), done)
  {
    if c.state != Closed {
      var c' := c.(remoteCode := payload.code);
      CloseFrameSentTaint(config, c', done, if payload.GoodClose? then CLOSE_BLANK else CLOSE_PROTOCOL_ERROR, true, config.isServer, prep);
      if !payload.GoodClose? {
        TerminatedTaint(c', done, payload.ec);
      } else {
        TerminatedTaint(c'.(wasClean := true), done, Success);
      }
    }
  }

  lemma ConsumeFailedTaint(config: Config, c: Conn, done: set<nat>, ec: Ec, code: nat, prep: Prep)
    requires TaintedConn(c, done) && Plausible(ec) && (prep.PrepareFailed? ==> Plausible(prep.ec))
    ensures TaintedConn(ConsumeFailed(config, c, ec, code, prep), done)
  {
    if config.dropOnProtocolError {
      TerminatedTaint(c, done, ec);
    } else if c.state != Open {
      TerminatedTaint(c, done, InvalidState);
    } else {
      CloseFrameSentTaint(config, c, done, code, false, TerminalCode(code), prep);
      var (c', closeEc) := CloseFrameSent(config, c, code, false, TerminalCode(code), prep);
      TerminatedTaint(c', done, closeEc);
    }
  }

  lemma FramesReadTaint(config: Config, c: Conn, done: set<nat>, ec: Ec)
    requires TaintedConn(c, done) && Plausible(ec)
    ensures TaintedConn(FramesRead(config, c, ec), done)
  {
    TerminatedTaint(c, done, ec);
    TerminatedTaint(c, done, Success);
    TerminatedTaint(c, done, InvalidState);
  }

  lemma ShutdownDoneTaint(c: Conn, done: set<nat>, i: nat)
    requires TaintedConn(c, done) && i < |c.shutdowns|
    ensures TaintedConn(TerminationHandled(c, c.shutdowns[i]), done + {i})
  {
  }

  lemma StartedTaint(c: Conn, done: set<nat>)
    requires TaintedConn(c, done)
    ensures TaintedConn(Started(c), done)
  {
    TerminatedTaint(c, done, InvalidState);
  }

  lemma TransportReadyTaint(config: Config, c: Conn, done: set<nat>, ec: Ec, requestError: bool)
    requires TaintedConn(c, done) && Plausible(ec)
    ensures TaintedConn(TransportReady(config, c, ec, requestError), done)
  {
    TerminatedTaint(c, done, if c.istate != InternalState.TransportInit then InvalidState else ec);
  }

  lemma TimedOutTaint(c: Conn, done: set<nat>, ec: Ec, reason: Ec)
    requires TaintedConn(c, done) && Plausible(reason)
    ensures TaintedConn(TimedOut(c, ec, reason), done)
  {
    TerminatedTaint(c, done, reason);
  }

  lemma CloseCalledTaint(config: Config, c: Conn, done: set<nat>, code: nat, prep: Prep)
    requires TaintedConn(c, done)
    ensures TaintedConn(CloseCalled(config, c, code, prep).0, done)
  {
    if c.state == Open {
      CloseFrameSentTaint(config, c, done, code, false, TerminalCode(code), prep);
    }
  }

  lemma ServerHandshakeTaint(c: Conn, done: set<nat>, ec: Ec, request: RequestRead, switching: bool)
    requires TaintedConn(c, done) && Plausible(ec)
    ensures TaintedConn(HandshakeRead(c, ec, request), done)
    ensures TaintedConn(HttpResponseWritten(c, ec, switching), done)
  {
    GuardTaint(c, done, ec, ReadHttpRequest);
    GuardTaint(c, done, ec, ProcessHttpRequest);
  }

  lemma ClientHandshakeTaint(c: Conn, done: set<nat>, ec: Ec, response: ResponseRead)
    requires TaintedConn(c, done) && Plausible(ec)
    ensures TaintedConn(HttpRequestSent(c, ec), done)
    ensures TaintedConn(HttpResponseRead(c, ec, response), done)
  {
    GuardTaint(c, done, ec, WriteHttpRequest);
    GuardTaint(c, done, ec, ReadHttpResponse);
  }

  lemma TaintStays(config: Config, r: Run, e: Event)
    requires Tainted(r) && Enabled(config, r, e)
    ensures Tainted(Next(config, r, e))
  {
    match e
    case Start => StartedTaint(r.c, r.done);
    case TransportInit(ec, bad) => TransportReadyTaint(config, r.c, r.done, ec, bad);
    case ReadHandshake(ec, request) => ServerHandshakeTaint(r.c, r.done, ec, request, false);
    case WriteResponse(ec, switching) => ServerHandshakeTaint(r.c, r.done, ec, Oversized, switching);
    case SendRequest(ec) => ClientHandshakeTaint(r.c, r.done, ec, ResponseIncomplete);
    case ReadResponse(ec, response) => ClientHandshakeTaint(r.c, r.done, ec, response);
    case ShutdownDone(i) => ShutdownDoneTaint(r.c, r.done, i);
    case OpenTimeout(ec) => TimedOutTaint(r.c, r.done, ec, OpenHandshakeTimeout);
    case CloseTimeout(ec) => TimedOutTaint(r.c, r.done, ec, CloseHandshakeTimeout);
    case ReadFrame(ec) => FramesReadTaint(config, r.c, r.done, ec);
    case ConsumeError(ec, code, prep) => ConsumeFailedTaint(config, r.c, r.done, ec, code, prep);
    case CloseFrame(payload, prep) => CloseReceivedTaint(config, r.c, r.done, payload, prep);
    case WriteFailed(ec) => TerminatedTaint(r.c, r.done, ec);
    case TerminalWritten => TerminatedTaint(r.c, r.done, Success);
    case CallClose(code, prep) => CloseCalledTaint(config, r.c, r.done, code, prep);
    case _ =>
  }

  lemma {:induction false} TaintStaysForRun(config: Config, r: Run, events: seq<Event>)
    requires Tainted(r) && Legal(config, r, events)
    ensures Tainted(Exec(config, r, events))
    decreases |events|
  {
    if events != [] {
      TaintStays(config, r, events[0]);
      TaintStaysForRun(config, Next(config, r, events[0]), events[1..]);
    }
  }

  /** What every legal run keeps, whether it has fallen through or not. */
  predicate Sound(r: Run) {
    Inv(r) || Tainted(r)
  }

  lemma NextIsSound(config: Config, r: Run, e: Event)
    requires Sound(r) && Enabled(config, r, e)
    ensures Sound(Next(config, r, e))
  {
    if Tainted(r) {
      TaintStays(config, r, e);
    } else if !FallsThrough(r, e) {
      NextKeepsInv(config, r, e);
    }
  }

  /** Every legal run ends untainted or tainted, and the fall-through decides which. */
  lemma {:induction false} FallThroughDecides(config: Config, r: Run, events: seq<Event>)
    requires Inv(r) && Legal(config, r, events)
    ensures if NeverFallsThrough(config, r, events) then Inv(Exec(config, r, events)) else Tainted(Exec(config, r, events))
    decreases |events|
  {
    if events != [] {
      var r' := Next(config, r, events[0]);
      if FallsThrough(r, events[0]) {
        assert Tainted(r');
        TaintStaysForRun(config, r', events[1..]);
      } else {
        NextKeepsInv(config, r, events[0]);
        FallThroughDecides(config, r', events[1..]);
      }
    }
  }

  /**
   Exactly when the session is safe: the shutdown count matches the state at the end of a run if and
   only if no client read a valid response and then failed to negotiate its extensions.
   */
  lemma ConsistentIffNoFallThrough(config: Config, events: seq<Event>)
    requires Legal(config, START, events)
    ensures Consistent(Exec(config, START, events)) <==> NeverFallsThrough(config, START, events)
  {
    FallThroughDecides(config, START, events);
  }

  /**
   Exactly when the handler contract is broken: the open and the fail handler have both been called if
   and only if the run fell through and the callback of its first shutdown has run.
   */
  lemma BothHandlersIffFallThrough(config: Config, events: seq<Event>)
    requires Legal(config, START, events)
    ensures var r := Exec(config, START, events);
            (OpenHandler in r.c.calls && FailHandler in r.c.calls)
            <==> (!NeverFallsThrough(config, START, events) && 0 in r.done)
  {
    FallThroughDecides(config, START, events);
  }

  /** A client run in which the fail handler follows the open handler and the close handler follows both. */
  const NEGOTIATION_FAILURE: seq<Event> := [
    Start, Event.TransportInit(Success, false), SendRequest(Success), ReadResponse(Success, NegotiationFailed),
    ShutdownDone(0), ReadFrame(Eof), ShutdownDone(1)]

  lemma NegotiationFailureBreaksTheContract(config: Config)
    requires !config.isServer
    ensures Legal(config, START, NEGOTIATION_FAILURE)
    ensures var c := Exec(config, START, NEGOTIATION_FAILURE).c;
            && c.calls == [OpenHandler, FailHandler, CloseHandler]
            && c.shutdowns == [FailedStatus, ClosedStatus]
  {
    var r1, r2, r3, r4 := UntilNegotiation(config);
    var r5, r6, r7 := AfterNegotiation(config, r4);
    RunAlong(config, NEGOTIATION_FAILURE, [START, r1, r2, r3, r4, r5, r6, r7], 7);
  }

  predicate Steps(config: Config, r: Run, e: Event, next: Run) {
    Enabled(config, r, e) && Next(config, r, e) == next
  }

  /** Where that run stands after the response: open, with the transport already shut down. */
  predicate OpenedAndFailed(r: Run) {
    && r.c.state == Open && r.c.istate == ProcessConnection && r.c.ec == ExtensionNegFailed
    && r.c.calls == [OpenHandler] && r.c.shutdowns == [FailedStatus] && r.done == {} && !r.c.isHttp
  }

  lemma UntilNegotiation(config: Config) returns (r1: Run, r2: Run, r3: Run, r4: Run)
    requires !config.isServer
    ensures Steps(config, START, NEGOTIATION_FAILURE[0], r1) && Steps(config, r1, NEGOTIATION_FAILURE[1], r2)
    ensures Steps(config, r2, NEGOTIATION_FAILURE[2], r3) && Steps(config, r3, NEGOTIATION_FAILURE[3], r4)
    ensures OpenedAndFailed(r4)
  {
    r1 := Next(config, START, Start);
    r2 := Next(config, r1, Event.TransportInit(Success, false));
    r3 := Next(config, r2, SendRequest(Success));
    r4 := Next(config, r3, ReadResponse(Success, NegotiationFailed));
  }

  lemma AfterNegotiation(config: Config, r4: Run) returns (r5: Run, r6: Run, r7: Run)
    requires OpenedAndFailed(r4)
    ensures Steps(config, r4, NEGOTIATION_FAILURE[4], r5) && Steps(config, r5, NEGOTIATION_FAILURE[5], r6)
    ensures Steps(config, r6, NEGOTIATION_FAILURE[6], r7)
    ensures r7.c.calls == [OpenHandler, FailHandler, CloseHandler] && r7.c.shutdowns == [FailedStatus, ClosedStatus]
  {
    r5 := Next(config, r4, ShutdownDone(0));
    r6 := Next(config, r5, ReadFrame(Eof));
    r7 := Next(config, r6, ShutdownDone(1));
  }

  lemma {:induction false} RunAlong(config: Config, events: seq<Event>, rs: seq<Run>, n: nat)
    requires |events| == n && |rs| == n + 1
    requires forall i :: 0 <= i < n ==> Steps(config, rs[i], events[i], rs[i + 1])
    ensures Legal(config, rs[0], events) && Exec(config, rs[0], events) == rs[n]
    decreases n
  {
    if n > 0 {
      RunAlong(config, events[1..], rs[1..], n - 1);
    }
  }
}
