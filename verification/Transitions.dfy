/**
 What moves a connection from one state to the next, event by event: a table of causes beside the handlers
 of websocketpp/impl/connection_impl.hpp, and what it says about timers, reasons and close codes.
 */
module Transitions {
  import opened Wrappers
  import opened WritePath
  import opened Session
  import opened SessionRuns

  // ---------------------------------------------------------------- the table

  /** A handshake handler that is called with an error, out of turn, or on an open connection. */
  function Refused(c: Conn, ec: Ec, expected: InternalState): Option<Ec> {
    if ec != Success then Some(ec)
    else if c.state == Connecting && c.istate == expected then None
    else Some(InvalidState)
  }

  /** Why an event ends a connection that is not closed, if it does; Success stands for an orderly end. */
  function Cause(config: Config, c: Conn, e: Event): Option<Ec> {
    match e
    case Start => if c.istate == UserInit then None else Some(InvalidState)
    case TransportInit(ec, _) =>
      if c.istate != InternalState.TransportInit then Some(InvalidState) else if ec != Success then Some(ec) else None
    case ReadHandshake(ec, request) =>
      if Refused(c, ec, ReadHttpRequest).Some? then Refused(c, ec, ReadHttpRequest)
      else if request == Oversized || request == Overrun then Some(General)
      else if request.RequestReady? && request.plainHttp then request.ended
      else None
    case WriteResponse(ec, switching) =>
      if Refused(c, ec, ProcessHttpRequest).Some? then Refused(c, ec, ProcessHttpRequest)
      else if switching then None
      else Some(if c.isHttp then HttpConnectionEnded else c.ec)
    case SendRequest(ec) => Refused(c, ec, WriteHttpRequest)
    case ReadResponse(ec, response) =>
      if Refused(c, ec, ReadHttpResponse).Some? then Refused(c, ec, ReadHttpResponse)
      else if response == ResponseException then Some(General)
      else if response.ResponseInvalid? then Some(response.ec)
      else None
    case OpenTimeout(ec) => if ec == Success then Some(OpenHandshakeTimeout) else None
    case CloseTimeout(ec) => if ec == Success then Some(CloseHandshakeTimeout) else None
    case ReadFrame(ec) =>
      if ec == Success then (if c.istate == ProcessConnection then None else Some(InvalidState))
      else Some(if ec == Eof && c.state == Closing && !config.isServer then Success else ec)
    case ConsumeError(ec, _, prep) =>
      if config.dropOnProtocolError then Some(ec)
      else if c.state != Open then Some(InvalidState)
      else if prep == NoBuffer then Some(NoOutgoingBuffers)
      else if prep.PrepareFailed? && prep.ec != Success then Some(prep.ec)
      else None
    case CloseFrame(payload, _) =>
      if !payload.GoodClose? then (if config.dropOnProtocolError then Some(payload.ec) else None)
      else if c.state == Closing && !c.wasClean && config.isServer then Some(Success)
      else None
    case WriteFailed(ec) => Some(ec)
    case TerminalWritten => Some(Success)
    case _ => None
  }

  /** The end of an opening handshake. */
  predicate Opens(c: Conn, e: Event) {
    && c.state == Connecting
    && ((e.WriteResponse? && e.ec == Success && e.switching && c.istate == ProcessHttpRequest)
        || (e.ReadResponse? && e.ec == Success && c.istate == ReadHttpResponse && e.response in {ResponseAccepted, NegotiationFailed}))
  }

  /** The beginning of a closing handshake: a close frame is queued. */
  predicate StartsClosing(config: Config, c: Conn, e: Event) {
    && c.state == Open
    && match e
       case CallClose(_, prep) => prep.Prepared?
       case ConsumeError(_, _, prep) => !config.dropOnProtocolError && prep.Prepared?
       case CloseFrame(payload, prep) => (payload.GoodClose? || !config.dropOnProtocolError) && prep.Prepared?
       case _ => false
  }

  function StateAfter(config: Config, c: Conn, e: Event): SessionState {
    if c.state == Closed || Cause(config, c, e).Some? then Closed
    else if Opens(c, e) then Open
    else if StartsClosing(config, c, e) then Closing
    else c.state
  }

  /** The state and the reason that an event leaves. */
  predicate Moves(config: Config, c: Conn, e: Event, c': Conn) {
    && c'.state == StateAfter(config, c, e)
    && (c.state != Closed && Cause(config, c, e).Some? ==> Ended(c, Cause(config, c, e).value, c'))
  }

  /** A reason is kept and then the local code is 1006; an orderly end leaves both. No timer is left. */
  predicate Ended(c: Conn, cause: Ec, c': Conn) {
    && !c'.timer
    && (cause != Success ==> c'.ec == cause && c'.localCode == 1006)
    && c'.shutdowns == c.shutdowns + [if c.state == Connecting then FailedStatus else ClosedStatus]
  }

  // ---------------------------------------------------------------- the handlers follow it

  lemma EarlyMoves(config: Config, c: Conn, ec: Ec, requestError: bool)
    ensures Moves(config, c, Event.TransportInit(ec, requestError), TransportReady(config, c, ec, requestError))
  {
    var cause := Cause(config, c, Event.TransportInit(ec, requestError));
    if cause.Some? {
      TerminatedEnds(c, cause.value);
    }
  }

  lemma StartMoves(config: Config, c: Conn)
    ensures Moves(config, c, Start, Started(c))
  {
  }

  lemma GuardMoves(c: Conn, ec: Ec, expected: InternalState)
    requires c.state != Closed
    ensures var guard, refused := HandshakeGuard(c, ec, expected), Refused(c, ec, expected);
            guard == Some(if refused.Some? then refused.value else Success)
  {
  }

  lemma ClosedGuard(c: Conn, ec: Ec, expected: InternalState)
    requires c.state == Closed
    ensures HandshakeGuard(c, ec, expected) != Some(Success)
  {
  }

  lemma TerminatedEnds(c: Conn, cause: Ec)
    ensures var c' := Terminated(c, cause);
            c'.state == Closed && (c.state != Closed ==> Ended(c, cause, c'))
  {
  }

  lemma HandshakeReadMoves(config: Config, c: Conn, ec: Ec, request: RequestRead)
    requires c.state != Closed
    ensures Moves(config, c, ReadHandshake(ec, request), HandshakeRead(c, ec, request))
  {
    GuardMoves(c, ec, ReadHttpRequest);
    var refused := Refused(c, ec, ReadHttpRequest);
    if refused.Some? {
      TerminatedEnds(c, refused.value);
    } else {
      TerminatedEnds(c, General);
      if request.RequestReady? && request.plainHttp {
        HttpHandledMoves(c.(istate := ProcessHttpRequest), request.deferred, request.ended);
      }
    }
  }

  lemma HttpHandledMoves(c: Conn, deferred: bool, ended: Option<Ec>)
    requires c.state == Connecting
    ensures var c' := HttpHandled(c, deferred, ended);
            if ended.Some? then c'.state == Closed && Ended(c, ended.value, c') else c'.state == Connecting
  {
  }

  lemma HttpResponseMoves(config: Config, c: Conn, ec: Ec, switching: bool)
    requires c.state != Closed
    ensures Moves(config, c, WriteResponse(ec, switching), HttpResponseWritten(c, ec, switching))
  {
    GuardMoves(c, ec, ProcessHttpRequest);
  }

  lemma HttpRequestMoves(config: Config, c: Conn, ec: Ec)
    requires c.state != Closed
    ensures Moves(config, c, SendRequest(ec), HttpRequestSent(c, ec))
  {
    GuardMoves(c, ec, WriteHttpRequest);
  }

  lemma HttpResponseReadMoves(config: Config, c: Conn, ec: Ec, response: ResponseRead)
    requires c.state != Closed
    ensures Moves(config, c, ReadResponse(ec, response), HttpResponseRead(c, ec, response))
  {
    GuardMoves(c, ec, ReadHttpResponse);
    var refused := Refused(c, ec, ReadHttpResponse);
    if refused.Some? {
      TerminatedEnds(c, refused.value);
    } else {
      ResponseMoves(config, c, response);
    }
  }

  lemma ResponseMoves(config: Config, c: Conn, response: ResponseRead)
    requires c.state == Connecting && c.istate == ReadHttpResponse
    ensures Moves(config, c, ReadResponse(Success, response), HttpResponseRead(c, Success, response))
  {
    match response
    case ResponseException => TerminatedEnds(c, General);
    case ResponseInvalid(ec) => TerminatedEnds(c.(timer := false), ec);
    case _ =>
  }

  lemma ClosedStays(c: Conn, ec: Ec, request: RequestRead, switching: bool, response: ResponseRead)
    requires c.state == Closed
    ensures HandshakeRead(c, ec, request).state == HttpResponseWritten(c, ec, switching).state == Closed
    ensures HttpRequestSent(c, ec).state == HttpResponseRead(c, ec, response).state == Closed
  {
    ClosedGuard(c, ec, ReadHttpRequest);
    ClosedGuard(c, ec, ProcessHttpRequest);
    ClosedGuard(c, ec, WriteHttpRequest);
    ClosedGuard(c, ec, ReadHttpResponse);
  }

  lemma FramesMove(config: Config, c: Conn, ec: Ec)
    ensures Moves(config, c, ReadFrame(ec), FramesRead(config, c, ec))
  {
    var cause := Cause(config, c, ReadFrame(ec));
    if cause.Some? {
      TerminatedEnds(c, cause.value);
    }
  }

  lemma TimersMove(config: Config, c: Conn, ec: Ec)
    ensures Moves(config, c, OpenTimeout(ec), TimedOut(c, ec, OpenHandshakeTimeout))
    ensures Moves(config, c, CloseTimeout(ec), TimedOut(c, ec, CloseHandshakeTimeout))
  {
    TerminatedEnds(c, OpenHandshakeTimeout);
    TerminatedEnds(c, CloseHandshakeTimeout);
  }

  lemma CloseCalledMoves(config: Config, c: Conn, code: nat, prep: Prep)
    ensures Moves(config, c, CallClose(code, prep), CloseCalled(config, c, code, prep).0)
  {
  }

  lemma ConsumeFailedMoves(config: Config, c: Conn, ec: Ec, code: nat, prep: Prep)
    ensures Moves(config, c, ConsumeError(ec, code, prep), ConsumeFailed(config, c, ec, code, prep))
  {
    var (closed, closeEc) := CloseCalled(config, c, code, prep);
    if !config.dropOnProtocolError && closeEc != Success {
      TerminatedEnds(closed, closeEc);
    }
  }

  lemma CloseReceivedMoves(config: Config, c: Conn, payload: ClosePayload, prep: Prep)
    requires c.state != Connecting
    ensures Moves(config, c, CloseFrame(payload, prep), CloseReceived(config, c, payload, prep))
  {
    if c.state != Closed && payload.GoodClose? {
      TerminatedEnds(c.(remoteCode := payload.code, wasClean := true), Success);
    }
  }

  function HandshakeStep(c: Conn, e: Event): Conn
    requires e.ReadHandshake? || e.WriteResponse? || e.SendRequest? || e.ReadResponse?
  {
    match e
    case ReadHandshake(ec, request) => HandshakeRead(c, ec, request)
    case WriteResponse(ec, switching) => HttpResponseWritten(c, ec, switching)
    case SendRequest(ec) => HttpRequestSent(c, ec)
    case ReadResponse(ec, response) => HttpResponseRead(c, ec, response)
  }

  lemma HandshakeMoves(config: Config, c: Conn, e: Event)
    requires e.ReadHandshake? || e.WriteResponse? || e.SendRequest? || e.ReadResponse?
    ensures Moves(config, c, e, HandshakeStep(c, e))
  {
    match e
    case ReadHandshake(ec, request) =>
      if c.state == Closed {
        ClosedStays(c, ec, request, false, ResponseException);
      } else {
        HandshakeReadMoves(config, c, ec, request);
      }
    case WriteResponse(ec, switching) =>
      if c.state == Closed {
        ClosedStays(c, ec, Oversized, switching, ResponseException);
      } else {
        HttpResponseMoves(config, c, ec, switching);
      }
    case SendRequest(ec) =>
      if c.state == Closed {
        ClosedStays(c, ec, Oversized, false, ResponseException);
      } else {
        HttpRequestMoves(config, c, ec);
      }
    case ReadResponse(ec, response) =>
      if c.state == Closed {
        ClosedStays(c, ec, Oversized, false, response);
      } else {
        HttpResponseReadMoves(config, c, ec, response);
      }
  }

  /** One event of any legal run: the next state is that of the table, and if the event ends the connection
      its cause is the recorded reason. */
  lemma NextMoves(config: Config, r: Run, e: Event)
    requires Sound(r) && Enabled(config, r, e)
    ensures Moves(config, r.c, e, Next(config, r, e).c)
  {
    match e
    case Start => StartMoves(config, r.c);
    case TransportInit(ec, bad) => EarlyMoves(config, r.c, ec, bad);
    case ReadHandshake(ec, request) => HandshakeMoves(config, r.c, e);
    case WriteResponse(ec, switching) => HandshakeMoves(config, r.c, e);
    case SendRequest(ec) => HandshakeMoves(config, r.c, e);
    case ReadResponse(ec, response) => HandshakeMoves(config, r.c, e);
    case OpenTimeout(ec) => TimersMove(config, r.c, ec);
    case CloseTimeout(ec) => TimersMove(config, r.c, ec);
    case ReadFrame(ec) => FramesMove(config, r.c, ec);
    case ConsumeError(ec, code, prep) => ConsumeFailedMoves(config, r.c, ec, code, prep);
    case CloseFrame(payload, prep) => CloseReceivedMoves(config, r.c, payload, prep);
    case CallClose(code, prep) => CloseCalledMoves(config, r.c, code, prep);
    case WriteFailed(ec) => TerminatedEnds(r.c, ec);
    case TerminalWritten => TerminatedEnds(r.c, Success);
    case _ =>
  }

  /** The cause of the first event that ends the connection, if one does. */
  function FirstCause(config: Config, r: Run, events: seq<Event>): Option<Ec>
    decreases |events|
  {
    if events == [] then None
    else if Cause(config, r.c, events[0]).Some? then Cause(config, r.c, events[0])
    else FirstCause(config, Next(config, r, events[0]), events[1..])
  }

  /** On every legal run, fall-through or not, the connection is closed just if some event had a cause. */
  lemma {:induction false} ClosedForACause(config: Config, r: Run, events: seq<Event>)
    requires Sound(r) && Legal(config, r, events) && r.c.state != Closed
    ensures Exec(config, r, events).c.state == Closed <==> FirstCause(config, r, events).Some?
    decreases |events|
  {
    if events != [] {
      var r' := Next(config, r, events[0]);
      NextMoves(config, r, events[0]);
      NextIsSound(config, r, events[0]);
      if r'.c.state != Closed {
        ClosedForACause(config, r', events[1..]);
      } else {
        ClosedForGood(config, r', events[1..]);
      }
    }
  }

  lemma {:induction false} ClosedForGood(config: Config, r: Run, events: seq<Event>)
    requires Sound(r) && Legal(config, r, events) && r.c.state == Closed
    ensures Exec(config, r, events).c.state == Closed
    decreases |events|
  {
    if events != [] {
      NextMoves(config, r, events[0]);
      NextIsSound(config, r, events[0]);
      ClosedForGood(config, Next(config, r, events[0]), events[1..]);
    }
  }

  // ---------------------------------------------------------------- timers, codes and the inner state

  /** A handshake handler that is called in turn and without an error. */
  predicate InTurn(c: Conn, ec: Ec, expected: InternalState) {
    ec == Success && c.state == Connecting && c.istate == expected
  }

  function InnerAfter(config: Config, c: Conn, e: Event): InternalState {
    if Opens(c, e) then ProcessConnection
    else
      match e
      case Start => if c.istate == UserInit then InternalState.TransportInit else c.istate
      case TransportInit(ec, _) =>
        if c.istate != InternalState.TransportInit || ec != Success then c.istate
        else if config.isServer then ReadHttpRequest else WriteHttpRequest
      case ReadHandshake(ec, request) =>
        if InTurn(c, ec, ReadHttpRequest) && request !in {Oversized, Overrun, RequestIncomplete} then ProcessHttpRequest else c.istate
      case SendRequest(ec) => if InTurn(c, ec, WriteHttpRequest) then ReadHttpResponse else c.istate
      case _ => c.istate
  }

  /** A close frame is queued in answer to one of the peer. */
  predicate Acknowledges(config: Config, c: Conn, e: Event) {
    e.CloseFrame? && if e.payload.GoodClose? then c.state == Open else !config.dropOnProtocolError
  }

  function TimerAfter(config: Config, c: Conn, e: Event): bool {
    if Cause(config, c, e).Some? || Opens(c, e) then false
    else
      match e
      case TransportInit(_, requestError) => c.timer || (config.openTimeout && (config.isServer || !requestError))
      case ReadHandshake(ec, request) =>
        c.timer && !(InTurn(c, ec, ReadHttpRequest) && request.RequestReady? && request.plainHttp && request.deferred)
      case DeferResponse => false
      case CallClose(_, prep) => c.timer || (config.closeTimeout && c.state == Open && prep.Prepared?)
      case ConsumeError(_, _, prep) => c.timer || (config.closeTimeout && prep.Prepared?)
      case CloseFrame(_, prep) => c.timer || (config.closeTimeout && Acknowledges(config, c, e) && prep.Prepared?)
      case _ => c.timer
  }

  /** The code a close frame is made with, if the event makes one. */
  function CodeChosen(config: Config, c: Conn, e: Event): Option<nat> {
    match e
    case CallClose(code, _) =>
      if c.state != Open then None else Some(if config.silentClose || code == 0 then 1005 else code)
    case ConsumeError(_, code, _) =>
      if c.state != Open || config.dropOnProtocolError then None else Some(if config.silentClose || code == 0 then 1005 else code)
    case CloseFrame(payload, _) =>
      if !Acknowledges(config, c, e) then None
      else if config.silentClose then Some(1005)
      else if !payload.GoodClose? then Some(1002)
      else Some(if payload.code == 1005 then 1000 else payload.code)
    case _ => None
  }

  function LocalCodeAfter(config: Config, c: Conn, e: Event): nat {
    var cause, chosen := Cause(config, c, e), CodeChosen(config, c, e);
    if cause.Some? && cause.value != Success then 1006 else if chosen.Some? then chosen.value else c.localCode
  }

  function CleanAfter(config: Config, c: Conn, e: Event): bool {
    || c.wasClean
    || (Acknowledges(config, c, e) && e.prep.Prepared?)
    || (e.CloseFrame? && e.payload.GoodClose? && c.state == Closing)
  }

  /** What an event leaves of a connection that is not closed. */
  predicate Leaves(config: Config, c: Conn, e: Event, c': Conn) {
    && c'.istate == InnerAfter(config, c, e)
    && c'.timer == TimerAfter(config, c, e)
    && c'.localCode == LocalCodeAfter(config, c, e)
    && c'.remoteCode == (if e.CloseFrame? then e.payload.code else c.remoteCode)
    && c'.wasClean == CleanAfter(config, c, e)
  }

  lemma TerminatedLeaves(c: Conn, cause: Ec)
    ensures var c' := Terminated(c, cause);
            && c'.istate == c.istate && !c'.timer && c'.remoteCode == c.remoteCode && c'.wasClean == c.wasClean
            && c'.localCode == if cause != Success then 1006 else c.localCode
  {
    DisarmedLeaves(c, cause);
  }

  lemma DisarmedLeaves(c: Conn, cause: Ec)
    ensures var c' := Disarmed(c, cause);
            && c'.istate == c.istate && !c'.timer && c'.remoteCode == c.remoteCode && c'.wasClean == c.wasClean
            && c'.localCode == if cause != Success then 1006 else c.localCode
  {
  }

  lemma StartLeaves(config: Config, c: Conn)
    requires c.state != Closed
    ensures Leaves(config, c, Start, Started(c))
  {
    TerminatedLeaves(c, InvalidState);
  }

  lemma EarlyLeaves(config: Config, c: Conn, ec: Ec, requestError: bool)
    requires c.state != Closed
    ensures Leaves(config, c, Event.TransportInit(ec, requestError), TransportReady(config, c, ec, requestError))
  {
    var cause := Cause(config, c, Event.TransportInit(ec, requestError));
    if cause.Some? {
      TerminatedLeaves(c, cause.value);
    }
  }

  lemma HandshakeReadLeaves(config: Config, c: Conn, ec: Ec, request: RequestRead)
    requires c.state != Closed
    ensures Leaves(config, c, ReadHandshake(ec, request), HandshakeRead(c, ec, request))
  {
    GuardMoves(c, ec, ReadHttpRequest);
    var refused := Refused(c, ec, ReadHttpRequest);
    if refused.Some? {
      TerminatedLeaves(c, refused.value);
    } else {
      RequestLeaves(config, c, request);
    }
  }

  lemma RequestLeaves(config: Config, c: Conn, request: RequestRead)
    requires c.state == Connecting && c.istate == ReadHttpRequest
    ensures Leaves(config, c, ReadHandshake(Success, request), HandshakeRead(c, Success, request))
  {
    if request.RequestReady? {
      ReadyRequestLeaves(config, c, request);
    } else {
      TerminatedLeaves(c, General);
    }
  }

  lemma ReadyRequestLeaves(config: Config, c: Conn, request: RequestRead)
    requires c.state == Connecting && c.istate == ReadHttpRequest && request.RequestReady?
    ensures Leaves(config, c, ReadHandshake(Success, request), HandshakeRead(c, Success, request))
  {
    if request.plainHttp {
      HttpHandledLeaves(c.(istate := ProcessHttpRequest), request.deferred, request.ended);
    }
  }

  lemma HttpHandledLeaves(c: Conn, deferred: bool, ended: Option<Ec>)
    requires c.state == Connecting
    ensures var c' := HttpHandled(c, deferred, ended);
            && c'.istate == c.istate && c'.timer == (c.timer && !deferred && ended.None?)
            && c'.remoteCode == c.remoteCode && c'.wasClean == c.wasClean
            && c'.localCode == if ended.Some? && ended.value != Success then 1006 else c.localCode
  {
    var http := c.(isHttp := true);
    if ended.Some? {
      TerminatedLeaves(if deferred then http.(httpState := Deferred, timer := false) else http, ended.value);
    }
  }

  lemma HttpResponseLeaves(config: Config, c: Conn, ec: Ec, switching: bool)
    requires c.state != Closed
    ensures Leaves(config, c, WriteResponse(ec, switching), HttpResponseWritten(c, ec, switching))
  {
    GuardMoves(c, ec, ProcessHttpRequest);
    var refused := Refused(c, ec, ProcessHttpRequest);
    if refused.Some? {
      TerminatedLeaves(c, refused.value);
    }
  }

  lemma HttpRequestLeaves(config: Config, c: Conn, ec: Ec)
    requires c.state != Closed
    ensures Leaves(config, c, SendRequest(ec), HttpRequestSent(c, ec))
  {
    GuardMoves(c, ec, WriteHttpRequest);
    var refused := Refused(c, ec, WriteHttpRequest);
    if refused.Some? {
      TerminatedLeaves(c, refused.value);
    }
  }

  lemma HttpResponseReadLeaves(config: Config, c: Conn, ec: Ec, response: ResponseRead)
    requires c.state != Closed && !FallsThrough(Run(c, {}, 0, false), ReadResponse(ec, response))
    ensures Leaves(config, c, ReadResponse(ec, response), HttpResponseRead(c, ec, response))
  {
    GuardMoves(c, ec, ReadHttpResponse);
    var refused := Refused(c, ec, ReadHttpResponse);
    if refused.Some? {
      TerminatedLeaves(c, refused.value);
    } else if response.ResponseException? {
      TerminatedLeaves(c, General);
    } else if response.ResponseInvalid? {
      TerminatedLeaves(c.(timer := false), response.ec);
    }
  }

  lemma FramesLeave(config: Config, c: Conn, ec: Ec)
    requires c.state != Closed
    ensures Leaves(config, c, ReadFrame(ec), FramesRead(config, c, ec))
  {
    var cause := Cause(config, c, ReadFrame(ec));
    if cause.Some? {
      TerminatedLeaves(c, cause.value);
    }
  }

  lemma TimersLeave(config: Config, c: Conn, ec: Ec)
    requires c.state != Closed
    ensures Leaves(config, c, OpenTimeout(ec), TimedOut(c, ec, OpenHandshakeTimeout))
    ensures Leaves(config, c, CloseTimeout(ec), TimedOut(c, ec, CloseHandshakeTimeout))
  {
    TerminatedLeaves(c, OpenHandshakeTimeout);
    TerminatedLeaves(c, CloseHandshakeTimeout);
  }

  lemma CloseFrameLeaves(config: Config, c: Conn, code: nat, ack: bool, terminal: bool, prep: Prep)
    ensures var c' := CloseFrameSent(config, c, code, ack, terminal, prep).0;
            && c'.istate == c.istate && c'.remoteCode == c.remoteCode
            && c'.timer == (c.timer || (prep.Prepared? && config.closeTimeout))
            && c'.wasClean == (c.wasClean || (prep.Prepared? && ack))
            && c'.localCode == if config.silentClose then 1005 else if code != 0 then code
                               else if !ack then 1005 else if c.remoteCode == 1005 then 1000 else c.remoteCode
  {
  }

  lemma CloseCalledLeaves(config: Config, c: Conn, code: nat, prep: Prep)
    requires c.state != Closed
    ensures Leaves(config, c, CallClose(code, prep), CloseCalled(config, c, code, prep).0)
  {
    CloseFrameLeaves(config, c, code, false, TerminalCode(code), prep);
  }

  lemma ConsumeFailedLeaves(config: Config, c: Conn, ec: Ec, code: nat, prep: Prep)
    requires c.state != Closed
    ensures Leaves(config, c, ConsumeError(ec, code, prep), ConsumeFailed(config, c, ec, code, prep))
  {
    if config.dropOnProtocolError {
      TerminatedLeaves(c, ec);
    } else {
      var (closed, closeEc) := CloseCalled(config, c, code, prep);
      ConsumeCloseLeaves(config, c, ec, code, prep, closed, closeEc);
    }
  }

  lemma ConsumeCloseLeaves(config: Config, c: Conn, ec: Ec, code: nat, prep: Prep, closed: Conn, closeEc: Ec)
    requires c.state != Closed && !config.dropOnProtocolError && CloseCalled(config, c, code, prep) == (closed, closeEc)
    ensures Leaves(config, c, ConsumeError(ec, code, prep), if closeEc != Success then Terminated(closed, closeEc) else closed)
  {
    CloseFrameLeaves(config, c, code, false, TerminalCode(code), prep);
    TerminatedLeaves(closed, closeEc);
  }

  lemma GoodCloseLeaves(config: Config, c: Conn, code: nat, prep: Prep)
    requires c.state in {Open, Closing}
    ensures Leaves(config, c, CloseFrame(GoodClose(code), prep), CloseReceived(config, c, GoodClose(code), prep))
  {
    var heard := c.(remoteCode := code);
    CloseFrameLeaves(config, heard, 0, true, config.isServer, prep);
    TerminatedLeaves(heard.(wasClean := true), Success);
  }

  lemma BadCloseLeaves(config: Config, c: Conn, payload: ClosePayload, prep: Prep)
    requires c.state in {Open, Closing} && !payload.GoodClose?
    ensures Leaves(config, c, CloseFrame(payload, prep), CloseReceived(config, c, payload, prep))
  {
    var heard := c.(remoteCode := payload.code);
    if config.dropOnProtocolError {
      TerminatedLeaves(heard, payload.ec);
    } else {
      CloseFrameLeaves(config, heard, 1002, true, config.isServer, prep);
    }
  }

  lemma HandshakeLeaves(config: Config, c: Conn, e: Event)
    requires e.ReadHandshake? || e.WriteResponse? || e.SendRequest? || e.ReadResponse?
    requires c.state != Closed && !FallsThrough(Run(c, {}, 0, false), e)
    ensures Leaves(config, c, e, HandshakeStep(c, e))
  {
    match e
    case ReadHandshake(ec, request) => HandshakeReadLeaves(config, c, ec, request);
    case WriteResponse(ec, switching) => HttpResponseLeaves(config, c, ec, switching);
    case SendRequest(ec) => HttpRequestLeaves(config, c, ec);
    case ReadResponse(ec, response) => HttpResponseReadLeaves(config, c, ec, response);
  }

  lemma ClosingLeaves(config: Config, r: Run, e: Event)
    requires Sound(r) && Enabled(config, r, e) && r.c.state != Closed
    requires e.ConsumeError? || e.CloseFrame? || e.CallClose? || e.WriteFailed? || e.TerminalWritten?
    ensures Leaves(config, r.c, e, Next(config, r, e).c)
  {
    match e
    case ConsumeError(ec, code, prep) => ConsumeFailedLeaves(config, r.c, ec, code, prep);
    case CloseFrame(payload, prep) =>
      if payload.GoodClose? {
        GoodCloseLeaves(config, r.c, payload.code, prep);
      } else {
        BadCloseLeaves(config, r.c, payload, prep);
      }
    case CallClose(code, prep) => CloseCalledLeaves(config, r.c, code, prep);
    case WriteFailed(ec) => TerminatedLeaves(r.c, ec);
    case TerminalWritten => TerminatedLeaves(r.c, Success);
  }

  lemma CallsLeave(config: Config, r: Run, e: Event)
    requires r.c.state != Closed
    requires e.OtherFrame? || e.PingFrame? || e.CallSend? || e.PassStateCheck? || e.PushAfterCheck? || e.GiveUpAfterCheck?
    ensures Leaves(config, r.c, e, Next(config, r, e).c)
  {
  }

  lemma OthersLeave(config: Config, r: Run, e: Event)
    requires r.c.state != Closed && (e.ShutdownDone? || e.DeferResponse? || e.SendDeferred?)
    ensures Leaves(config, r.c, e, Next(config, r, e).c)
  {
  }

  /** One event of any legal run on a connection that is not closed: the inner state, the timer, both codes and
      the clean flag are those of the table. */
  lemma NextLeaves(config: Config, r: Run, e: Event)
    requires Sound(r) && Enabled(config, r, e) && r.c.state != Closed && !FallsThrough(r, e)
    ensures Leaves(config, r.c, e, Next(config, r, e).c)
  {
    if e.ReadHandshake? || e.WriteResponse? || e.SendRequest? || e.ReadResponse? {
      HandshakeLeaves(config, r.c, e);
    } else if e.ConsumeError? || e.CloseFrame? || e.CallClose? || e.WriteFailed? || e.TerminalWritten? {
      ClosingLeaves(config, r, e);
    } else if e.ShutdownDone? || e.DeferResponse? || e.SendDeferred? {
      OthersLeave(config, r, e);
    } else {
      match e
      case Start => StartLeaves(config, r.c);
      case TransportInit(ec, bad) => EarlyLeaves(config, r.c, ec, bad);
      case OpenTimeout(ec) => TimersLeave(config, r.c, ec);
      case CloseTimeout(ec) => TimersLeave(config, r.c, ec);
      case ReadFrame(ec) => FramesLeave(config, r.c, ec);
      case _ => CallsLeave(config, r, e);
    }
  }

  // ---------------------------------------------------------------- plain HTTP exchanges and their answers

  /** A request that is complete and was read in turn. */
  predicate RequestTaken(c: Conn, e: Event) {
    e.ReadHandshake? && InTurn(c, e.ec, ReadHttpRequest) && e.request.RequestReady?
  }

  predicate HttpAfter(c: Conn, e: Event) {
    c.isHttp || (RequestTaken(c, e) && e.request.plainHttp)
  }

  function HttpStateAfter(c: Conn, e: Event): HttpState {
    if RequestTaken(c, e) && e.request.plainHttp && e.request.deferred then Deferred
    else if e.DeferResponse? then Deferred
    else if e.SendDeferred? && c.httpState == Deferred then BodyWritten
    else c.httpState
  }

  /** The error code of the response that an event has written, if it has one written. */
  function Answer(c: Conn, e: Event): Option<Ec> {
    if e.SendDeferred? && c.httpState == Deferred then Some(if e.statusSet then Success else General)
    else if e.ReadHandshake? && InTurn(c, e.ec, ReadHttpRequest) then
      match e.request
      case ParseException => Some(HttpParseError)
      case NoProcessor(ec) => Some(ec)
      case ShortKey3 => Some(OtherError(0))
      case RequestReady(ec, plainHttp, deferred, _, statusSet) =>
        if (plainHttp && deferred) || (c.httpState != HttpInit && (plainHttp || c.isHttp)) then None
        else Some(if statusSet then ec else General)
      case _ => None
    else None
  }

  /** An event that does not end the connection leaves the code of the response it has written, if any. */
  predicate Answers(config: Config, c: Conn, e: Event, c': Conn) {
    && c'.isHttp == HttpAfter(c, e)
    && (match Cause(config, c, e)
        case Some(cause) =>
          && c'.httpState == (if HttpAfter(c, e) then HttpClosed else HttpStateAfter(c, e))
          && (cause == Success ==> c'.ec == c.ec)
        case None =>
          && c'.httpState == HttpStateAfter(c, e)
          && c'.ec == if Answer(c, e).Some? then Answer(c, e).value else c.ec)
  }

  lemma TerminatedAnswers(c: Conn, cause: Ec)
    ensures var c' := Terminated(c, cause);
            && c'.isHttp == c.isHttp && c'.httpState == (if c.isHttp then HttpClosed else c.httpState)
            && (cause == Success ==> c'.ec == c.ec)
  {
  }

  lemma HandshakeReadAnswers(config: Config, c: Conn, ec: Ec, request: RequestRead)
    requires c.state != Closed && Plausible(ec)
    requires (request.RequestReady? ==> Plausible(request.handshakeEc)) && (request.NoProcessor? ==> Plausible(request.ec))
    ensures Answers(config, c, ReadHandshake(ec, request), HandshakeRead(c, ec, request))
  {
    GuardMoves(c, ec, ReadHttpRequest);
    var refused := Refused(c, ec, ReadHttpRequest);
    if refused.Some? {
      TerminatedAnswers(c, refused.value);
    } else if request.RequestReady? {
      ReadyRequestAnswers(config, c, request);
    } else {
      TerminatedAnswers(c, General);
    }
  }

  lemma ReadyRequestAnswers(config: Config, c: Conn, request: RequestRead)
    requires c.state == Connecting && c.istate == ReadHttpRequest && request.RequestReady? && Plausible(request.handshakeEc)
    ensures Answers(config, c, ReadHandshake(Success, request), HandshakeRead(c, Success, request))
  {
    if request.plainHttp {
      HttpHandledAnswers(c.(istate := ProcessHttpRequest), request.deferred, request.ended);
    }
  }

  lemma HttpHandledAnswers(c: Conn, deferred: bool, ended: Option<Ec>)
    requires c.state == Connecting
    ensures var c' := HttpHandled(c, deferred, ended);
            && c'.isHttp
            && c'.httpState == (if ended.Some? then HttpClosed else if deferred then Deferred else c.httpState)
            && (ended.None? || ended.value == Success ==> c'.ec == c.ec)
            && (c'.state == Closed <==> ended.Some?)
  {
  }

  lemma OtherHandshakeAnswers(config: Config, c: Conn, e: Event)
    requires c.state != Closed && (e.WriteResponse? || e.SendRequest? || e.ReadResponse?)
    requires !FallsThrough(Run(c, {}, 0, false), e)
    ensures Answers(config, c, e, HandshakeStep(c, e))
  {
    match e
    case WriteResponse(ec, switching) => ResponseAnswers(config, c, ec, switching);
    case SendRequest(ec) => RequestSentAnswers(config, c, ec);
    case ReadResponse(ec, response) => ResponseReadAnswers(config, c, ec, response);
  }

  lemma ResponseAnswers(config: Config, c: Conn, ec: Ec, switching: bool)
    requires c.state != Closed
    ensures Answers(config, c, WriteResponse(ec, switching), HttpResponseWritten(c, ec, switching))
  {
    GuardMoves(c, ec, ProcessHttpRequest);
    var refused := Refused(c, ec, ProcessHttpRequest);
    if refused.Some? {
      TerminatedAnswers(c, refused.value);
    }
  }

  lemma RequestSentAnswers(config: Config, c: Conn, ec: Ec)
    requires c.state != Closed
    ensures Answers(config, c, SendRequest(ec), HttpRequestSent(c, ec))
  {
    GuardMoves(c, ec, WriteHttpRequest);
    var refused := Refused(c, ec, WriteHttpRequest);
    if refused.Some? {
      TerminatedAnswers(c, refused.value);
    }
  }

  lemma ResponseReadAnswers(config: Config, c: Conn, ec: Ec, response: ResponseRead)
    requires c.state != Closed && !FallsThrough(Run(c, {}, 0, false), ReadResponse(ec, response))
    ensures Answers(config, c, ReadResponse(ec, response), HttpResponseRead(c, ec, response))
  {
    GuardMoves(c, ec, ReadHttpResponse);
    var refused := Refused(c, ec, ReadHttpResponse);
    if refused.Some? {
      TerminatedAnswers(c, refused.value);
    } else if response.ResponseException? {
      TerminatedAnswers(c, General);
    } else if response.ResponseInvalid? {
      TerminatedAnswers(c.(timer := false), response.ec);
    }
  }

  lemma EarlyAnswers(config: Config, c: Conn, e: Event)
    requires c.state != Closed && (e.Start? || e.TransportInit? || e.OpenTimeout? || e.CloseTimeout? || e.ReadFrame?)
    ensures Answers(config, c, e, Next(config, Run(c, {}, 0, false), e).c)
  {
    var cause := Cause(config, c, e);
    if cause.Some? {
      TerminatedAnswers(c, cause.value);
    }
  }

  lemma CloseFrameAnswers(config: Config, c: Conn, code: nat, ack: bool, terminal: bool, prep: Prep)
    ensures var c' := CloseFrameSent(config, c, code, ack, terminal, prep).0;
            c'.isHttp == c.isHttp && c'.httpState == c.httpState && c'.ec == c.ec
  {
  }

  lemma ConsumeErrorAnswers(config: Config, c: Conn, ec: Ec, code: nat, prep: Prep)
    requires c.state != Closed
    ensures Answers(config, c, ConsumeError(ec, code, prep), ConsumeFailed(config, c, ec, code, prep))
  {
    if config.dropOnProtocolError {
      TerminatedAnswers(c, ec);
    } else {
      CloseFrameAnswers(config, c, code, false, TerminalCode(code), prep);
      var (closed, closeEc) := CloseCalled(config, c, code, prep);
      TerminatedAnswers(closed, closeEc);
    }
  }

  lemma CloseReceivedAnswers(config: Config, c: Conn, payload: ClosePayload, prep: Prep)
    requires c.state in {Open, Closing}
    ensures Answers(config, c, CloseFrame(payload, prep), CloseReceived(config, c, payload, prep))
  {
    var heard := c.(remoteCode := payload.code);
    if payload.GoodClose? {
      CloseFrameAnswers(config, heard, 0, true, config.isServer, prep);
      TerminatedAnswers(heard.(wasClean := true), Success);
    } else {
      CloseFrameAnswers(config, heard, 1002, true, config.isServer, prep);
      TerminatedAnswers(heard, payload.ec);
    }
  }

  lemma ClosingAnswers(config: Config, r: Run, e: Event)
    requires Sound(r) && Enabled(config, r, e) && r.c.state != Closed
    requires e.ConsumeError? || e.CloseFrame? || e.CallClose? || e.WriteFailed? || e.TerminalWritten?
    ensures Answers(config, r.c, e, Next(config, r, e).c)
  {
    match e
    case ConsumeError(ec, code, prep) => ConsumeErrorAnswers(config, r.c, ec, code, prep);
    case CloseFrame(payload, prep) => CloseReceivedAnswers(config, r.c, payload, prep);
    case CallClose(code, prep) => CloseFrameAnswers(config, r.c, code, false, TerminalCode(code), prep);
    case WriteFailed(ec) => TerminatedAnswers(r.c, ec);
    case TerminalWritten => TerminatedAnswers(r.c, Success);
  }

  lemma QuietAnswers(config: Config, r: Run, e: Event)
    requires r.c.state != Closed
    requires e.OtherFrame? || e.PingFrame? || e.CallSend? || e.PassStateCheck? || e.PushAfterCheck? || e.GiveUpAfterCheck?
             || e.ShutdownDone?
    ensures Answers(config, r.c, e, Next(config, r, e).c)
  {
  }

  lemma DeferralAnswers(config: Config, r: Run, e: Event)
    requires r.c.state != Closed && (e.DeferResponse? || e.SendDeferred?)
    ensures Answers(config, r.c, e, Next(config, r, e).c)
  {
  }

  /** One event of any legal run on a connection that is not closed: whether it is a plain HTTP exchange, how far
      that has come, and the code of the response that was written. */
  lemma NextAnswers(config: Config, r: Run, e: Event)
    requires Sound(r) && Enabled(config, r, e) && r.c.state != Closed && !FallsThrough(r, e)
    ensures Answers(config, r.c, e, Next(config, r, e).c)
  {
    if e.ReadHandshake? {
      HandshakeReadAnswers(config, r.c, e.ec, e.request);
    } else if e.WriteResponse? || e.SendRequest? || e.ReadResponse? {
      OtherHandshakeAnswers(config, r.c, e);
    } else if e.ConsumeError? || e.CloseFrame? || e.CallClose? || e.WriteFailed? || e.TerminalWritten? {
      ClosingAnswers(config, r, e);
    } else if e.DeferResponse? || e.SendDeferred? {
      DeferralAnswers(config, r, e);
    } else if e.Start? || e.TransportInit? || e.OpenTimeout? || e.CloseTimeout? || e.ReadFrame? {
      EarlyAnswers(config, r.c, e);
    } else {
      QuietAnswers(config, r, e);
    }
  }

  // ---------------------------------------------------------------- the calls of the handlers

  /** The handlers an event calls: open at the end of the opening handshake, and at the callback of a shutdown
      fail or close, by the status it is bound to; fail not after a plain HTTP exchange. */
  function CallsOf(c: Conn, e: Event): seq<HandlerCall> {
    if Opens(c, e) then [OpenHandler]
    else if e.ShutdownDone? && e.index < |c.shutdowns| then
      match c.shutdowns[e.index]
      case FailedStatus => if c.ec == HttpConnectionEnded then [] else [FailHandler]
      case ClosedStatus => [CloseHandler]
    else []
  }

  lemma TerminatedCalls(c: Conn, cause: Ec)
    ensures Terminated(c, cause).calls == c.calls
  {
  }

  lemma HandshakeCalls(c: Conn, e: Event)
    requires e.ReadHandshake? || e.WriteResponse? || e.SendRequest? || e.ReadResponse?
    ensures HandshakeStep(c, e).calls == c.calls + CallsOf(c, e)
  {
    match e
    case ReadHandshake(ec, request) => HandshakeReadCalls(c, ec, request);
    case WriteResponse(ec, switching) => ResponseWrittenCalls(c, ec, switching);
    case SendRequest(ec) => TerminatedCalls(c, ec);
    case ReadResponse(ec, response) => ResponseReadCalls(c, ec, response);
  }

  lemma HandshakeReadCalls(c: Conn, ec: Ec, request: RequestRead)
    ensures HandshakeRead(c, ec, request).calls == c.calls
  {
    if c.state == Closed {
      ClosedGuard(c, ec, ReadHttpRequest);
    } else {
      GuardMoves(c, ec, ReadHttpRequest);
      if Refused(c, ec, ReadHttpRequest).None? && request.RequestReady? {
        ReadyRequestCalls(c, request);
      }
    }
  }

  lemma ReadyRequestCalls(c: Conn, request: RequestRead)
    requires c.state == Connecting && c.istate == ReadHttpRequest && request.RequestReady?
    ensures HandshakeRead(c, Success, request).calls == c.calls
  {
    if request.plainHttp {
      HttpHandledCalls(c.(istate := ProcessHttpRequest), request.deferred, request.ended);
    }
  }

  lemma HttpHandledCalls(c: Conn, deferred: bool, ended: Option<Ec>)
    ensures HttpHandled(c, deferred, ended).calls == c.calls
  {
  }

  lemma ResponseWrittenCalls(c: Conn, ec: Ec, switching: bool)
    ensures HttpResponseWritten(c, ec, switching).calls == c.calls + CallsOf(c, WriteResponse(ec, switching))
  {
    if c.state == Closed {
      ClosedGuard(c, ec, ProcessHttpRequest);
    } else {
      GuardMoves(c, ec, ProcessHttpRequest);
    }
  }

  lemma ResponseReadCalls(c: Conn, ec: Ec, response: ResponseRead)
    ensures HttpResponseRead(c, ec, response).calls == c.calls + CallsOf(c, ReadResponse(ec, response))
  {
    if c.state == Closed {
      ClosedGuard(c, ec, ReadHttpResponse);
    } else {
      GuardMoves(c, ec, ReadHttpResponse);
    }
  }

  lemma CloseFrameCalls(config: Config, c: Conn, code: nat, ack: bool, terminal: bool, prep: Prep)
    ensures CloseFrameSent(config, c, code, ack, terminal, prep).0.calls == c.calls
  {
  }

  lemma ConsumeErrorCalls(config: Config, c: Conn, ec: Ec, code: nat, prep: Prep)
    ensures ConsumeFailed(config, c, ec, code, prep).calls == c.calls
  {
    if config.dropOnProtocolError {
      TerminatedCalls(c, ec);
    } else {
      CloseFrameCalls(config, c, code, false, TerminalCode(code), prep);
      var (closed, closeEc) := CloseCalled(config, c, code, prep);
      TerminatedCalls(closed, closeEc);
    }
  }

  lemma CloseReceivedCalls(config: Config, c: Conn, payload: ClosePayload, prep: Prep)
    ensures CloseReceived(config, c, payload, prep).calls == c.calls
  {
    var heard := c.(remoteCode := payload.code);
    CloseFrameCalls(config, heard, if payload.GoodClose? then 0 else 1002, true, config.isServer, prep);
  }

  lemma ClosingCalls(config: Config, r: Run, e: Event)
    requires e.ConsumeError? || e.CloseFrame? || e.CallClose? || e.WriteFailed? || e.TerminalWritten?
    ensures Next(config, r, e).c.calls == r.c.calls
  {
    match e
    case ConsumeError(ec, code, prep) => ConsumeErrorCalls(config, r.c, ec, code, prep);
    case CloseFrame(payload, prep) => CloseReceivedCalls(config, r.c, payload, prep);
    case CallClose(code, prep) => CloseFrameCalls(config, r.c, code, false, TerminalCode(code), prep);
    case WriteFailed(ec) => TerminatedCalls(r.c, ec);
    case TerminalWritten => TerminatedCalls(r.c, Success);
  }

  lemma EarlyCalls(config: Config, r: Run, e: Event)
    requires e.Start? || e.TransportInit? || e.OpenTimeout? || e.CloseTimeout? || e.ReadFrame?
    ensures Next(config, r, e).c.calls == r.c.calls
  {
  }

  /** One event, in any state whatever: the handlers it calls. */
  lemma NextCalls(config: Config, r: Run, e: Event)
    ensures Next(config, r, e).c.calls == r.c.calls + CallsOf(r.c, e)
  {
    if e.ReadHandshake? || e.WriteResponse? || e.SendRequest? || e.ReadResponse? {
      HandshakeCalls(r.c, e);
    } else if e.ConsumeError? || e.CloseFrame? || e.CallClose? || e.WriteFailed? || e.TerminalWritten? {
      ClosingCalls(config, r, e);
    } else if e.Start? || e.TransportInit? || e.OpenTimeout? || e.CloseTimeout? || e.ReadFrame? {
      EarlyCalls(config, r, e);
    }
  }

  // ---------------------------------------------------------------- every wait has its timer

  /** The wait for the transport is not timed here, nor a handshake whose answer was put off, nor a client whose
      request could not be made. */
  predicate KeepsTimer(e: Event) {
    && !e.DeferResponse?
    && (e.ReadHandshake? && e.request.RequestReady? ==> !e.request.deferred)
    && (e.TransportInit? ==> !e.requestError)
  }

  predicate Timed(config: Config, c: Conn) {
    match c.state
    case Connecting => c.timer == (config.openTimeout && c.istate !in {UserInit, InternalState.TransportInit})
    case Open => !c.timer
    case Closing => c.timer == config.closeTimeout
    case Closed => true
  }

  /** From the start of the opening handshake to its end, and from the queueing of a close frame to the end of
      the connection, the configured timer runs; on an open connection none does. */
  lemma {:induction false} WaitingIsTimed(config: Config, r: Run, events: seq<Event>)
    requires Inv(r) && Timed(config, r.c) && Legal(config, r, events) && NeverFallsThrough(config, r, events)
    requires forall i :: 0 <= i < |events| ==> KeepsTimer(events[i])
    ensures Timed(config, Exec(config, r, events).c)
    decreases |events|
  {
    if events != [] {
      NextKeepsInv(config, r, events[0]);
      NextIsTimed(config, r, events[0]);
      WaitingIsTimed(config, Next(config, r, events[0]), events[1..]);
    }
  }

  lemma NextIsTimed(config: Config, r: Run, e: Event)
    requires Inv(r) && Timed(config, r.c) && Enabled(config, r, e) && !FallsThrough(r, e) && KeepsTimer(e)
    ensures Timed(config, Next(config, r, e).c)
  {
    NextMoves(config, r, e);
    if r.c.state != Closed {
      NextLeaves(config, r, e);
      if r.c.state == Connecting {
        ConnectingIsTimed(config, r.c, e, Next(config, r, e).c);
      }
    }
  }

  lemma ConnectingIsTimed(config: Config, c: Conn, e: Event, c': Conn)
    requires c.state == Connecting && Timed(config, c) && KeepsTimer(e) && Moves(config, c, e, c') && Leaves(config, c, e, c')
    requires c.istate != ProcessConnection && !e.CloseFrame? && !e.ConsumeError?
    ensures Timed(config, c')
  {
  }

  lemma SessionIsTimed(config: Config, events: seq<Event>)
    requires Legal(config, START, events) && NeverFallsThrough(config, START, events)
    requires forall i :: 0 <= i < |events| ==> KeepsTimer(events[i])
    ensures Timed(config, Exec(config, START, events).c)
  {
    WaitingIsTimed(config, START, events);
  }

  // ---------------------------------------------------------------- the peer's code

  /** The code of the last close frame that was met before the connection closed. */
  function CodeHeard(config: Config, r: Run, events: seq<Event>): Option<nat>
    decreases |events|
  {
    if events == [] || r.c.state == Closed then None
    else
      var later := CodeHeard(config, Next(config, r, events[0]), events[1..]);
      if later.None? && events[0].CloseFrame? then Some(events[0].payload.code) else later
  }

  lemma {:induction false} RemoteCodeIsHeard(config: Config, r: Run, events: seq<Event>)
    requires Inv(r) && Legal(config, r, events) && NeverFallsThrough(config, r, events)
    ensures var heard := CodeHeard(config, r, events);
            Exec(config, r, events).c.remoteCode == if heard.Some? then heard.value else r.c.remoteCode
    decreases |events|
  {
    if events != [] {
      NextKeepsInv(config, r, events[0]);
      RemoteCodeIsHeard(config, Next(config, r, events[0]), events[1..]);
      if r.c.state != Closed {
        NextLeaves(config, r, events[0]);
      } else {
        ClosedKeepsCode(config, r, events[0]);
        NextMoves(config, r, events[0]);
      }
    }
  }

  lemma ClosedKeepsCode(config: Config, r: Run, e: Event)
    requires r.c.state == Closed && Enabled(config, r, e)
    ensures Next(config, r, e).c.remoteCode == r.c.remoteCode
  {
    if e.ReadHandshake? || e.WriteResponse? || e.SendRequest? || e.ReadResponse? {
      HandshakeKeepsCode(r.c, e);
    } else if e.ConsumeError? {
      CloseCalledKeepsCode(config, r.c, e);
    }
  }

  lemma HandshakeKeepsCode(c: Conn, e: Event)
    requires c.state == Closed && (e.ReadHandshake? || e.WriteResponse? || e.SendRequest? || e.ReadResponse?)
    ensures HandshakeStep(c, e).remoteCode == c.remoteCode
  {
    ClosedGuard(c, e.ec, ReadHttpRequest);
    ClosedGuard(c, e.ec, ProcessHttpRequest);
    ClosedGuard(c, e.ec, WriteHttpRequest);
    ClosedGuard(c, e.ec, ReadHttpResponse);
  }

  lemma CloseCalledKeepsCode(config: Config, c: Conn, e: Event)
    requires c.state == Closed && e.ConsumeError?
    ensures ConsumeFailed(config, c, e.ec, e.code, e.prep).remoteCode == c.remoteCode
  {
  }
}
