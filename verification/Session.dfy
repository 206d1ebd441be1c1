/**
 The session half of websocketpp::connection: the connecting / open / closing / closed machine, the
 opening and closing handshakes, termination, and the calls of the user's handlers.

 Transport, processor and message pool are oracles: what they answer is an argument.
 */
module Session {
  import opened Wrappers
  import opened WritePath

  datatype SessionState = Connecting | Open | Closing | Closed

  datatype InternalState =
    | UserInit | TransportInit | ReadHttpRequest | WriteHttpRequest
    | ReadHttpResponse | ProcessHttpRequest | ProcessConnection

  datatype HttpState = HttpInit | Deferred | BodyWritten | HttpClosed

  datatype Ec =
    | Success
    | Eof                      // transport
    | OperationAborted         // transport
    | InvalidState
    | HttpConnectionEnded
    | HttpParseError
    | ExtensionNegFailed
    | OpenHandshakeTimeout
    | CloseHandshakeTimeout
    | NoOutgoingBuffers
    | General
    | OtherError(code: nat)

  datatype TerminateStatus = FailedStatus | ClosedStatus

  datatype HandlerCall = OpenHandler | FailHandler | CloseHandler

  /** Compile-time and construction-time settings. */
  datatype Config = Config(isServer: bool, dropOnProtocolError: bool, silentClose: bool,
                           openTimeout: bool, closeTimeout: bool)

  /** Close codes of RFC 6455 section 7.4.1, and the value websocketpp uses for "not given". */
  const CLOSE_BLANK := 0
  const CLOSE_NORMAL := 1000
  const CLOSE_PROTOCOL_ERROR := 1002
  const CLOSE_NO_STATUS := 1005
  const CLOSE_ABNORMAL := 1006

  predicate TerminalCode(code: nat) {
    code == CLOSE_PROTOCOL_ERROR || code == 1007 || code == 1008 || code == 1009 || code == 1011
  }

  /** What the message pool and the processor make of a frame to be sent. */
  datatype Prep = NoBuffer | PrepareFailed(ec: Ec) | Prepared(header: bytes, payload: bytes)

  /**
   What handle_read_handshake finds in the bytes it was given. `plainHttp` says that the request went
   to the HTTP handler, which may defer its response (`deferred`) or terminate the connection (`ended`).
   */
  datatype RequestRead =
    | Oversized
    | ParseException
    | Overrun
    | RequestIncomplete
    | NoProcessor(ec: Ec)
    | ShortKey3
    | RequestReady(handshakeEc: Ec, plainHttp: bool, deferred: bool, ended: Option<Ec>, statusSet: bool)

  /** What handle_read_http_response finds in the bytes it was given. */
  datatype ResponseRead =
    | ResponseException
    | ResponseIncomplete
    | ResponseInvalid(ec: Ec)
    | NegotiationFailed
    | ResponseAccepted

  datatype Conn = Conn(
    state: SessionState,
    istate: InternalState,
    httpState: HttpState,
    isHttp: bool,
    ec: Ec,
    wasClean: bool,
    localCode: nat,
    remoteCode: nat,
    timer: bool,
    shutdowns: seq<TerminateStatus>,  // the async_shutdown calls made, with the status bound to each
    calls: seq<HandlerCall>,          // the open, fail and close handler calls made
    pushed: seq<Message>)             // the messages given to write_push

  const FRESH := Conn(Connecting, UserInit, HttpInit, false, Success, false,
                        CLOSE_ABNORMAL, CLOSE_ABNORMAL, false, [], [], [])

  // ---------------------------------------------------------------- specification functions

  /** The first half of terminate: the timer, the reason, the HTTP state. */
  function Disarmed(f: Conn, ec: Ec): Conn {
    var f := f.(timer := false);
    var f := if ec == Success then f else f.(ec := ec, localCode := CLOSE_ABNORMAL);
    if f.isHttp then f.(httpState := HttpClosed) else f
  }

  function ShutDown(f: Conn): Conn {
    if f.state == Closed then f
    else f.(state := Closed, shutdowns := f.shutdowns + [if f.state == Connecting then FailedStatus else ClosedStatus])
  }

  function Terminated(f: Conn, ec: Ec): Conn {
    ShutDown(Disarmed(f, ec))
  }

  function TerminationHandled(f: Conn, status: TerminateStatus): Conn {
    match status
    case FailedStatus => if f.ec == HttpConnectionEnded then f else f.(calls := f.calls + [FailHandler])
    case ClosedStatus => f.(calls := f.calls + [CloseHandler])
  }

  function Opened(f: Conn): Conn {
    f.(istate := ProcessConnection, state := Open, calls := f.calls + [OpenHandler])
  }

  /** The close code that goes on the wire. */
  function LocalCode(c: Config, f: Conn, code: nat, ack: bool): nat {
    if c.silentClose then CLOSE_NO_STATUS
    else if code != CLOSE_BLANK then code
    else if !ack then CLOSE_NO_STATUS
    else if f.remoteCode == CLOSE_NO_STATUS then CLOSE_NORMAL
    else f.remoteCode
  }

  function CloseFrameSent(c: Config, f: Conn, code: nat, ack: bool, terminal: bool, prep: Prep): (Conn, Ec) {
    var f := f.(localCode := LocalCode(c, f, code, ack));
    match prep
    case NoBuffer => (f, NoOutgoingBuffers)
    case PrepareFailed(ec) => (f, ec)
    case Prepared(header, payload) =>
      (f.(state := Closing, wasClean := f.wasClean || ack, timer := f.timer || c.closeTimeout,
          pushed := f.pushed + [Message(header, payload, terminal, Kind.Close)]), Success)
  }

  function CloseCalled(c: Config, f: Conn, code: nat, prep: Prep): (Conn, Ec) {
    if f.state != Open then (f, InvalidState)
    else CloseFrameSent(c, f, code, false, TerminalCode(code), prep)
  }

  function CloseAcked(c: Config, f: Conn, code: nat, prep: Prep): Conn {
    CloseFrameSent(c, f, code, true, c.isServer, prep).0
  }

  /** send, ping and pong as one atomic call. */
  function FrameSent(f: Conn, kind: Kind, prep: Prep): Conn {
    if f.state == Open && prep.Prepared?
    then f.(pushed := f.pushed + [Message(prep.header, prep.payload, false, kind)])
    else f
  }

  function Started(f: Conn): Conn {
    if f.istate != UserInit then Terminated(f, InvalidState) else f.(istate := TransportInit)
  }

  function TransportReady(c: Config, f: Conn, ec: Ec, requestError: bool): Conn {
    var ecm := if f.istate != TransportInit then InvalidState else ec;
    if ecm != Success then Terminated(f, ecm)
    else if c.isServer then f.(istate := ReadHttpRequest, timer := f.timer || c.openTimeout)
    else f.(istate := WriteHttpRequest, timer := f.timer || (!requestError && c.openTimeout))
  }

  /** The test at the head of the four handshake handlers: None means return at once. */
  function HandshakeGuard(f: Conn, ec: Ec, expected: InternalState): Option<Ec> {
    var ecm :=
      if ec != Success then Some(ec)
      else if f.state == Connecting then Some(if f.istate != expected then InvalidState else Success)
      else if f.state == Closed then None
      else Some(InvalidState);
    if ecm == Some(Eof) && f.state == Closed then None else ecm
  }

  function ResponseWritten(f: Conn, ec: Ec, statusSet: bool): Conn {
    if ec == HttpConnectionEnded then f else f.(ec := if statusSet then ec else General)
  }

  function ErrorResponseWritten(f: Conn, ec: Ec): Conn {
    if f.istate != ReadHttpRequest then Terminated(f, InvalidState)
    else ResponseWritten(f.(istate := ProcessHttpRequest), ec, true)
  }

  /** The call of the HTTP handler. */
  function HttpHandled(f: Conn, deferred: bool, ended: Option<Ec>): Conn {
    var f := f.(isHttp := true);
    var f := if deferred then f.(httpState := Deferred, timer := false) else f;
    if ended.Some? then Terminated(f, ended.value) else f
  }

  function HandshakeRead(f: Conn, ec: Ec, read: RequestRead): Conn {
    match HandshakeGuard(f, ec, ReadHttpRequest)
    case None => f
    case Some(ecm) =>
      if ecm != Success then Terminated(f, ecm) else
      match read
      case Oversized => Terminated(f, General)
      case ParseException => ErrorResponseWritten(f, HttpParseError)
      case Overrun => Terminated(f, General)
      case RequestIncomplete => f
      case NoProcessor(e) => ErrorResponseWritten(f, e)
      case ShortKey3 => ErrorResponseWritten(f, OtherError(0))
      case RequestReady(e, plainHttp, deferred, ended, statusSet) =>
        var f := f.(istate := ProcessHttpRequest);
        var f := if plainHttp then HttpHandled(f, deferred, ended) else f;
        var e := if plainHttp && f.state == Closed then HttpConnectionEnded else e;
        if !f.isHttp || f.httpState == HttpInit then ResponseWritten(f, e, statusSet) else f
  }

  function HttpResponseWritten(f: Conn, ec: Ec, switching: bool): Conn {
    match HandshakeGuard(f, ec, ProcessHttpRequest)
    case None => f
    case Some(ecm) =>
      if ecm != Success then Terminated(f, ecm) else
      var f := f.(timer := false);
      if !switching then
        var f := if f.isHttp then f.(ec := HttpConnectionEnded) else f;
        Terminated(f, f.ec)
      else Opened(f)
  }

  function DeferredResponseSent(f: Conn, statusSet: bool): Conn {
    if f.httpState != Deferred then f else ResponseWritten(f.(httpState := BodyWritten), Success, statusSet)
  }

  function HttpRequestSent(f: Conn, ec: Ec): Conn {
    match HandshakeGuard(f, ec, WriteHttpRequest)
    case None => f
    case Some(ecm) =>
      if ecm != Success then Terminated(f, ecm) else f.(istate := ReadHttpResponse)
  }

  /** After a failed negotiation the source terminates and then goes on to open the connection. */
  function HttpResponseRead(f: Conn, ec: Ec, read: ResponseRead): Conn {
    match HandshakeGuard(f, ec, ReadHttpResponse)
    case None => f
    case Some(ecm) =>
      if ecm != Success then Terminated(f, ecm) else
      match read
      case ResponseException => Terminated(f, General)
      case ResponseIncomplete => f
      case ResponseInvalid(e) => Terminated(f.(timer := false), e)
      case NegotiationFailed => Opened(Terminated(f.(timer := false), ExtensionNegFailed))
      case ResponseAccepted => Opened(f.(timer := false))
  }

  function TimedOut(f: Conn, ec: Ec, reason: Ec): Conn {
    if ec == Success then Terminated(f, reason) else f
  }

  /** The head of handle_read_frame, before its message loop. */
  function FramesRead(c: Config, f: Conn, ec: Ec): Conn {
    var ecm := if ec == Success && f.istate != ProcessConnection then InvalidState else ec;
    if ecm == Success then f
    else if ecm == Eof && f.state == Closed then f
    else if ecm == Eof && f.state == Closing && !c.isServer then Terminated(f, Success)
    else if ecm == InvalidState && f.state == Closed then f
    else Terminated(f, ecm)
  }

  /** The message loop of handle_read_frame when the processor reports an error. */
  function ConsumeFailed(c: Config, f: Conn, ec: Ec, code: nat, prep: Prep): Conn {
    if c.dropOnProtocolError then Terminated(f, ec) else
    var (f, closeEc) := CloseCalled(c, f, code, prep);
    if closeEc != Success then Terminated(f, closeEc) else f
  }

  function PingReceived(f: Conn, reply: bool, prep: Prep): Conn {
    if f.state == Open && reply then FrameSent(f, Kind.Pong, prep) else f
  }

  /** What extract_code and extract_reason make of the payload of a received close frame. */
  datatype ClosePayload = BadCode(code: nat, ec: Ec) | BadReason(code: nat, ec: Ec) | GoodClose(code: nat)

  function CloseReceived(c: Config, f: Conn, payload: ClosePayload, prep: Prep): Conn {
    if f.state == Closed then f else
    var f := f.(remoteCode := payload.code);
    if !payload.GoodClose? then
      if c.dropOnProtocolError then Terminated(f, payload.ec)
      else CloseAcked(c, f, CLOSE_PROTOCOL_ERROR, prep)
    else if f.state == Open then CloseAcked(c, f, CLOSE_BLANK, prep)
    else if f.state == Closing && !f.wasClean then
      var f := f.(wasClean := true);
      if c.isServer then Terminated(f, Success) else f
    else f
  }

  // ---------------------------------------------------------------- the methods of the source

  class Connection {
    const config: Config
    var state: SessionState
    var istate: InternalState
    var httpState: HttpState
    var isHttp: bool
    var ec: Ec
    var wasClean: bool
    var localCode: nat
    var remoteCode: nat
    var timer: bool
    var shutdowns: seq<TerminateStatus>
    var calls: seq<HandlerCall>
    var pushed: seq<Message>

    function View(): Conn
      reads this
    {
      Conn(state, istate, httpState, isHttp, ec, wasClean, localCode, remoteCode, timer, shutdowns, calls, pushed)
    }

    constructor (config: Config)
      ensures this.config == config && View() == FRESH
    {
      this.config := config;
      state, istate, httpState, isHttp := Connecting, UserInit, HttpInit, false;
      ec, wasClean, localCode, remoteCode := Success, false, CLOSE_ABNORMAL, CLOSE_ABNORMAL;
      timer, shutdowns, calls, pushed := false, [], [], [];
    }

    /** The first half of terminate. */
    method Disarm(reason: Ec)
      modifies this
      ensures View() == Disarmed(old(View()), reason)
    {
      timer := false;
      if reason != Success {
        ec := reason;
        localCode := CLOSE_ABNORMAL;
      }
      if isHttp {
        httpState := HttpClosed;
      }
    }

    /** Its second half: the state, and the shutdown of the transport. */
    method ShutDownTransport()
      modifies `state, `shutdowns
      ensures View() == ShutDown(old(View()))
    {
      var status;
      if state == Connecting {
        state := Closed;
        status := FailedStatus;
      } else if state != Closed {
        state := Closed;
        status := ClosedStatus;
      } else {
        return;
      }
      shutdowns := shutdowns + [status];
    }

    method Terminate(reason: Ec)
      modifies this
      ensures View() == Terminated(old(View()), reason)
    {
      Disarm(reason);
      ShutDownTransport();
    }

    method HandleTerminate(status: TerminateStatus)
      modifies `calls
      ensures View() == TerminationHandled(old(View()), status)
    {
      if status == FailedStatus {
        if ec != HttpConnectionEnded {
          calls := calls + [FailHandler];
        }
      } else {
        calls := calls + [CloseHandler];
      }
    }

    method Start()
      modifies this
      ensures View() == Started(old(View()))
    {
      if istate != UserInit {
        Terminate(InvalidState);
        return;
      }
      istate := TransportInit;
    }

    method HandleTransportInit(ec0: Ec, requestError: bool)
      modifies this
      ensures View() == TransportReady(config, old(View()), ec0, requestError)
    {
      var ecm := ec0;
      if istate != TransportInit {
        ecm := InvalidState;
      }
      if ecm != Success {
        Terminate(ecm);
        return;
      }
      if config.isServer {
        istate := ReadHttpRequest;
        if config.openTimeout { timer := true; }
      } else {
        istate := WriteHttpRequest;
        if requestError { return; }
        if config.openTimeout { timer := true; }
      }
    }

    /** The lines the four handshake handlers share; `proceed` is false when the handler must return. */
    method EnterHandshakeHandler(ec0: Ec, expected: InternalState) returns (proceed: bool)
      modifies this
      ensures match HandshakeGuard(old(View()), ec0, expected)
              case None => !proceed && View() == old(View())
              case Some(ecm) =>
                if ecm == Success then proceed && View() == old(View())
                else !proceed && View() == Terminated(old(View()), ecm)
    {
      var ecm := ec0;
      if ecm == Success {
        if state == Connecting {
          if istate != expected { ecm := InvalidState; }
        } else if state == Closed {
          return false;
        } else {
          ecm := InvalidState;
        }
      }
      if ecm != Success {
        if ecm == Eof && state == Closed { return false; }
        Terminate(ecm);
        return false;
      }
      return true;
    }

    method WriteHttpResponse(ec0: Ec, statusSet: bool)
      modifies `ec
      ensures View() == ResponseWritten(old(View()), ec0, statusSet)
    {
      if ec0 == HttpConnectionEnded { return; }
      if !statusSet {
        ec := General;
      } else {
        ec := ec0;
      }
    }

    method WriteHttpResponseError(ec0: Ec)
      modifies this
      ensures View() == ErrorResponseWritten(old(View()), ec0)
    {
      if istate != ReadHttpRequest {
        Terminate(InvalidState);
        return;
      }
      istate := ProcessHttpRequest;
      WriteHttpResponse(ec0, true);
    }

    method HandleReadHandshake(ec0: Ec, read: RequestRead)
      modifies this
      ensures View() == HandshakeRead(old(View()), ec0, read)
    {
      var proceed := EnterHandshakeHandler(ec0, ReadHttpRequest);
      if !proceed { return; }
      match read
      case Oversized => Terminate(General);
      case ParseException => WriteHttpResponseError(HttpParseError);
      case Overrun => Terminate(General);
      case RequestIncomplete =>
      case NoProcessor(e) => WriteHttpResponseError(e);
      case ShortKey3 => WriteHttpResponseError(OtherError(0));
      case RequestReady(e, plainHttp, deferred, ended, statusSet) =>
        istate := ProcessHttpRequest;
        var handshakeEc := e;
        if plainHttp {
          CallHttpHandler(deferred, ended);
          if state == Closed { handshakeEc := HttpConnectionEnded; }
        }
        if !isHttp || httpState == HttpInit { WriteHttpResponse(handshakeEc, statusSet); }
    }

    method CallHttpHandler(deferred: bool, ended: Option<Ec>)
      modifies this
      ensures View() == HttpHandled(old(View()), deferred, ended)
    {
      isHttp := true;
      if deferred { DeferHttpResponse(); }
      if ended.Some? { Terminate(ended.value); }
    }

    method HandleWriteHttpResponse(ec0: Ec, switching: bool)
      modifies this
      ensures View() == HttpResponseWritten(old(View()), ec0, switching)
    {
      var proceed := EnterHandshakeHandler(ec0, ProcessHttpRequest);
      if !proceed { return; }
      timer := false;
      if !switching {
        EndHttpExchange();
        return;
      }
      OpenConnection();
    }

    /** The branch for a response other than switching protocols. */
    method EndHttpExchange()
      modifies this
      ensures View() == (var f := old(View()); var f := if f.isHttp then f.(ec := HttpConnectionEnded) else f; Terminated(f, f.ec))
    {
      if isHttp { ec := HttpConnectionEnded; }
      Terminate(ec);
    }

    /** The last lines of both handshakes: the state, and the open handler. */
    method OpenConnection()
      modifies `istate, `state, `calls
      ensures View() == Opened(old(View()))
    {
      istate := ProcessConnection;
      state := Open;
      calls := calls + [OpenHandler];
    }

    method HandleSendHttpRequest(ec0: Ec)
      modifies this
      ensures View() == HttpRequestSent(old(View()), ec0)
    {
      var proceed := EnterHandshakeHandler(ec0, WriteHttpRequest);
      if !proceed { return; }
      istate := ReadHttpResponse;
    }

    method HandleReadHttpResponse(ec0: Ec, read: ResponseRead)
      modifies this
      ensures View() == HttpResponseRead(old(View()), ec0, read)
    {
      var proceed := EnterHandshakeHandler(ec0, ReadHttpResponse);
      if !proceed { return; }
      if read.ResponseException? {
        Terminate(General);
        return;
      }
      if read.ResponseIncomplete? { return; }
      timer := false;
      if read.ResponseInvalid? {
        Terminate(read.ec);
        return;
      }
      if read.NegotiationFailed? {
        Terminate(ExtensionNegFailed);  // no return here
      }
      OpenConnection();
    }

    method HandleOpenHandshakeTimeout(ec0: Ec)
      modifies this
      ensures View() == TimedOut(old(View()), ec0, OpenHandshakeTimeout)
    {
      if ec0 == OperationAborted {
      } else if ec0 != Success {
      } else {
        Terminate(OpenHandshakeTimeout);
      }
    }

    method HandleCloseHandshakeTimeout(ec0: Ec)
      modifies this
      ensures View() == TimedOut(old(View()), ec0, CloseHandshakeTimeout)
    {
      if ec0 == OperationAborted {
      } else if ec0 != Success {
      } else {
        Terminate(CloseHandshakeTimeout);
      }
    }

    method SendCloseFrame(code: nat, ack: bool, terminal: bool, prep: Prep) returns (result: Ec)
      modifies this
      ensures (View(), result) == CloseFrameSent(config, old(View()), code, ack, terminal, prep)
    {
      if config.silentClose {
        localCode := CLOSE_NO_STATUS;
      } else if code != CLOSE_BLANK {
        localCode := code;
      } else if !ack {
        localCode := CLOSE_NO_STATUS;
      } else if remoteCode == CLOSE_NO_STATUS {
        localCode := CLOSE_NORMAL;
      } else {
        localCode := remoteCode;
      }
      if prep.NoBuffer? { return NoOutgoingBuffers; }
      if prep.PrepareFailed? { return prep.ec; }
      var msg := Message(prep.header, prep.payload, false, Kind.Close);
      if terminal { msg := msg.(terminal := true); }
      state := Closing;
      if ack { wasClean := true; }
      if config.closeTimeout { timer := true; }
      pushed := pushed + [msg];
      return Success;
    }

    method Close(code: nat, prep: Prep) returns (result: Ec)
      modifies this
      ensures (View(), result) == CloseCalled(config, old(View()), code, prep)
    {
      if state != Open { return InvalidState; }
      result := SendCloseFrame(code, false, TerminalCode(code), prep);
    }

    /** send, ping and pong, which differ only in the frame they prepare. */
    method SendFrame(kind: Kind, prep: Prep) returns (result: Ec)
      modifies `pushed
      ensures View() == FrameSent(old(View()), kind, prep)
      ensures pushed == old(pushed) + if old(state) == Open && prep.Prepared? then [Message(prep.header, prep.payload, false, kind)] else []
      ensures result == if old(state) != Open then InvalidState
                        else match prep case NoBuffer => NoOutgoingBuffers case PrepareFailed(e) => e case Prepared(_, _) => Success
    {
      if state != Open { return InvalidState; }
      if prep.NoBuffer? { return NoOutgoingBuffers; }
      if prep.PrepareFailed? { return prep.ec; }
      pushed := pushed + [Message(prep.header, prep.payload, false, kind)];
      return Success;
    }

    method HandleReadFrame(ec0: Ec)
      modifies this
      ensures View() == FramesRead(config, old(View()), ec0)
    {
      var ecm := ec0;
      if ecm == Success && istate != ProcessConnection { ecm := InvalidState; }
      if ecm != Success {
        if ecm == Eof {
          if state == Closed { return; }
          if state == Closing && !config.isServer {
            Terminate(Success);
            return;
          }
        } else if ecm == InvalidState {
          if state == Closed { return; }
        }
        Terminate(ecm);
      }
    }

    method HandleConsumeError(ec0: Ec, code: nat, prep: Prep)
      modifies this
      ensures View() == ConsumeFailed(config, old(View()), ec0, code, prep)
    {
      if config.dropOnProtocolError {
        Terminate(ec0);
        return;
      }
      var closeEc := Close(code, prep);
      if closeEc != Success { Terminate(closeEc); }
    }

    method ProcessPing(reply: bool, prep: Prep)
      modifies this
      ensures View() == PingReceived(old(View()), reply, prep)
      ensures pushed == old(pushed) +
                if old(state) == Open && reply && prep.Prepared? then [Message(prep.header, prep.payload, false, Kind.Pong)] else []
    {
      if state == Closed { return; }
      if state != Open { return; }
      if reply {
        var _ := SendFrame(Kind.Pong, prep);
      }
    }

    method ProcessClose(payload: ClosePayload, prep: Prep)
      modifies this
      ensures View() == CloseReceived(config, old(View()), payload, prep)
    {
      if state == Closed { return; }
      remoteCode := payload.code;
      if !payload.GoodClose? {
        if config.dropOnProtocolError {
          Terminate(payload.ec);
        } else {
          var _ := SendCloseFrame(CLOSE_PROTOCOL_ERROR, true, config.isServer, prep);
        }
        return;
      }
      if state == Open {
        var _ := SendCloseFrame(CLOSE_BLANK, true, config.isServer, prep);
      } else if state == Closing && !wasClean {
        wasClean := true;
        if config.isServer { Terminate(Success); }
      }
    }

    method DeferHttpResponse()
      modifies `timer, `httpState
      ensures View() == old(View()).(timer := false, httpState := Deferred)
    {
      timer := false;
      httpState := Deferred;
    }

    method SendHttpResponse(statusSet: bool) returns (result: Ec)
      modifies `httpState, `ec
      ensures View() == DeferredResponseSent(old(View()), statusSet)
      ensures result == if old(httpState) == Deferred then Success else InvalidState
    {
      if httpState != Deferred { return InvalidState; }
      httpState := BodyWritten;
      WriteHttpResponse(Success, statusSet);
      return Success;
    }
  }
}
