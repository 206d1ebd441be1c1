/** The closing handshake: what may follow a close frame, and what a clean close means. */
module CloseOrder {
  import opened Wrappers
  import opened WritePath
  import opened Session
  import opened SessionRuns
  import WriteSystem

  predicate HasClose(msgs: seq<Message>) {
    exists i :: 0 <= i < |msgs| && msgs[i].kind == Kind.Close
  }

  /** RFC 6455 section 5.5.1: no data, ping or pong frame follows a close frame. */
  predicate OnlyCloseAfterClose(msgs: seq<Message>) {
    forall i, j :: 0 <= i < j < |msgs| && msgs[i].kind == Kind.Close ==> msgs[j].kind == Kind.Close
  }

  predicate CloseConn(c: Conn, closeReceived: bool) {
    && (c.state in {Connecting, Open} ==> !HasClose(c.pushed))
    && (c.state == Closing ==> HasClose(c.pushed))
    && (c.wasClean ==> closeReceived && HasClose(c.pushed))
  }

  predicate CloseInv(r: Run) {
    CloseConn(r.c, r.closeReceived)
  }

  /** How one step changes the list of pushed messages. */
  predicate PushedBy(c: Conn, c': Conn) {
    || c'.pushed == c.pushed
    || (&& |c'.pushed| == |c.pushed| + 1 && c.pushed == c'.pushed[..|c.pushed|]
        && (if c.state == Open then true else c'.pushed[|c.pushed|].kind == Kind.Close))
  }

  lemma HasCloseSnoc(msgs: seq<Message>, m: Message)
    ensures HasClose(msgs + [m]) <==> HasClose(msgs) || m.kind == Kind.Close
  {
    if m.kind == Kind.Close {
      assert (msgs + [m])[|msgs|] == m;
    }
    if HasClose(msgs) {
      var i :| 0 <= i < |msgs| && msgs[i].kind == Kind.Close;
      assert (msgs + [m])[i] == msgs[i];
    }
  }

  lemma CloseFrameSentClose(config: Config, c: Conn, received: bool, code: nat, ack: bool, terminal: bool, prep: Prep)
    requires CloseConn(c, received) && c.state in {Open, Closing} && (ack ==> received)
    ensures CloseConn(CloseFrameSent(config, c, code, ack, terminal, prep).0, received)
    ensures PushedBy(c, CloseFrameSent(config, c, code, ack, terminal, prep).0)
  {
    if prep.Prepared? {
      HasCloseSnoc(c.pushed, Message(prep.header, prep.payload, terminal, Kind.Close));
    }
  }

  lemma CloseAckedClose(config: Config, c: Conn, code: nat, prep: Prep)
    requires CloseConn(c, true) && c.state in {Open, Closing}
    ensures CloseConn(CloseAcked(config, c, code, prep), true) && PushedBy(c, CloseAcked(config, c, code, prep))
  {
    CloseFrameSentClose(config, c, true, code, true, config.isServer, prep);
  }

  lemma CloseReceivedClose(config: Config, c: Conn, received: bool, payload: ClosePayload, prep: Prep)
    requires CloseConn(c, received) && c.state != Connecting
    ensures CloseConn(CloseReceived(config, c, payload, prep), true)
    ensures PushedBy(c, CloseReceived(config, c, payload, prep))
  {
    if c.state != Closed {
      var c' := c.(remoteCode := payload.code);
      if !payload.GoodClose? {
        CloseAckedClose(config, c', CLOSE_PROTOCOL_ERROR, prep);
        TerminatedClose(c, c', true, payload.ec);
      } else if c.state == Open {
        CloseAckedClose(config, c', CLOSE_BLANK, prep);
      } else {
        TerminatedClose(c, c'.(wasClean := true), true, Success);
      }
    }
  }

  lemma TerminatedClose(c: Conn, f: Conn, received: bool, ec: Ec)
    requires CloseConn(f, received) && PushedBy(c, f)
    ensures CloseConn(Terminated(f, ec), received) && PushedBy(c, Terminated(f, ec))
  {
    TerminatedQuiet(f, ec);
  }

  lemma ConsumeFailedClose(config: Config, c: Conn, received: bool, ec: Ec, code: nat, prep: Prep)
    requires CloseConn(c, received)
    ensures CloseConn(ConsumeFailed(config, c, ec, code, prep), received)
    ensures PushedBy(c, ConsumeFailed(config, c, ec, code, prep))
  {
    if config.dropOnProtocolError {
      TerminatedClose(c, c, received, ec);
    } else if c.state != Open {
      TerminatedClose(c, c, received, InvalidState);
    } else {
      CloseFrameSentClose(config, c, received, code, false, TerminalCode(code), prep);
      var (f, closeEc) := CloseCalled(config, c, code, prep);
      TerminatedClose(c, f, received, closeEc);
    }
  }

  lemma FrameSentClose(c: Conn, received: bool, kind: Kind, prep: Prep)
    requires CloseConn(c, received) && kind != Kind.Close
    ensures CloseConn(FrameSent(c, kind, prep), received)
    ensures PushedBy(c, FrameSent(c, kind, prep))
  {
    if prep.Prepared? {
      HasCloseSnoc(c.pushed, Message(prep.header, prep.payload, false, kind));
    }
  }

  /** A step that queues nothing, leaves wasClean alone and at most opens or closes the connection. */
  predicate Quiet(c: Conn, c': Conn) {
    && c'.pushed == c.pushed && c'.wasClean == c.wasClean
    && (c'.state == c.state || c'.state == Closed || (c.state == Connecting && c'.state == Open))
  }

  lemma TerminatedQuiet(c: Conn, ec: Ec)
    ensures Quiet(c, Terminated(c, ec)) && Terminated(c, ec).state == Closed
  {
  }

  lemma ErrorResponseQuiet(c: Conn, ec: Ec)
    ensures Quiet(c, ErrorResponseWritten(c, ec))
  {
  }

  lemma HttpHandledQuiet(c: Conn, deferred: bool, ended: Option<Ec>)
    ensures Quiet(c, HttpHandled(c, deferred, ended))
  {
  }

  lemma HandshakeReadQuiet(c: Conn, ec: Ec, read: RequestRead)
    ensures Quiet(c, HandshakeRead(c, ec, read))
  {
    var guard := HandshakeGuard(c, ec, ReadHttpRequest);
    if guard.Some? {
      TerminatedQuiet(c, guard.value);
      TerminatedQuiet(c, General);
      ErrorResponseQuiet(c, if read.NoProcessor? then read.ec else if read.ParseException? then HttpParseError else OtherError(0));
      if read.RequestReady? {
        HttpHandledQuiet(c.(istate := ProcessHttpRequest), read.deferred, read.ended);
      }
    }
  }

  lemma HttpResponseWrittenQuiet(c: Conn, ec: Ec, switching: bool)
    ensures Quiet(c, HttpResponseWritten(c, ec, switching))
  {
    var guard := HandshakeGuard(c, ec, ProcessHttpRequest);
    if guard.Some? {
      TerminatedQuiet(c, guard.value);
      var c' := c.(timer := false, ec := if c.isHttp then HttpConnectionEnded else c.ec);
      TerminatedQuiet(c', c'.ec);
    }
  }

  lemma HttpRequestSentQuiet(c: Conn, ec: Ec)
    ensures Quiet(c, HttpRequestSent(c, ec))
  {
    var guard := HandshakeGuard(c, ec, WriteHttpRequest);
    if guard.Some? {
      TerminatedQuiet(c, guard.value);
    }
  }

  lemma HttpResponseReadQuiet(c: Conn, ec: Ec, read: ResponseRead)
    ensures Quiet(c, HttpResponseRead(c, ec, read))
  {
    var guard := HandshakeGuard(c, ec, ReadHttpResponse);
    if guard.Some? {
      TerminatedQuiet(c, guard.value);
      TerminatedQuiet(c, General);
      TerminatedQuiet(c.(timer := false), ExtensionNegFailed);
      if read.ResponseInvalid? {
        TerminatedQuiet(c.(timer := false), read.ec);
      }
    }
  }

  lemma FramesReadQuiet(config: Config, c: Conn, ec: Ec)
    ensures Quiet(c, FramesRead(config, c, ec))
  {
    TerminatedQuiet(c, ec);
    TerminatedQuiet(c, InvalidState);
    TerminatedQuiet(c, Success);
  }

  predicate Queues(e: Event) {
    e.ConsumeError? || e.PingFrame? || e.CloseFrame? || e.CallClose? || e.CallSend? || e.PushAfterCheck?
  }

  predicate Handshakes(e: Event) {
    e.TransportInit? || e.ReadHandshake? || e.WriteResponse? || e.SendRequest? || e.ReadResponse?
  }

  lemma HandshakesQuiet(config: Config, r: Run, e: Event)
    requires Handshakes(e)
    ensures Quiet(r.c, Next(config, r, e).c) && Next(config, r, e).closeReceived == r.closeReceived
  {
    match e
    case TransportInit(ec, _) =>
      TerminatedQuiet(r.c, ec);
      TerminatedQuiet(r.c, InvalidState);
    case ReadHandshake(ec, request) => HandshakeReadQuiet(r.c, ec, request);
    case WriteResponse(ec, switching) => HttpResponseWrittenQuiet(r.c, ec, switching);
    case SendRequest(ec) => HttpRequestSentQuiet(r.c, ec);
    case ReadResponse(ec, response) => HttpResponseReadQuiet(r.c, ec, response);
  }

  lemma OthersQuiet(config: Config, r: Run, e: Event)
    requires !Queues(e)
    ensures Quiet(r.c, Next(config, r, e).c) && Next(config, r, e).closeReceived == r.closeReceived
  {
    if Handshakes(e) {
      HandshakesQuiet(config, r, e);
    } else {
      match e
      case Start => TerminatedQuiet(r.c, InvalidState);
      case OpenTimeout(_) => TerminatedQuiet(r.c, OpenHandshakeTimeout);
      case CloseTimeout(_) => TerminatedQuiet(r.c, CloseHandshakeTimeout);
      case ReadFrame(ec) => FramesReadQuiet(config, r.c, ec);
      case WriteFailed(ec) => TerminatedQuiet(r.c, ec);
      case TerminalWritten => TerminatedQuiet(r.c, Success);
      case _ =>
    }
  }

  lemma NextKeepsClose(config: Config, r: Run, e: Event)
    requires Sound(r) && CloseInv(r) && Enabled(config, r, e)
    ensures CloseInv(Next(config, r, e))
    ensures !e.PushAfterCheck? ==> PushedBy(r.c, Next(config, r, e).c)
  {
    if !Queues(e) {
      OthersQuiet(config, r, e);
    } else {
      match e
      case ConsumeError(ec, code, prep) => ConsumeFailedClose(config, r.c, r.closeReceived, ec, code, prep);
      case PingFrame(_, prep) => FrameSentClose(r.c, r.closeReceived, Kind.Pong, prep);
      case CloseFrame(payload, prep) => CloseReceivedClose(config, r.c, r.closeReceived, payload, prep);
      case CallClose(code, prep) =>
        if r.c.state == Open {
          CloseFrameSentClose(config, r.c, r.closeReceived, code, false, TerminalCode(code), prep);
        }
      case CallSend(kind, prep) => FrameSentClose(r.c, r.closeReceived, kind, prep);
      case PushAfterCheck(m) => PushAfterCheckClose(r.c, r.closeReceived, m);
    }
  }

  lemma PushAfterCheckClose(c: Conn, received: bool, m: Message)
    requires CloseConn(c, received) && m.kind != Kind.Close
    ensures CloseConn(c.(pushed := c.pushed + [m]), received)
  {
    HasCloseSnoc(c.pushed, m);
  }

  lemma PushedByKeepsOrder(c: Conn, c': Conn)
    requires PushedBy(c, c') && OnlyCloseAfterClose(c.pushed) && (c.state == Open ==> !HasClose(c.pushed))
    ensures OnlyCloseAfterClose(c'.pushed)
  {
  }

  /** Once closing, an event leaves the connection closing or closed, also behind a failed negotiation. */
  lemma ClosingStays(config: Config, r: Run, e: Event)
    requires Enabled(config, r, e)
    ensures r.c.state in {Closing, Closed} ==> Next(config, r, e).c.state in {Closing, Closed}
  {
    if !Queues(e) {
      OthersQuiet(config, r, e);
    } else if r.c.state in {Closing, Closed} {
      QueuingStays(config, r, e);
    }
  }

  lemma QueuingStays(config: Config, r: Run, e: Event)
    requires Queues(e) && r.c.state in {Closing, Closed}
    ensures Next(config, r, e).c.state in {Closing, Closed}
  {
    match e
    case ConsumeError(ec, _, _) =>
      TerminatedQuiet(r.c, ec);
      TerminatedQuiet(r.c, InvalidState);
    case CloseFrame(_, _) =>
    case _ =>
  }

  /** Every public call is atomic in these runs: no thread is ever between its two locks. */
  predicate Atomic(events: seq<Event>) {
    forall i :: 0 <= i < |events| ==> !events[i].PassStateCheck?
  }

  lemma {:induction false} RunKeepsClose(config: Config, r: Run, events: seq<Event>)
    requires Sound(r) && CloseInv(r) && Legal(config, r, events)
    ensures Sound(Exec(config, r, events)) && CloseInv(Exec(config, r, events))
    ensures r.passed == 0 && OnlyCloseAfterClose(r.c.pushed) && (Atomic(events) || r.c.state in {Closing, Closed})
            ==> OnlyCloseAfterClose(Exec(config, r, events).c.pushed)
    decreases |events|
  {
    if events != [] {
      var r' := Next(config, r, events[0]);
      NextIsSound(config, r, events[0]);
      NextKeepsClose(config, r, events[0]);
      ClosingStays(config, r, events[0]);
      RunKeepsClose(config, r', events[1..]);
      if r.passed == 0 && OnlyCloseAfterClose(r.c.pushed) && (Atomic(events) || r.c.state in {Closing, Closed}) {
        PushedByKeepsOrder(r.c, r'.c);
        assert r'.passed == 0;
      }
    }
  }

  // ---------------------------------------------------------------- main results

  /** A connection that calls itself clean has read a close frame and queued one. */
  lemma CleanMeansBothCloses(config: Config, events: seq<Event>)
    requires Legal(config, START, events)
    ensures var r := Exec(config, START, events);
            r.c.wasClean ==> (exists i :: 0 <= i < |events| && events[i].CloseFrame?)
                             && exists j :: 0 <= j < |r.c.pushed| && r.c.pushed[j].kind == Kind.Close
  {
    RunKeepsClose(config, START, events);
    CloseReceivedExactly(config, START, events);
  }

  /** A close frame has been read just if such an event has been met. */
  lemma {:induction false} CloseReceivedExactly(config: Config, r: Run, events: seq<Event>)
    ensures Exec(config, r, events).closeReceived <==> r.closeReceived || exists i :: 0 <= i < |events| && events[i].CloseFrame?
    decreases |events|
  {
    if events != [] {
      CloseReceivedExactly(config, Next(config, r, events[0]), events[1..]);
      assert forall i :: 1 <= i < |events| ==> events[1..][i - 1] == events[i];
      if Exec(config, Next(config, r, events[0]), events[1..]).closeReceived && !Next(config, r, events[0]).closeReceived {
        var i :| 0 <= i < |events[1..]| && events[1..][i].CloseFrame?;
        assert events[i + 1].CloseFrame?;
      }
    }
  }

  /** With atomic calls only close frames are queued after a close frame. */
  lemma OnlyClosesQueuedAfterClose(config: Config, events: seq<Event>)
    requires Legal(config, START, events) && Atomic(events)
    ensures OnlyCloseAfterClose(Exec(config, START, events).c.pushed)
  {
    RunKeepsClose(config, START, events);
  }

  /** ... and so on the wire, whatever the interleaving of the write path that carries the queue. */
  lemma OnlyClosesWrittenAfterClose(config: Config, events: seq<Event>, steps: seq<WriteSystem.Step>)
    requires Legal(config, START, events) && Atomic(events)
    requires WriteSystem.Legal(WriteSystem.INITIAL, steps)
    requires WriteSystem.Exec(WriteSystem.INITIAL, steps).pushed == Exec(config, START, events).c.pushed
    ensures OnlyCloseAfterClose(WriteSystem.Exec(WriteSystem.INITIAL, steps).written)
  {
    OnlyClosesQueuedAfterClose(config, events);
    WriteSystem.WritePathSafety(steps);
  }

  /**
   Exactly when the gap between the two locks of send does harm. Once a close frame is queued in good
   order, the order can still be broken if and only if some thread had passed the state check of send,
   ping or pong and had not yet pushed.
   */
  lemma GapDecidesOrder(config: Config, events: seq<Event>)
    requires Legal(config, START, events)
    requires var r := Exec(config, START, events); HasClose(r.c.pushed) && OnlyCloseAfterClose(r.c.pushed)
    ensures var r := Exec(config, START, events);
            r.passed == 0 <==>
            forall more :: Legal(config, r, more) ==> OnlyCloseAfterClose(Exec(config, r, more).c.pushed)
  {
    RunKeepsClose(config, START, events);
    var r := Exec(config, START, events);
    if r.passed == 0 {
      forall more | Legal(config, r, more) ensures OnlyCloseAfterClose(Exec(config, r, more).c.pushed) {
        RunKeepsClose(config, r, more);
      }
    } else {
      LatePush(config, r);
    }
  }

  const LATE := Message([], [], false, Kind.Data)

  /** A thread in the gap pushes its data behind the close frame. */
  lemma LatePush(config: Config, r: Run)
    requires r.passed > 0 && HasClose(r.c.pushed)
    ensures Legal(config, r, [PushAfterCheck(LATE)])
    ensures !OnlyCloseAfterClose(Exec(config, r, [PushAfterCheck(LATE)]).c.pushed)
  {
    var more := [PushAfterCheck(LATE)];
    RunAlong(config, more, [r, Next(config, r, more[0])], 1);
    var pushed' := Exec(config, r, more).c.pushed;
    var i :| 0 <= i < |r.c.pushed| && r.c.pushed[i].kind == Kind.Close;
    assert pushed'[i].kind == Kind.Close && pushed'[|r.c.pushed|] == LATE;
  }

  // ---------------------------------------------------------------- the gap is reached

  /** A client and a server open; a thread passes the state check of send, and then close is called. */
  const CLIENT_GAP: seq<Event> := [
    Start, Event.TransportInit(Success, false), SendRequest(Success), ReadResponse(Success, ResponseAccepted),
    PassStateCheck, CallClose(CLOSE_NORMAL, Prepared([], []))]

  const SERVER_GAP: seq<Event> := [
    Start, Event.TransportInit(Success, false),
    ReadHandshake(Success, RequestReady(Success, false, false, None, true)), WriteResponse(Success, true),
    PassStateCheck, CallClose(CLOSE_NORMAL, Prepared([], []))]

  function UpToTheGap(config: Config): seq<Event> {
    if config.isServer then SERVER_GAP else CLIENT_GAP
  }

  predicate JustOpened(r: Run) {
    r.c.state == Open && r.passed == 0 && r.c.pushed == []
  }

  lemma ClientOpens(config: Config) returns (r1: Run, r2: Run, r3: Run, r4: Run)
    requires !config.isServer
    ensures Steps(config, START, CLIENT_GAP[0], r1) && Steps(config, r1, CLIENT_GAP[1], r2)
    ensures Steps(config, r2, CLIENT_GAP[2], r3) && Steps(config, r3, CLIENT_GAP[3], r4) && JustOpened(r4)
  {
    r1 := Next(config, START, Start);
    r2 := Next(config, r1, Event.TransportInit(Success, false));
    r3 := Next(config, r2, SendRequest(Success));
    r4 := Next(config, r3, ReadResponse(Success, ResponseAccepted));
  }

  lemma ServerOpens(config: Config) returns (r1: Run, r2: Run, r3: Run, r4: Run)
    requires config.isServer
    ensures Steps(config, START, SERVER_GAP[0], r1) && Steps(config, r1, SERVER_GAP[1], r2)
    ensures Steps(config, r2, SERVER_GAP[2], r3) && Steps(config, r3, SERVER_GAP[3], r4) && JustOpened(r4)
  {
    r1 := Next(config, START, Start);
    r2 := Next(config, r1, Event.TransportInit(Success, false));
    r3 := Next(config, r2, ReadHandshake(Success, RequestReady(Success, false, false, None, true)));
    r4 := Next(config, r3, WriteResponse(Success, true));
  }

  lemma EntersGap(config: Config, r4: Run) returns (r5: Run, r6: Run)
    requires JustOpened(r4)
    ensures Steps(config, r4, PassStateCheck, r5) && Steps(config, r5, CallClose(CLOSE_NORMAL, Prepared([], [])), r6)
    ensures r6.passed == 1 && r6.c.pushed == [Message([], [], false, Kind.Close)]
  {
    r5 := Next(config, r4, PassStateCheck);
    r6 := Next(config, r5, CallClose(CLOSE_NORMAL, Prepared([], [])));
  }

  lemma ReachesGap(config: Config)
    ensures Legal(config, START, UpToTheGap(config))
    ensures var r := Exec(config, START, UpToTheGap(config)); r.passed == 1 && r.c.pushed == [Message([], [], false, Kind.Close)]
  {
    if config.isServer {
      var r1, r2, r3, r4 := ServerOpens(config);
      var r5, r6 := EntersGap(config, r4);
      RunAlong(config, SERVER_GAP, [START, r1, r2, r3, r4, r5, r6], 6);
    } else {
      var r1, r2, r3, r4 := ClientOpens(config);
      var r5, r6 := EntersGap(config, r4);
      RunAlong(config, CLIENT_GAP, [START, r1, r2, r3, r4, r5, r6], 6);
    }
  }

  /** A client and a server can come there: a thread stands in the gap behind a close frame that was queued
      in good order, and its push breaks the order. */
  lemma GapIsReached(config: Config)
    ensures Legal(config, START, UpToTheGap(config))
    ensures var r := Exec(config, START, UpToTheGap(config));
            && r.passed == 1 && HasClose(r.c.pushed) && OnlyCloseAfterClose(r.c.pushed)
            && Legal(config, r, [PushAfterCheck(LATE)])
            && !OnlyCloseAfterClose(Exec(config, r, [PushAfterCheck(LATE)]).c.pushed)
  {
    ReachesGap(config);
    var r := Exec(config, START, UpToTheGap(config));
    assert r.c.pushed[0].kind == Kind.Close;
    LatePush(config, r);
  }
}
