/** What a run of a connection queues: every frame that was asked for, once, in order, and nothing else. */
module Queued {
  import opened Wrappers
  import opened WritePath
  import opened Session
  import opened SessionRuns
  import opened CloseOrder
  import WriteSystem

  /** The close codes after which no write follows: 1002, 1007, 1008, 1009 and 1011 of RFC 6455 section 7.4.1. */
  predicate EndsTheConnection(code: nat) {
    code in {1002, 1007, 1008, 1009, 1011}
  }

  /** The messages that an event met in a state asks for, by the event and the state alone. */
  function Asked(config: Config, r: Run, e: Event): seq<Message> {
    match e
    case CallSend(kind, Prepared(header, payload)) =>
      if r.c.state == Open then [Message(header, payload, false, kind)] else []
    case PingFrame(true, Prepared(header, payload)) =>
      if r.c.state == Open then [Message(header, payload, false, Kind.Pong)] else []
    case PushAfterCheck(m) => [m]
    case CallClose(code, Prepared(header, payload)) =>
      if r.c.state == Open then [Message(header, payload, EndsTheConnection(code), Kind.Close)] else []
    case ConsumeError(_, code, Prepared(header, payload)) =>
      if r.c.state == Open && !config.dropOnProtocolError
      then [Message(header, payload, EndsTheConnection(code), Kind.Close)] else []
    case CloseFrame(payload, Prepared(header, body)) =>
      if (payload.GoodClose? && r.c.state == Open) || (!payload.GoodClose? && r.c.state != Closed && !config.dropOnProtocolError)
      then [Message(header, body, config.isServer, Kind.Close)] else []
    case _ => []
  }

  /** ... and all the events of a run. */
  function AskedFor(config: Config, r: Run, events: seq<Event>): seq<Message>
    decreases |events|
  {
    if events == [] then [] else Asked(config, r, events[0]) + AskedFor(config, Next(config, r, events[0]), events[1..])
  }

  lemma CloseFrameQueues(config: Config, c: Conn, code: nat, ack: bool, terminal: bool, prep: Prep)
    ensures CloseFrameSent(config, c, code, ack, terminal, prep).0.pushed ==
            c.pushed + if prep.Prepared? then [Message(prep.header, prep.payload, terminal, Kind.Close)] else []
  {
  }

  lemma TerminationQueues(c: Conn, ec: Ec)
    ensures Terminated(c, ec).pushed == c.pushed
  {
  }

  lemma ConsumeErrorQueues(config: Config, r: Run, ec: Ec, code: nat, prep: Prep)
    ensures ConsumeFailed(config, r.c, ec, code, prep).pushed == r.c.pushed + Asked(config, r, ConsumeError(ec, code, prep))
  {
    if config.dropOnProtocolError {
      TerminationQueues(r.c, ec);
    } else {
      CloseFrameQueues(config, r.c, code, false, TerminalCode(code), prep);
      var (f, closeEc) := CloseCalled(config, r.c, code, prep);
      TerminationQueues(f, closeEc);
    }
  }

  lemma CloseFrameEventQueues(config: Config, r: Run, payload: ClosePayload, prep: Prep)
    requires r.c.state != Connecting
    ensures CloseReceived(config, r.c, payload, prep).pushed == r.c.pushed + Asked(config, r, CloseFrame(payload, prep))
  {
    if r.c.state != Closed {
      var c' := r.c.(remoteCode := payload.code);
      CloseFrameQueues(config, c', if payload.GoodClose? then CLOSE_BLANK else CLOSE_PROTOCOL_ERROR, true, config.isServer, prep);
      TerminationQueues(c', if payload.GoodClose? then Success else payload.ec);
    }
  }

  lemma NextQueues(config: Config, r: Run, e: Event)
    requires Sound(r) && Enabled(config, r, e)
    ensures Next(config, r, e).c.pushed == r.c.pushed + Asked(config, r, e)
  {
    if !Queues(e) {
      OthersQuiet(config, r, e);
    } else {
      match e
      case ConsumeError(ec, code, prep) => ConsumeErrorQueues(config, r, ec, code, prep);
      case CloseFrame(payload, prep) => CloseFrameEventQueues(config, r, payload, prep);
      case CallClose(code, prep) => CloseFrameQueues(config, r.c, code, false, TerminalCode(code), prep);
      case _ =>
    }
  }

  lemma Rejoined<T>(a: seq<T>, b: seq<T>, c: seq<T>)
    ensures (a + b) + c == a + (b + c)
  {
  }

  lemma {:induction false} RunQueues(config: Config, r: Run, events: seq<Event>)
    requires Sound(r) && Legal(config, r, events)
    ensures Exec(config, r, events).c.pushed == r.c.pushed + AskedFor(config, r, events)
    decreases |events|
  {
    if events != [] {
      var r' := Next(config, r, events[0]);
      NextIsSound(config, r, events[0]);
      NextQueues(config, r, events[0]);
      RunQueues(config, r', events[1..]);
      Rejoined(r.c.pushed, Asked(config, r, events[0]), AskedFor(config, r', events[1..]));
    }
  }

  /**
   Conservation, on every legal run: the messages given to the write path are exactly the prepared frames
   that were asked for while the state allowed it, in order and with header, payload and kind; a close
   frame is terminal by its code, and one that answers the peer by the side.
   */
  lemma QueuedIsAskedFor(config: Config, events: seq<Event>)
    requires Legal(config, START, events)
    ensures Exec(config, START, events).c.pushed == AskedFor(config, START, events)
  {
    RunQueues(config, START, events);
    assert [] + AskedFor(config, START, events) == AskedFor(config, START, events);
  }

  /** ... and on the wire, on every interleaving of the write path that carries the queue: a prefix of those
      frames, each as its header and its payload. */
  lemma WrittenIsAskedFor(config: Config, events: seq<Event>, steps: seq<WriteSystem.Step>)
    requires Legal(config, START, events) && WriteSystem.Legal(WriteSystem.INITIAL, steps)
    requires WriteSystem.Exec(WriteSystem.INITIAL, steps).pushed == Exec(config, START, events).c.pushed
    ensures var s, asked := WriteSystem.Exec(WriteSystem.INITIAL, steps), AskedFor(config, START, events);
            && s.written <= asked && |s.wire| == 2 * |s.written|
            && forall i :: 0 <= i < |s.written| ==> s.wire[2 * i] == asked[i].header && s.wire[2 * i + 1] == asked[i].payload
  {
    QueuedIsAskedFor(config, events);
    WriteSystem.WritePathSafety(steps);
  }
}
