/**
 The SOCKS5 client of socket/Dial.cpp (RFC 1928, RFC 1929): what it sends and consumes, and by when it ends.
 */
module Socks5 {
  import opened Wrappers
  import opened BaseSock

  /** What the CONNECT carries: a name for socks5h, 4 or 16 octets resolved here for socks5. */
  datatype Target = Name(name: bytes) | Address(octets: Option<bytes>)

  datatype ProxyError =
    | Timeout | ProxyTimeout | ProxyClosed | CouldNotSend
    | NotSocks5 | NoAcceptableAuth | BadAuthVersion | AuthFailed
    | TargetNameInvalid | DnsFailed | BadConnectVersion | Refused(code: byte) | EmptyBoundAddress | UnknownAddressType

  /** The errors of the time and the network, as opposed to what the peer answered. */
  predicate IsNetwork(e: ProxyError) {
    e.Timeout? || e.ProxyTimeout? || e.ProxyClosed? || e.CouldNotSend?
  }

  // ---------------------------------------------------------------- what is sent

  function Greeting(credentials: Option<Credentials<bytes>>): bytes {
    if credentials.Some? then [5, 2, 0, 2] else [5, 1, 0]
  }

  function Octet(n: nat): byte { (n % 256) as byte }

  function Authentication(c: Credentials<bytes>): bytes {
    [1, Octet(|c.user|)] + c.user + [Octet(|c.password|)] + c.password
  }

  function ConnectRequest(target: Target, port: nat): Result<bytes, ProxyError> {
    match target
    case Name(name) =>
      if name == [] || |name| > 255 then Err(TargetNameInvalid)
      else Ok([5, 1, 0, 3, Octet(|name|)] + name + [Octet(port / 256), Octet(port)])
    case Address(None) => Err(DnsFailed)
    case Address(Some(octets)) =>
      Ok([5, 1, 0, if |octets| == 4 then 1 else 4] + octets + [Octet(port / 256), Octet(port)])
  }

  // ---------------------------------------------------------------- what the peer answers

  /** What a complete exchange sends and consumes; Short when the answers end early. */
  datatype Outcome = Outcome(sent: bytes, result: Result<nat, ProxyError>) | Short(sent: bytes)

  function Sending(prefix: bytes, o: Outcome): Outcome {
    o.(sent := prefix + o.sent)
  }

  function Consuming(n: nat, o: Outcome): Outcome {
    if o.Outcome? && o.result.Ok? then o.(result := Ok(n + o.result.value)) else o
  }

  /** The exchange, on all the octets the peer answers with. */
  function Exchange(credentials: Option<Credentials<bytes>>, target: Target, port: nat, answers: bytes): Outcome {
    Sending(Greeting(credentials), AfterGreeting(credentials, target, port, answers))
  }

  function AfterGreeting(credentials: Option<Credentials<bytes>>, target: Target, port: nat, answers: bytes): Outcome {
    if |answers| < 2 then Short([])
    else if answers[0] != 5 then Outcome([], Err(NotSocks5))
    else if answers[1] == 0 then Consuming(2, Connect(target, port, answers[2..]))
    else if answers[1] != 2 || credentials.None? then Outcome([], Err(NoAcceptableAuth))
    else Consuming(2, Sending(Authentication(credentials.value), AfterAuthentication(target, port, answers[2..])))
  }

  function AfterAuthentication(target: Target, port: nat, answers: bytes): Outcome {
    if |answers| < 2 then Short([])
    else if answers[0] != 1 then Outcome([], Err(BadAuthVersion))
    else if answers[1] != 0 then Outcome([], Err(AuthFailed))
    else Consuming(2, Connect(target, port, answers[2..]))
  }

  function Connect(target: Target, port: nat, answers: bytes): Outcome {
    match ConnectRequest(target, port)
    case Err(e) => Outcome([], Err(e))
    case Ok(request) => Sending(request, ConnectReply(answers))
  }

  function ConnectReply(answers: bytes): Outcome {
    if |answers| < 4 then Short([])
    else if answers[0] != 5 then Outcome([], Err(BadConnectVersion))
    else if answers[1] != 0 then Outcome([], Err(Refused(answers[1])))
    else if answers[3] == 1 then BoundAddress(4, 4, answers)
    else if answers[3] == 4 then BoundAddress(4, 16, answers)
    else if answers[3] == 3 then
      if |answers| < 5 then Short([])
      else if answers[4] == 0 then Outcome([], Err(EmptyBoundAddress))
      else BoundAddress(5, answers[4] as nat, answers)
    else Outcome([], Err(UnknownAddressType))
  }

  function BoundAddress(at: nat, length: nat, answers: bytes): Outcome {
    if |answers| < at + length + 2 then Short([]) else Outcome([], Ok(at + length + 2))
  }

  // ---------------------------------------------------------------- the deadline

  function OfMilliseconds(milliseconds: int): int { milliseconds * 1_000_000 }

  function WholeMilliseconds(nanoseconds: nat): nat { nanoseconds / 1_000_000 }

  datatype DialOptions = DialOptions(connectTimeoutMs: int, totalTimeoutMs: int)

  /** Integer division as C++ does it. */
  function Truncated(a: int, b: nat): int
    requires b > 0
  {
    if a >= 0 then a / b else -((-a) / b)
  }

  function Seconds(milliseconds: int): int {
    var s := Truncated(milliseconds + 999, 1000);
    if s > 1 then s else 1
  }

  /** Remaining; None is the exception. */
  function Remaining(options: DialOptions, started: nat, now: nat): Option<int>
    requires started <= now
  {
    if options.totalTimeoutMs <= 0 then Some(options.connectTimeoutMs)
    else
      var left := options.totalTimeoutMs - WholeMilliseconds(now - started);
      if left <= 0 then None else Some(if left < options.connectTimeoutMs then left else options.connectTimeoutMs)
  }

  /** A step is given the connect timeout or what is left of the total one, in milliseconds begun, whichever
      is less; nothing just when the total timeout is over. */
  lemma RemainingExactly(options: DialOptions, started: nat, now: nat)
    requires started <= now
    ensures var r, left := Remaining(options, started, now), started + 1_000_000 * options.totalTimeoutMs - now;
            if options.totalTimeoutMs <= 0 then r == Some(options.connectTimeoutMs)
            else if left <= 0 then r.None?
            else r.Some? && r.value <= options.connectTimeoutMs && 1_000_000 * (r.value - 1) < left
                 && (r.value == options.connectTimeoutMs || left <= 1_000_000 * r.value)
  {
    assert 1_000_000 * WholeMilliseconds(now - started) <= now - started;
  }

  /** TimeoutSeconds: the least number of full seconds, but at least one, that holds the milliseconds. */
  lemma SecondsExactly(milliseconds: int)
    ensures var s := Seconds(milliseconds);
            s >= 1 && milliseconds <= 1000 * s && (s == 1 || 1000 * (s - 1) < milliseconds)
  {
    if milliseconds + 999 >= 0 {
      assert Truncated(milliseconds + 999, 1000) == (milliseconds + 999) / 1000;
    }
  }

  /** When the total timeout is over. */
  function Deadline(options: DialOptions, started: nat): int {
    started + OfMilliseconds(options.totalTimeoutMs)
  }

  /** The first full second, in nanoseconds, that is not before t. */
  function FullSecond(t: nat): nat {
    Nanoseconds(WholeSeconds(t + 999_999_999))
  }

  /** The exchange ends before this time: one second behind the first full second of the system clock that
      is not before the deadline. */
  function LastEnd(options: DialOptions, started: nat, epoch: nat): int
    requires options.totalTimeoutMs > 0
  {
    FullSecond(Deadline(options, started) + epoch) + Nanoseconds(1) - epoch
  }

  predicate InTime(options: DialOptions, started: nat, epoch: nat, before: nat, now: nat) {
    && before <= now
    && (options.totalTimeoutMs > 0 ==> now == before || now < LastEnd(options, started, epoch))
  }

  /** That is between one and, strictly, two seconds behind the deadline, and one second exactly if the
      deadline is a full second of the system clock. */
  lemma LastEndBounds(options: DialOptions, started: nat, epoch: nat)
    requires options.totalTimeoutMs > 0
    ensures var end := LastEnd(options, started, epoch);
            && started + OfMilliseconds(options.totalTimeoutMs + 1000) <= end < started + OfMilliseconds(options.totalTimeoutMs + 2000)
            && (end == started + OfMilliseconds(options.totalTimeoutMs + 1000) <==>
                  (Deadline(options, started) + epoch) % 1_000_000_000 == 0)
  {
  }

  lemma SecondsRoundUp(milliseconds: int, left: int)
    requires milliseconds <= left && left >= 1
    ensures 1 <= Seconds(milliseconds) && Seconds(milliseconds) * 1000 <= left + 999
  {
    if milliseconds + 999 >= 0 {
      assert (milliseconds + 999) / 1000 * 1000 <= milliseconds + 999;
    }
  }

  /** A step armed now may end just before this time. */
  function Latest(options: DialOptions, started: nat, epoch: nat, armed: nat): int
    requires started <= armed && Remaining(options, started, armed).Some?
  {
    Nanoseconds(WholeSeconds(armed + epoch) + Seconds(Remaining(options, started, armed).value) + 1) - epoch
  }

  /** Whatever is left, rounding up and the floored clocks carry a step no further than that. */
  lemma ArmedInTime(options: DialOptions, started: nat, armed: nat, epoch: nat)
    requires options.totalTimeoutMs > 0 && started <= armed && Remaining(options, started, armed).Some?
    ensures Latest(options, started, epoch, armed) <= LastEnd(options, started, epoch)
    ensures armed < Deadline(options, started)
  {
    var elapsed := WholeMilliseconds(armed - started);
    var left := options.totalTimeoutMs - elapsed;
    var s := Seconds(Remaining(options, started, armed).value);
    SecondsRoundUp(Remaining(options, started, armed).value, left);
    var deadline, q := Deadline(options, started), WholeSeconds(armed + epoch);
    assert armed - started < OfMilliseconds(elapsed + 1);
    assert deadline - armed > OfMilliseconds(left - 1) >= Nanoseconds(s - 1);
    assert Nanoseconds(q + s - 1) < deadline + epoch <= FullSecond(deadline + epoch);
    FewerSeconds(q + s - 1, deadline + epoch);
  }

  lemma FewerSeconds(n: int, t: nat)
    requires Nanoseconds(n) < t
    ensures Nanoseconds(n + 1) <= FullSecond(t)
  {
  }

  /** A step armed in the last nanosecond of the budget may end as late as any. */
  lemma LastNanosecond(options: DialOptions, started: nat, epoch: nat)
    requires options.totalTimeoutMs > 0
    ensures var armed := Deadline(options, started) - 1;
            && started <= armed && Remaining(options, started, armed).Some?
            && Latest(options, started, epoch, armed) == LastEnd(options, started, epoch)
  {
    var armed := Deadline(options, started) - 1;
    assert WholeMilliseconds(armed - started) == options.totalTimeoutMs - 1;
    assert Remaining(options, started, armed) == Some(if 1 < options.connectTimeoutMs then 1 else options.connectTimeoutMs);
    SecondsRoundUp(Remaining(options, started, armed).value, 1);
  }

  /** What a receive of `count` octets, armed with the rest of the budget, reads. */
  function StepReads(options: DialOptions, started: nat, epoch: nat, net: Net, count: nat): (Net, Transfer<bytes>)
    requires started <= net.now && Remaining(options, started, net.now).Some?
  {
    Reads(net, epoch, WholeSeconds(net.now + epoch) + Seconds(Remaining(options, started, net.now).value), count, count, [])
  }

  /** A receive has read just that, and failed when the reads did. */
  predicate HasReceived(options: DialOptions, started: nat, epoch: nat, net: Net, after: Net, count: nat, failed: bool)
    requires started <= net.now
  {
    Remaining(options, started, net.now).Some? ==>
      var (end, got) := StepReads(options, started, epoch, net, count);
      after == end && (got.SocketError? ==> failed)
  }

  lemma StepInTime(options: DialOptions, started: nat, armed: nat, epoch: nat, endTime: int, now: nat)
    requires started <= armed && Remaining(options, started, armed).Some?
    requires endTime == WholeSeconds(armed + epoch) + Seconds(Remaining(options, started, armed).value)
    requires Within(armed, now, epoch, endTime)
    ensures now == armed || now < Latest(options, started, epoch, armed)
    ensures InTime(options, started, epoch, armed, now)
  {
    if options.totalTimeoutMs > 0 {
      ArmedInTime(options, started, armed, epoch);
    }
  }

  lemma TimeIsLeft(options: DialOptions, started: nat, armed: nat, epoch: nat)
    requires started <= armed && Remaining(options, started, armed).Some?
    ensures WholeSeconds(armed + epoch) + Seconds(Remaining(options, started, armed).value) > WholeSeconds(armed + epoch)
  {
  }

  /** A receive ends in time and takes octets off the stream in order; undisturbed, it takes them at once. */
  lemma StepReadsKept(options: DialOptions, started: nat, epoch: nat, net: Net, count: nat)
    requires started <= net.now && Remaining(options, started, net.now).Some? && count > 0
    ensures var (after, got) := StepReads(options, started, epoch, net, count);
            && InTime(options, started, epoch, net.now, after.now)
            && (after.now == net.now || after.now < Latest(options, started, epoch, net.now))
            && (got.Done? ==> |got.value| <= count && net.incoming == got.value + after.incoming)
            && (net.script == [] && count <= |net.incoming| ==> ReadAtOnce(net, after, count, got))
  {
    var endTime := WholeSeconds(net.now + epoch) + Seconds(Remaining(options, started, net.now).value);
    RecvDone(net, epoch, endTime, count, count);
    StepInTime(options, started, net.now, epoch, endTime, StepReads(options, started, epoch, net, count).0.now);
    TimeIsLeft(options, started, net.now, epoch);
  }

  /** One octet comes just in front of the next full second, the other one too late. */
  function SlowReply(armed: nat, epoch: nat, seconds: nat): seq<Event> {
    [Moves(1, 999_999_999 - (armed + epoch) % 1_000_000_000), Moves(1, Nanoseconds(seconds + 1))]
  }

  lemma SlowReads(armed: nat, epoch: nat, seconds: nat)
    requires seconds > 0
    ensures var endTime := WholeSeconds(armed + epoch) + seconds;
            var (after, got) := Reads(Net(armed, SlowReply(armed, epoch, seconds), [5, 0]), epoch, endTime, 2, 2, []);
            got == SocketError(TimedOut) && after.now + epoch + 1 == Nanoseconds(endTime + 1)
  {
    var endTime, script := WholeSeconds(armed + epoch) + seconds, SlowReply(armed, epoch, seconds);
    var net := Net(armed, script, [5, 0]);
    var first := 999_999_999 - (armed + epoch) % 1_000_000_000;
    var between := Net(armed + first, script[1..], [0]);
    assert WholeSeconds(between.now + epoch) == WholeSeconds(armed + epoch);
    var answer: bytes := [5, 0];
    assert answer[..1] == [5] && answer[1..] == [0] && [] + answer[..1] == [5];
    assert Read(net, epoch, endTime, 2) == (between, Done([5]));
    assert Read(between, epoch, endTime, 1) == (Net(between.now + Nanoseconds(seconds), script[1..][1..], [0]), SocketError(TimedOut));
  }

  /** The peer can hold a step up to the last nanosecond. */
  lemma SlowestStep(options: DialOptions, started: nat, epoch: nat, armed: nat)
    requires started <= armed && Remaining(options, started, armed).Some?
    ensures var seconds := Seconds(Remaining(options, started, armed).value);
            seconds > 0
            && var (after, got) := StepReads(options, started, epoch, Net(armed, SlowReply(armed, epoch, seconds), [5, 0]), 2);
               got == SocketError(TimedOut) && after.now == Latest(options, started, epoch, armed) - 1
  {
    SlowReads(armed, epoch, Seconds(Remaining(options, started, armed).value));
  }

  /** Whatever the network does, a receive armed then ends before `bound`. */
  ghost predicate StepEndsBefore(options: DialOptions, started: nat, epoch: nat, armed: nat, bound: int)
    requires started <= armed && Remaining(options, started, armed).Some?
  {
    forall net: Net, count: nat :: net.now == armed && count > 0 ==> StepReads(options, started, epoch, net, count).0.now < bound
  }

  /** Exactly when a receive ends before a time: nothing earlier than Latest will do. */
  lemma StepEndsExactly(options: DialOptions, started: nat, epoch: nat, armed: nat, bound: int)
    requires started <= armed < bound && Remaining(options, started, armed).Some?
    ensures StepEndsBefore(options, started, epoch, armed, bound) <==> Latest(options, started, epoch, armed) <= bound
  {
    if StepEndsBefore(options, started, epoch, armed, bound) {
      SlowestStep(options, started, epoch, armed);
      var seconds := Seconds(Remaining(options, started, armed).value);
      var net := Net(armed, SlowReply(armed, epoch, seconds), [5, 0]);
      assert StepReads(options, started, epoch, net, 2).0.now < bound;
    } else {
      var net: Net, count: nat :| net.now == armed && count > 0 && StepReads(options, started, epoch, net, count).0.now >= bound;
      StepReadsKept(options, started, epoch, net, count);
    }
  }

  /** Whenever they are armed, all receives end before `bound`. */
  ghost predicate AllEndBefore(options: DialOptions, started: nat, epoch: nat, bound: int) {
    forall armed: nat :: started <= armed && Remaining(options, started, armed).Some? ==>
      StepEndsBefore(options, started, epoch, armed, bound)
  }

  /** The bound on the exchange cannot be improved. */
  lemma DeadlineExactly(options: DialOptions, started: nat, epoch: nat, bound: int)
    requires options.totalTimeoutMs > 0 && Deadline(options, started) <= bound
    ensures AllEndBefore(options, started, epoch, bound) <==> LastEnd(options, started, epoch) <= bound
  {
    if AllEndBefore(options, started, epoch, bound) {
      LastNanosecond(options, started, epoch);
      StepEndsExactly(options, started, epoch, Deadline(options, started) - 1, bound);
    } else {
      var armed: nat :| started <= armed && Remaining(options, started, armed).Some? &&
        !StepEndsBefore(options, started, epoch, armed, bound);
      ArmedInTime(options, started, armed, epoch);
      StepEndsExactly(options, started, epoch, armed, bound);
    }
  }

  /** Exactly when the deadline holds to within a second: when it is a full second of the system clock. */
  lemma WithinASecondExactly(options: DialOptions, started: nat, epoch: nat)
    requires options.totalTimeoutMs > 0
    ensures AllEndBefore(options, started, epoch, started + OfMilliseconds(options.totalTimeoutMs + 1000)) <==>
            (Deadline(options, started) + epoch) % 1_000_000_000 == 0
  {
    LastEndBounds(options, started, epoch);
    DeadlineExactly(options, started, epoch, started + OfMilliseconds(options.totalTimeoutMs + 1000));
  }

  /** The two seconds are needed, but for two nanoseconds: a receive armed at a full second, with one
      millisecond left, times out just in front of the second after the next. */
  lemma TwoSecondsAreNeeded()
    ensures var options, armed, epoch := DialOptions(1000, 1), 999_999, 999_000_001;
            && Remaining(options, 0, armed) == Some(1)
            && var (net, got) := StepReads(options, 0, epoch, Net(armed, SlowReply(armed, epoch, 1), [5, 0]), 2);
               got == SocketError(TimedOut) && net.now + 2 == OfMilliseconds(options.totalTimeoutMs + 2000)
  {
    assert WholeMilliseconds(999_999) == 0 && Seconds(1) == 1;
    SlowestStep(DialOptions(1000, 1), 0, 999_000_001, 999_999);
  }

  // ---------------------------------------------------------------- the exchange

  /** A step that should send `data` has left the wire at `wire`. */
  predicate Sent(before: bytes, data: bytes, wire: bytes) {
    before <= wire && wire <= before + data
  }

  /** A run has done what the outcome says; with a network error, a part of it. */
  predicate Follows(o: Outcome, wireBefore: bytes, wire: bytes, before: bytes, incoming: bytes, r: Result<(), ProxyError>) {
    if r.Ok? then
      && o.Outcome? && o.result.Ok? && o.result.value <= |before|
      && wire == wireBefore + o.sent && incoming == before[o.result.value..]
    else if IsNetwork(r.error) then Sent(wireBefore, o.sent, wire)
    else o.Outcome? && o.result == Err(r.error) && wire == wireBefore + o.sent
  }

  class StepBudget {
    const socket: Sock
    const options: DialOptions
    const started: nat

    constructor (socket: Sock, options: DialOptions, started: nat)
      ensures this.socket == socket && this.options == options && this.started == started
    {
      this.socket, this.options, this.started := socket, options, started;
    }

    /** There is time left and the network is undisturbed. */
    predicate Undisturbed()
      requires started <= socket.now
      reads socket
    {
      Remaining(options, started, socket.now).Some? && socket.script == []
    }

    method Arm() returns (ok: bool)
      requires started <= socket.now
      modifies socket`recvTimeoutSeconds, socket`sendTimeoutSeconds
      ensures ok == Remaining(options, started, socket.now).Some?
      ensures ok ==> socket.recvTimeoutSeconds == socket.sendTimeoutSeconds == Seconds(Remaining(options, started, socket.now).value)
      ensures ok ==> socket.recvTimeoutSeconds == 1 || 1000 * (socket.recvTimeoutSeconds - 1) < options.connectTimeoutMs
    {
      RemainingExactly(options, started, socket.now);
      var milliseconds := Remaining(options, started, socket.now);
      if milliseconds.None? {
        return false;
      }
      SecondsExactly(milliseconds.value);
      socket.SetTimeouts(Seconds(milliseconds.value));
      return true;
    }

    method SendAll(data: bytes) returns (r: Result<(), ProxyError>)
      requires started <= socket.now
      modifies socket
      ensures InTime(options, started, socket.epoch, old(socket.now), socket.now)
      ensures socket.incoming == old(socket.incoming)
      ensures if r.Ok? then socket.wire == old(socket.wire) + data
              else IsNetwork(r.error) && Sent(old(socket.wire), data, socket.wire)
      ensures Remaining(options, started, old(socket.now)).Some? && (Prompt(old(socket.script), |data|) || data == []) ==>
                && r.Ok? && socket.now == old(socket.now)
                && socket.script == if data == [] then old(socket.script) else Rest(old(socket.script))
    {
      var armed := Arm();
      if !armed {
        return Err(Timeout);
      }
      var sent := socket.Send(data);
      StepInTime(options, started, old(socket.now), socket.epoch, socket.sendEndTime, socket.now);
      if sent.SocketError? || sent.value != |data| {
        return Err(CouldNotSend);
      }
      assert data[..|data|] == data;
      return Ok(());
    }

    /** The arming and the receiving of RecvExact. */
    method RecvArmed(count: nat) returns (armed: bool, received: Transfer<bytes>)
      requires started <= socket.now
      modifies socket
      ensures armed == Remaining(options, started, old(socket.now)).Some? && socket.wire == old(socket.wire)
      ensures if armed then (socket.View(), received) == StepReads(options, started, socket.epoch, old(socket.View()), count)
              else socket.View() == old(socket.View())
    {
      received := Done([]);
      armed := Arm();
      if armed {
        received := socket.Recv(count, count);
      }
    }

    method RecvExact(count: nat) returns (r: Result<bytes, ProxyError>)
      requires started <= socket.now
      modifies socket
      ensures InTime(options, started, socket.epoch, old(socket.now), socket.now)
      ensures socket.wire == old(socket.wire)
      ensures if r.Ok? then |r.value| == count && old(socket.incoming) == r.value + socket.incoming
              else IsNetwork(r.error)
      ensures count > 0 ==> HasReceived(options, started, socket.epoch, old(socket.View()), socket.View(), count, r.Err?)
      ensures old(Undisturbed()) && count <= |old(socket.incoming)| ==> Undisturbed() && r.Ok?
    {
      if count == 0 {
        assert socket.incoming == [] + socket.incoming;
        return Ok([]);
      }
      var armed, received := RecvArmed(count);
      if !armed {
        return Err(Timeout);
      }
      StepReadsKept(options, started, socket.epoch, old(socket.View()), count);
      if received.SocketError? {
        return Err(if received.error == TimedOut then ProxyTimeout else ProxyClosed);
      }
      if |received.value| != count {
        return Err(ProxyClosed);
      }
      return Ok(received.value);
    }

    method Handshake(credentials: Option<Credentials<bytes>>, target: Target, port: nat) returns (r: Result<(), ProxyError>)
      requires started <= socket.now
      modifies socket
      ensures InTime(options, started, socket.epoch, old(socket.now), socket.now)
      ensures var end := started + OfMilliseconds(options.totalTimeoutMs + 2000);
              options.totalTimeoutMs > 0 && old(socket.now) < end ==> socket.now < end
      ensures Follows(Exchange(credentials, target, port, old(socket.incoming)),
                      old(socket.wire), socket.wire, old(socket.incoming), socket.incoming, r)
      ensures old(Undisturbed()) && Exchange(credentials, target, port, old(socket.incoming)).Outcome? ==> r.Ok? || !IsNetwork(r.error)
      ensures Remaining(options, started, old(socket.now)).Some? && Prompt(old(socket.script), |Greeting(credentials)|) ==>
                var net := old(socket.View()).(script := Rest(old(socket.script)));
                StepReads(options, started, socket.epoch, net, 2).1.SocketError? ==>
                  r.Err? && socket.View() == StepReads(options, started, socket.epoch, net, 2).0
    {
      if options.totalTimeoutMs > 0 {
        LastEndBounds(options, started, socket.epoch);
      }
      ghost var wire, incoming := socket.wire, socket.incoming;
      ghost var o := AfterGreeting(credentials, target, port, incoming);
      var greeted := SendAll(Greeting(credentials));
      if greeted.Err? {
        return Err(greeted.error);
      }
      r := Negotiate(credentials, target, port);
      SendingFollows(Greeting(credentials), o, wire, socket.wire, incoming, socket.incoming, r);
    }

    method Negotiate(credentials: Option<Credentials<bytes>>, target: Target, port: nat) returns (r: Result<(), ProxyError>)
      requires started <= socket.now
      modifies socket
      ensures InTime(options, started, socket.epoch, old(socket.now), socket.now)
      ensures Follows(AfterGreeting(credentials, target, port, old(socket.incoming)),
                      old(socket.wire), socket.wire, old(socket.incoming), socket.incoming, r)
      ensures old(Undisturbed()) && AfterGreeting(credentials, target, port, old(socket.incoming)).Outcome? ==> r.Ok? || !IsNetwork(r.error)
      ensures Remaining(options, started, old(socket.now)).Some? && StepReads(options, started, socket.epoch, old(socket.View()), 2).1.SocketError? ==>
                r.Err? && socket.View() == StepReads(options, started, socket.epoch, old(socket.View()), 2).0
    {
      ghost var wire, incoming := socket.wire, socket.incoming;
      var choice := RecvExact(2);
      if choice.Err? {
        return Err(choice.error);
      }
      assert incoming[2..] == socket.incoming && choice.value[0] == incoming[0] && choice.value[1] == incoming[1];
      assert wire + [] == wire;
      if choice.value[0] != 5 {
        return Err(NotSocks5);
      }
      if choice.value[1] == 0xFF {
        return Err(NoAcceptableAuth);
      }
      if choice.value[1] != 0 && choice.value[1] != 2 {
        return Err(NoAcceptableAuth);
      }
      if choice.value[1] == 2 {
        if credentials.None? {
          return Err(NoAcceptableAuth);
        }
        r := Authenticate(credentials.value, target, port);
        ConsumingFollows(2, Sending(Authentication(credentials.value), AfterAuthentication(target, port, incoming[2..])),
                         wire, socket.wire, incoming, socket.incoming, r);
      } else {
        r := RequestConnect(target, port);
        ConsumingFollows(2, Connect(target, port, incoming[2..]), wire, socket.wire, incoming, socket.incoming, r);
      }
    }

    method Authenticate(credentials: Credentials<bytes>, target: Target, port: nat) returns (r: Result<(), ProxyError>)
      requires started <= socket.now
      modifies socket
      ensures InTime(options, started, socket.epoch, old(socket.now), socket.now)
      ensures Follows(Sending(Authentication(credentials), AfterAuthentication(target, port, old(socket.incoming))),
                      old(socket.wire), socket.wire, old(socket.incoming), socket.incoming, r)
      ensures old(Undisturbed()) && AfterAuthentication(target, port, old(socket.incoming)).Outcome? ==> r.Ok? || !IsNetwork(r.error)
    {
      ghost var wire, incoming := socket.wire, socket.incoming;
      ghost var o := AfterAuthentication(target, port, incoming);
      var presented := SendAll(Authentication(credentials));
      if presented.Err? {
        return Err(presented.error);
      }
      ghost var after := socket.wire;
      assert after + [] == after;
      var verdict := RecvExact(2);
      if verdict.Err? {
        return Err(verdict.error);
      }
      assert incoming[2..] == socket.incoming && verdict.value[0] == incoming[0] && verdict.value[1] == incoming[1];
      if verdict.value[0] != 1 {
        r := Err(BadAuthVersion);
      } else if verdict.value[1] != 0 {
        r := Err(AuthFailed);
      } else {
        r := RequestConnect(target, port);
        ConsumingFollows(2, Connect(target, port, incoming[2..]), after, socket.wire, incoming, socket.incoming, r);
      }
      SendingFollows(Authentication(credentials), o, wire, socket.wire, incoming, socket.incoming, r);
    }

    method RequestConnect(target: Target, port: nat) returns (r: Result<(), ProxyError>)
      requires started <= socket.now
      modifies socket
      ensures InTime(options, started, socket.epoch, old(socket.now), socket.now)
      ensures Follows(Connect(target, port, old(socket.incoming)),
                      old(socket.wire), socket.wire, old(socket.incoming), socket.incoming, r)
      ensures old(Undisturbed()) && Connect(target, port, old(socket.incoming)).Outcome? ==> r.Ok? || !IsNetwork(r.error)
    {
      ghost var wire, incoming := socket.wire, socket.incoming;
      var request := ConnectRequest(target, port);
      if request.Err? {
        assert wire + [] == wire;
        return Err(request.error);
      }
      var sent := SendAll(request.value);
      if sent.Err? {
        return Err(sent.error);
      }
      r := ReadConnectReply();
      SendingFollows(request.value, ConnectReply(incoming), wire, socket.wire, incoming, socket.incoming, r);
    }

    method ReadConnectReply() returns (r: Result<(), ProxyError>)
      requires started <= socket.now
      modifies socket
      ensures InTime(options, started, socket.epoch, old(socket.now), socket.now)
      ensures Follows(ConnectReply(old(socket.incoming)),
                      old(socket.wire), socket.wire, old(socket.incoming), socket.incoming, r)
      ensures old(Undisturbed()) && ConnectReply(old(socket.incoming)).Outcome? ==> r.Ok? || !IsNetwork(r.error)
    {
      ghost var wire, incoming := socket.wire, socket.incoming;
      assert wire + [] == wire;
      var header := RecvExact(4);
      if header.Err? {
        return Err(header.error);
      }
      assert incoming[..4] == header.value && incoming[4..] == socket.incoming;
      if header.value[0] != 5 {
        return Err(BadConnectVersion);
      }
      if header.value[1] != 0 {
        return Err(Refused(header.value[1]));
      }
      var length := 0;
      ghost var at := 4;
      if header.value[3] == 1 {
        length := 4;
      } else if header.value[3] == 4 {
        length := 16;
      } else if header.value[3] == 3 {
        var octet := RecvExact(1);
        if octet.Err? {
          return Err(octet.error);
        }
        length, at := octet.value[0] as nat, 5;
        assert incoming[5..] == socket.incoming && octet.value[0] == incoming[4];
        if length == 0 {
          return Err(EmptyBoundAddress);
        }
      } else {
        return Err(UnknownAddressType);
      }
      r := SkipBoundAddress(length, at, incoming);
    }

    /** The bound address and port, which nobody looks at. */
    method SkipBoundAddress(length: nat, ghost at: nat, ghost answers: bytes) returns (r: Result<(), ProxyError>)
      requires started <= socket.now && at <= |answers| && answers[at..] == socket.incoming
      modifies socket
      ensures InTime(options, started, socket.epoch, old(socket.now), socket.now)
      ensures Follows(BoundAddress(at, length, answers), old(socket.wire), socket.wire, answers, socket.incoming, r)
      ensures old(Undisturbed()) && |answers| >= at + length + 2 ==> r.Ok?
    {
      var address := RecvExact(length);
      if address.Err? {
        NothingSentFollows(BoundAddress(at, length, answers), socket.wire, answers, socket.incoming, address.error);
        return Err(address.error);
      }
      Behind(answers, at, address.value, socket.incoming);
      r := SkipBoundPort(length, at, answers);
    }

    method SkipBoundPort(ghost length: nat, ghost at: nat, ghost answers: bytes) returns (r: Result<(), ProxyError>)
      requires started <= socket.now && at + length <= |answers| && answers[at + length..] == socket.incoming
      modifies socket
      ensures InTime(options, started, socket.epoch, old(socket.now), socket.now)
      ensures Follows(BoundAddress(at, length, answers), old(socket.wire), socket.wire, answers, socket.incoming, r)
      ensures old(Undisturbed()) && |answers| >= at + length + 2 ==> r.Ok?
    {
      var port := RecvExact(2);
      if port.Err? {
        NothingSentFollows(BoundAddress(at, length, answers), socket.wire, answers, socket.incoming, port.error);
        return Err(port.error);
      }
      Behind(answers, at + length, port.value, socket.incoming);
      BoundAddressFollows(at, length, socket.wire, answers, socket.incoming);
      return Ok(());
    }
  }

  lemma NothingSentFollows(o: Outcome, wire: bytes, before: bytes, incoming: bytes, e: ProxyError)
    requires o.sent == [] && IsNetwork(e)
    ensures Follows(o, wire, wire, before, incoming, Err(e))
  {
    assert wire + [] == wire;
  }

  lemma BoundAddressFollows(at: nat, length: nat, wire: bytes, answers: bytes, incoming: bytes)
    requires at + length + 2 <= |answers| && answers[at + length + 2..] == incoming
    ensures Follows(BoundAddress(at, length, answers), wire, wire, answers, incoming, Ok(()))
  {
    assert wire + [] == wire;
  }

  lemma Behind<T>(s: seq<T>, at: nat, part: seq<T>, rest: seq<T>)
    requires at <= |s| && s[at..] == part + rest
    ensures at + |part| <= |s| && s[at + |part|..] == rest
  {
    assert s[at + |part|..] == s[at..][|part|..];
  }

  /** A whole exchange that ends at the last nanosecond of its first receive, whenever it begins. */
  method SlowProxy(options: DialOptions, started: nat, epoch: nat, now: nat, credentials: Option<Credentials<bytes>>, target: Target, port: nat)
      returns (budget: StepBudget, r: Result<(), ProxyError>)
    requires started <= now && Remaining(options, started, now).Some?
    ensures fresh(budget) && fresh(budget.socket) && budget.socket.epoch == epoch && budget.started == started && budget.options == options
    ensures r.Err? && budget.socket.now == Latest(options, started, epoch, now) - 1
  {
    SlowestStep(options, started, epoch, now);
    var reply := SlowReply(now, epoch, Seconds(Remaining(options, started, now).value));
    var socket := new Sock(epoch, now, [Moves(4, 0)] + reply, [5, 0]);
    budget := new StepBudget(socket, options, started);
    assert Rest(socket.script) == reply;
    r := budget.Handshake(credentials, target, port);
  }

  /** With any deadline, some exchange ends in the last nanosecond that Handshake allows. */
  method SlowestProxy(options: DialOptions, started: nat, epoch: nat, credentials: Option<Credentials<bytes>>, target: Target, port: nat)
      returns (budget: StepBudget, r: Result<(), ProxyError>)
    requires options.totalTimeoutMs > 0
    ensures fresh(budget) && fresh(budget.socket) && budget.socket.epoch == epoch && budget.started == started && budget.options == options
    ensures r.Err? && budget.socket.now == LastEnd(options, started, epoch) - 1
  {
    LastNanosecond(options, started, epoch);
    budget, r := SlowProxy(options, started, epoch, Deadline(options, started) - 1, credentials, target, port);
  }

  lemma SendingFollows(prefix: bytes, o: Outcome, before: bytes, wire: bytes, answers: bytes, incoming: bytes, r: Result<(), ProxyError>)
    requires Follows(o, before + prefix, wire, answers, incoming, r)
    ensures Follows(Sending(prefix, o), before, wire, answers, incoming, r)
  {
    assert before + prefix + o.sent == before + (prefix + o.sent);
  }

  lemma ConsumingFollows(n: nat, o: Outcome, before: bytes, wire: bytes, answers: bytes, incoming: bytes, r: Result<(), ProxyError>)
    requires n <= |answers| && Follows(o, before, wire, answers[n..], incoming, r)
    ensures Follows(Consuming(n, o), before, wire, answers, incoming, r)
  {
    if r.Ok? {
      assert answers[n..][o.result.value..] == answers[n + o.result.value..];
    }
  }

  // ---------------------------------------------------------------- what is sent parses back

  /** Section 3 of RFC 1928: the version, and the methods offered. */
  function ParseGreeting(s: bytes): Option<(bytes, bytes)> {
    if |s| < 2 || s[0] != 5 || |s| < 2 + s[1] as nat then None
    else Some((s[2..2 + s[1] as nat], s[2 + s[1] as nat..]))
  }

  /** Section 2 of RFC 1929: user name and password. */
  function ParseAuthentication(s: bytes): Option<(Credentials<bytes>, bytes)> {
    if |s| < 2 || s[0] != 1 || |s| < 3 + s[1] as nat then None
    else
      var at := 2 + s[1] as nat;
      var length := s[at] as nat;
      if |s| < at + 1 + length then None
      else Some((Credentials(s[2..at], s[at + 1..at + 1 + length]), s[at + 1 + length..]))
  }

  /** Section 4 of RFC 1928: a CONNECT request's target and port. */
  function ParseConnect(s: bytes): Option<(Target, nat, bytes)> {
    if |s| < 5 || s[0] != 5 || s[1] != 1 || s[2] != 0 then None
    else if s[3] == 1 then ParseAddress(s, 4)
    else if s[3] == 4 then ParseAddress(s, 16)
    else if s[3] != 3 || |s| < 5 + s[4] as nat + 2 then None
    else
      var at := 5 + s[4] as nat;
      Some((Name(s[5..at]), s[at] as nat * 256 + s[at + 1] as nat, s[at + 2..]))
  }

  function ParseAddress(s: bytes, length: nat): Option<(Target, nat, bytes)>
    requires |s| >= 4
  {
    if |s| < 4 + length + 2 then None
    else Some((Address(Some(s[4..4 + length])), s[4 + length] as nat * 256 + s[5 + length] as nat, s[6 + length..]))
  }

  /** The bounds ParseProxyUrl establishes, a port, and an address of a family that exists. */
  predicate Bounded(credentials: Option<Credentials<bytes>>, target: Target, port: nat) {
    && (credentials.Some? ==> |credentials.value.user| <= 255 && |credentials.value.password| <= 255)
    && (target.Address? && target.octets.Some? ==> |target.octets.value| == 4 || |target.octets.value| == 16)
    && port < 0x1_0000
  }

  lemma GreetingParsesBack(credentials: Option<Credentials<bytes>>, rest: bytes)
    ensures ParseGreeting(Greeting(credentials) + rest) == Some((if credentials.Some? then [0, 2] else [0], rest))
  {
    var s := Greeting(credentials) + rest;
    assert s[2..2 + s[1] as nat] == if credentials.Some? then [0, 2] else [0];
    assert s[2 + s[1] as nat..] == rest;
  }

  lemma AuthenticationParsesBack(c: Credentials<bytes>, rest: bytes)
    requires |c.user| <= 255 && |c.password| <= 255
    ensures ParseAuthentication(Authentication(c) + rest) == Some((c, rest))
  {
    var s := Authentication(c) + rest;
    var at := 2 + |c.user|;
    assert s[1] as nat == |c.user| && s[2..at] == c.user;
    assert s[at] as nat == |c.password| && s[at + 1..at + 1 + |c.password|] == c.password;
    assert s[at + 1 + |c.password|..] == rest;
  }

  lemma PortOctets(port: nat)
    requires port < 0x1_0000
    ensures Octet(port / 256) as nat * 256 + Octet(port) as nat == port
  {
  }

  lemma NameParsesBack(name: bytes, port: nat)
    requires 0 < |name| <= 255 && port < 0x1_0000
    ensures ParseConnect(ConnectRequest(Name(name), port).value) == Some((Name(name), port, []))
  {
    var s := ConnectRequest(Name(name), port).value;
    PortOctets(port);
    assert s[4] as nat == |name| && s[5..5 + |name|] == name;
    assert s[5 + |name|] == Octet(port / 256) && s[6 + |name|] == Octet(port) && s[7 + |name|..] == [];
  }

  lemma AddressParsesBack(octets: bytes, port: nat)
    requires (|octets| == 4 || |octets| == 16) && port < 0x1_0000
    ensures ParseConnect(ConnectRequest(Address(Some(octets)), port).value) == Some((Address(Some(octets)), port, []))
  {
    var s, n := ConnectRequest(Address(Some(octets)), port).value, |octets|;
    PortOctets(port);
    assert s[4..4 + n] == octets;
    assert s[4 + n] == Octet(port / 256) && s[5 + n] == Octet(port) && s[6 + n..] == [];
  }

  lemma ConnectParsesBack(target: Target, port: nat)
    requires Bounded(None, target, port) && ConnectRequest(target, port).Ok?
    ensures ParseConnect(ConnectRequest(target, port).value) == Some((target, port, []))
  {
    match target
    case Name(name) => NameParsesBack(name, port);
    case Address(octets) => AddressParsesBack(octets.value, port);
  }

  /** A successful exchange, taken apart. */
  lemma Accepted(credentials: Option<Credentials<bytes>>, target: Target, port: nat, answers: bytes)
    requires var o := Exchange(credentials, target, port, answers); o.Outcome? && o.result.Ok?
    ensures |answers| >= 4 && answers[0] == 5 && ConnectRequest(target, port).Ok?
    ensures answers[1] == 2 ==> credentials.Some? && answers[..4] == [5, 2, 1, 0]
    ensures answers[1] != 2 ==> answers[..2] == [5, 0]
    ensures var o := Exchange(credentials, target, port, answers);
            var n := if answers[1] == 2 then 4 else 2;
            var reply := ConnectReply(answers[n..]);
            && reply.Outcome? && reply.result.Ok? && o.result.value == n + reply.result.value
            && o.sent == Greeting(credentials) +
                         ((if answers[1] == 2 then Authentication(credentials.value) else []) + ConnectRequest(target, port).value)
  {
    var request := ConnectRequest(target, port).value;
    assert request + [] == request == [] + request;
    if answers[1] == 2 {
      assert answers[2..][2..] == answers[4..];
      assert answers[2..][0] == answers[2] && answers[2..][1] == answers[3];
    }
  }

  /** After a successful exchange the octets on the wire parse back to what was offered, to the credentials
      if and only if the peer chose method 2, and to the target. */
  lemma SentParsesBack(credentials: Option<Credentials<bytes>>, target: Target, port: nat, answers: bytes)
    requires Bounded(credentials, target, port)
    requires var o := Exchange(credentials, target, port, answers); o.Outcome? && o.result.Ok?
    ensures |answers| >= 2 && ParsesBack(credentials, target, port, answers[1] == 2, Exchange(credentials, target, port, answers).sent)
  {
    Accepted(credentials, target, port, answers);
    AllParsesBack(credentials, target, port, answers[1] == 2);
  }

  predicate ParsesBack(credentials: Option<Credentials<bytes>>, target: Target, port: nat, authenticated: bool, sent: bytes) {
    var greeting := ParseGreeting(sent);
    && greeting.Some?
    && greeting.value.0 == (if credentials.Some? then [0, 2] else [0])
    && if authenticated then
         var authentication := ParseAuthentication(greeting.value.1);
         && authentication.Some? && Some(authentication.value.0) == credentials
         && ParseConnect(authentication.value.1) == Some((target, port, []))
       else
         ParseConnect(greeting.value.1) == Some((target, port, []))
  }

  lemma AllParsesBack(credentials: Option<Credentials<bytes>>, target: Target, port: nat, authenticated: bool)
    requires Bounded(credentials, target, port) && ConnectRequest(target, port).Ok? && (authenticated ==> credentials.Some?)
    ensures ParsesBack(credentials, target, port, authenticated, Greeting(credentials) +
              ((if authenticated then Authentication(credentials.value) else []) + ConnectRequest(target, port).value))
  {
    var request := ConnectRequest(target, port).value;
    ConnectParsesBack(target, port);
    if authenticated {
      AuthenticationParsesBack(credentials.value, request);
      GreetingParsesBack(credentials, Authentication(credentials.value) + request);
    } else {
      assert [] + request == request;
      GreetingParsesBack(credentials, request);
    }
  }

  /** Unless the peer answers with method 2, what goes on the wire is the same whatever the credentials are. */
  lemma CredentialsOnlyAfterMethod2(c: Credentials<bytes>, d: Credentials<bytes>, target: Target, port: nat, answers: bytes)
    requires !([5, 2] <= answers)
    ensures Exchange(Some(c), target, port, answers) == Exchange(Some(d), target, port, answers)
  {
    assert |answers| < 2 || answers[..2] != [5, 2];
  }

  // ---------------------------------------------------------------- exactly the answers are consumed

  datatype BoundTo = V4(octets: bytes) | V6(octets: bytes) | Domain(octets: bytes)

  predicate ValidBound(b: BoundTo) {
    match b
    case V4(octets) => |octets| == 4
    case V6(octets) => |octets| == 16
    case Domain(octets) => 1 <= |octets| <= 255
  }

  function EncodeBound(b: BoundTo): bytes {
    match b
    case V4(octets) => [1] + octets
    case V6(octets) => [4] + octets
    case Domain(octets) => [3, Octet(|octets|)] + octets
  }

  /** All a peer answers that accepts: the method, the verdict on the credentials if it asked for them, and
      the reply to CONNECT with the address it is bound to. */
  datatype Answers = Answers(authenticated: bool, reserved: byte, bound: BoundTo, port: bytes)

  predicate ValidAnswers(a: Answers) { ValidBound(a.bound) && |a.port| == 2 }

  function EncodeReply(a: Answers): bytes {
    [5, 0, a.reserved] + EncodeBound(a.bound) + a.port
  }

  function EncodeAnswers(a: Answers): bytes {
    (if a.authenticated then [5, 2, 1, 0] else [5, 0]) + EncodeReply(a)
  }

  lemma ReplyIsConsumed(a: Answers, rest: bytes)
    requires ValidAnswers(a)
    ensures ConnectReply(EncodeReply(a) + rest) == Outcome([], Ok(|EncodeReply(a)|))
  {
    var s := EncodeReply(a) + rest;
    assert s[..3] == [5, 0, a.reserved] && s[3] == EncodeBound(a.bound)[0];
    if a.bound.Domain? {
      assert s[4] as nat == |a.bound.octets|;
    }
  }

  /** Whatever is behind an accepting peer's answers is left alone. */
  lemma AnswersAreConsumed(credentials: Option<Credentials<bytes>>, target: Target, port: nat, a: Answers, rest: bytes)
    requires ValidAnswers(a) && (a.authenticated ==> credentials.Some?) && ConnectRequest(target, port).Ok?
    ensures var o := Exchange(credentials, target, port, EncodeAnswers(a) + rest);
            o.Outcome? && o.result == Ok(|EncodeAnswers(a)|)
  {
    var s, reply := EncodeAnswers(a) + rest, EncodeReply(a) + rest;
    ReplyIsConsumed(a, rest);
    if a.authenticated {
      assert s[2..] == [1, 0] + reply;
      assert s[2..][2..] == reply;
    } else {
      assert s[2..] == reply;
    }
  }

  /** The answers of a successful exchange are those of an accepting peer, to the last octet. */
  lemma ConsumedAreAnswers(credentials: Option<Credentials<bytes>>, target: Target, port: nat, answers: bytes)
    returns (a: Answers)
    requires var o := Exchange(credentials, target, port, answers); o.Outcome? && o.result.Ok?
    ensures ValidAnswers(a) && (a.authenticated ==> credentials.Some?)
    ensures EncodeAnswers(a) <= answers
    ensures Exchange(credentials, target, port, answers).result == Ok(|EncodeAnswers(a)|)
  {
    Accepted(credentials, target, port, answers);
    var n := if answers[1] == 2 then 4 else 2;
    a := ReadAnswers(answers[1] == 2, answers[n..]);
    assert answers == answers[..n] + answers[n..];
  }

  lemma ReadAnswers(authenticated: bool, reply: bytes) returns (a: Answers)
    requires ConnectReply(reply).Outcome? && ConnectReply(reply).result.Ok?
    ensures ValidAnswers(a) && a.authenticated == authenticated && EncodeReply(a) <= reply
    ensures ConnectReply(reply).result == Ok(|EncodeReply(a)|)
  {
    var at := if reply[3] == 3 then 5 else 4;
    var n := if reply[3] == 1 then 4 else if reply[3] == 4 then 16 else reply[4] as nat;
    var octets := reply[at..at + n];
    var bound := if reply[3] == 1 then V4(octets) else if reply[3] == 4 then V6(octets) else Domain(octets);
    a := Answers(authenticated, reply[2], bound, reply[at + n..at + n + 2]);
    assert EncodeReply(a) == reply[..at + n + 2];
  }

  /** Not one octet fewer would have done. */
  lemma FewerAreShort(credentials: Option<Credentials<bytes>>, target: Target, port: nat, answers: bytes, k: nat)
    requires var o := Exchange(credentials, target, port, answers); o.Outcome? && o.result.Ok? && k < o.result.value <= |answers|
    ensures Exchange(credentials, target, port, answers[..k]).Short?
  {
    if k >= 2 {
      assert answers[..k][2..] == answers[2..][..k - 2];
      if answers[1] == 2 && k >= 4 {
        assert answers[..k][2..][2..] == answers[2..][2..][..k - 4];
      }
    }
  }

  // ---------------------------------------------------------------- exactly which error

  predicate TargetUsable(target: Target) {
    match target
    case Name(name) => 1 <= |name| <= 255
    case Address(octets) => octets.Some?
  }

  /** The first octet of the answers that refuses, and the error it stands for; the reply to CONNECT begins at n. */
  function Refusal(credentials: Option<Credentials<bytes>>, target: Target, answers: bytes): Option<ProxyError> {
    var n := if |answers| >= 2 && answers[1] == 2 then 4 else 2;
    if |answers| < 2 then None
    else if answers[0] != 5 then Some(NotSocks5)
    else if answers[1] != 0 && (answers[1] != 2 || credentials.None?) then Some(NoAcceptableAuth)
    else if |answers| < n then None
    else if answers[1] == 2 && answers[2] != 1 then Some(BadAuthVersion)
    else if answers[1] == 2 && answers[3] != 0 then Some(AuthFailed)
    else if !TargetUsable(target) then Some(if target.Name? then TargetNameInvalid else DnsFailed)
    else if |answers| < n + 4 then None
    else if answers[n] != 5 then Some(BadConnectVersion)
    else if answers[n + 1] != 0 then Some(Refused(answers[n + 1]))
    else if answers[n + 3] !in {1, 3, 4} then Some(UnknownAddressType)
    else if answers[n + 3] == 3 && |answers| > n + 4 && answers[n + 4] == 0 then Some(EmptyBoundAddress)
    else None
  }

  /** An exchange fails exactly with the error of that octet, and without one it succeeds or waits for more. */
  lemma ErrorsExactly(credentials: Option<Credentials<bytes>>, target: Target, port: nat, answers: bytes)
    ensures var o, refusal := Exchange(credentials, target, port, answers), Refusal(credentials, target, answers);
            if refusal.Some? then o.Outcome? && o.result == Err(refusal.value) else o.Short? || o.result.Ok?
  {
    if |answers| >= 2 && answers[0] == 5 {
      if answers[1] == 0 {
        ConnectErrors(target, port, answers[2..]);
      } else if answers[1] == 2 && credentials.Some? && |answers| >= 4 && answers[2] == 1 && answers[3] == 0 {
        assert answers[2..][2..] == answers[4..];
        ConnectErrors(target, port, answers[4..]);
      }
    }
  }

  lemma ConnectErrors(target: Target, port: nat, reply: bytes)
    ensures var o := Connect(target, port, reply);
            if !TargetUsable(target) then o.Outcome? && o.result == Err(if target.Name? then TargetNameInvalid else DnsFailed)
            else if |reply| < 4 then o.Short?
            else if reply[0] != 5 then o.Outcome? && o.result == Err(BadConnectVersion)
            else if reply[1] != 0 then o.Outcome? && o.result == Err(Refused(reply[1]))
            else if reply[3] !in {1, 3, 4} then o.Outcome? && o.result == Err(UnknownAddressType)
            else if reply[3] == 3 && |reply| > 4 && reply[4] == 0 then o.Outcome? && o.result == Err(EmptyBoundAddress)
            else o.Short? || o.result.Ok?
  {
  }
}
