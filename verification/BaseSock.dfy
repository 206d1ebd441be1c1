/**
 The time and length accounting of CBaseSock (socket/BaseSock.cpp): a receive or send must end within a
 number of whole seconds, counted on a clock that is read in whole seconds.
 */
module BaseSock {
  import opened Wrappers

  /** Times are counted in nanoseconds. */
  function Nanoseconds(seconds: int): int { seconds * 1_000_000_000 }

  function WholeSeconds(nanoseconds: nat): nat { nanoseconds / 1_000_000_000 }

  /** What the network does with one overlapped read or write: after a while octets move, the peer closes,
      or it fails. If that takes longer than the wait, the wait times out. When the script is used up the
      network is undisturbed: it moves all there is, at once. */
  datatype Event = Moves(octets: nat, after: nat) | Closes(after: nat) | Fails(after: nat)

  /** 0xFFFFFFFF seen as an int. */
  const INFINITE: int := -1
  const MAXINT: int := 0x7FFF_FFFF

  datatype Error = TimedOut | Failed

  /** The return value of Recv and Send: a count, or SOCKET_ERROR with what GetLastError gives. */
  datatype Transfer<T> = Done(value: T) | SocketError(error: Error)

  function Min(a: nat, b: nat): nat { if a < b then a else b }

  predicate IsSuffix<T(==)>(s: seq<T>, t: seq<T>) {
    |s| <= |t| && s == t[|t| - |s|..]
  }

  lemma SuffixOfSuffix<T>(s: seq<T>, t: seq<T>, u: seq<T>)
    requires IsSuffix(s, t) && IsSuffix(t, u)
    ensures IsSuffix(s, u)
  {
  }

  lemma Regroup<T>(total: seq<T>, s: seq<T>, part: seq<T>, rest: seq<T>)
    requires [] + s == part + rest
    ensures total + s == (total + part) + rest
  {
    assert [] + s == s;
    assert total + (part + rest) == (total + part) + rest;
  }

  lemma TakeMore<T>(start: seq<T>, s: seq<T>, i: nat, n: nat)
    requires i + n <= |s|
    ensures (start + s[..i]) + s[i..][..n] == start + s[..i + n]
  {
    assert s[..i] + s[i..][..n] == s[..i + n];
  }

  // ---------------------------------------------------------------- what reading does

  /** The receiving side of the network: the steady clock, what happens next, what is still to come. */
  datatype Net = Net(now: nat, script: seq<Event>, incoming: bytes)

  function Rest(script: seq<Event>): seq<Event> {
    if script == [] then [] else script[1..]
  }

  function NextEvent(script: seq<Event>, len: nat): Event {
    if script == [] then Moves(len, 0) else script[0]
  }

  /** One overlapped read of at most `len` octets, which may take until endTime. */
  function Read(net: Net, epoch: nat, endTime: int, len: nat): (p: (Net, Transfer<bytes>))
    requires len > 0
    ensures p.1.Done? ==> |p.1.value| <= len
  {
    var left := endTime - WholeSeconds(net.now + epoch);
    if left <= 0 then (net, SocketError(TimedOut)) else
    var event := NextEvent(net.script, len);
    var now := net.now + Min(event.after, Nanoseconds(left));
    if event.after > Nanoseconds(left) then (Net(now, Rest(net.script), net.incoming), SocketError(TimedOut)) else
    var n := Available(event, len, net.incoming);
    (Net(now, Rest(net.script), net.incoming[n..]), if event.Fails? then SocketError(Failed) else Done(net.incoming[..n]))
  }

  /** How many octets a read that completes brings. */
  function Available(event: Event, len: nat, incoming: bytes): (n: nat)
    ensures n <= len && n <= |incoming|
    ensures event.Moves? && len > 0 && n == 0 ==> incoming == []
  {
    if event.Moves? then Min(if event.octets == 0 then 1 else event.octets, Min(len, |incoming|)) else 0
  }

  /** Reading on until there are minLen octets, nothing more comes, or a read fails. */
  function Reads(net: Net, epoch: nat, endTime: int, len: nat, minLen: nat, total: bytes): (Net, Transfer<bytes>)
    requires minLen <= len && |total| <= len
    decreases minLen - |total|
  {
    if |total| >= minLen then (net, Done(total)) else
    var (after, part) := Read(net, epoch, endTime, len - |total|);
    if part.SocketError? then (after, SocketError(part.error))
    else if part.value == [] then (after, Done(total))
    else Reads(after, epoch, endTime, len, minLen, total + part.value)
  }

  /** The clock has not passed the end time by more than the part of a second the clock cannot see. */
  predicate Within(before: nat, now: nat, epoch: nat, endTime: int) {
    before <= now && (now == before || now + epoch < Nanoseconds(endTime + 1))
  }

  /** The last event that was taken off the script; undisturbed reading takes none. */
  function LastEvent(before: seq<Event>, after: seq<Event>): Option<Event> {
    if |after| < |before| then Some(before[|before| - |after| - 1]) else None
  }

  /** The clock has moved on within the timer; a timeout is reported only once the end time has come. */
  predicate KeptTime(before: nat, now: nat, epoch: nat, endTime: int, r: Transfer<bytes>) {
    Within(before, now, epoch, endTime) && (r == SocketError(TimedOut) ==> now + epoch >= Nanoseconds(endTime))
  }

  /** Octets came off the front of the stream in order; with fewer than minLen of them the peer has closed. */
  predicate TookInOrder(before: bytes, after: bytes, minLen: nat, total: bytes, last: Option<Event>, r: Transfer<bytes>) {
    && IsSuffix(after, before)
    && (r.Done? ==> total + before == r.value + after)
    && (r.Done? && |r.value| < minLen ==> after == [] || (last.Some? && last.value.Closes?))
  }

  /** The script was used up event by event; a failure was the last of them. */
  predicate UsedUp(before: seq<Event>, after: seq<Event>, r: Transfer<bytes>) {
    && IsSuffix(after, before)
    && (r == SocketError(Failed) ==> LastEvent(before, after).Some? && LastEvent(before, after).value.Fails?)
  }

  /** What the reads of one call have left behind, and why they stopped. */
  predicate HasRead(net: Net, after: Net, epoch: nat, endTime: int, minLen: nat, total: bytes, r: Transfer<bytes>) {
    && KeptTime(net.now, after.now, epoch, endTime, r)
    && UsedUp(net.script, after.script, r)
    && TookInOrder(net.incoming, after.incoming, minLen, total, LastEvent(net.script, after.script), r)
  }

  /** Waiting for the whole seconds that are left ends less than a second behind the end time. */
  lemma ReadKeepsTime(net: Net, epoch: nat, endTime: int, len: nat)
    requires len > 0
    ensures var (after, r) := Read(net, epoch, endTime, len); KeptTime(net.now, after.now, epoch, endTime, r)
  {
  }

  lemma ReadTakes(net: Net, epoch: nat, endTime: int, len: nat)
    requires len > 0
    ensures var (after, r) := Read(net, epoch, endTime, len);
            && UsedUp(net.script, after.script, r)
            && TookInOrder(net.incoming, after.incoming, 1, [], LastEvent(net.script, after.script), r)
  {
    var n := Available(NextEvent(net.script, len), len, net.incoming);
    assert [] + net.incoming == net.incoming == net.incoming[..n] + net.incoming[n..];
  }

  lemma ReadHasRead(net: Net, epoch: nat, endTime: int, len: nat)
    requires len > 0
    ensures var (after, r) := Read(net, epoch, endTime, len);
            HasRead(net, after, epoch, endTime, 1, [], r)
  {
    ReadKeepsTime(net, epoch, endTime, len);
    ReadTakes(net, epoch, endTime, len);
  }

  lemma TookOn(before: bytes, between: bytes, after: bytes, minLen: nat, total: bytes, part: bytes,
               last: Option<Event>, next: Option<Event>, r: Transfer<bytes>)
    requires TookInOrder(before, between, 1, [], last, Done(part)) && TookInOrder(between, after, minLen, total + part, next, r)
    ensures TookInOrder(before, after, minLen, total, next, r)
  {
    SuffixOfSuffix(after, between, before);
    Regroup(total, before, part, between);
  }

  lemma UsedOn(before: seq<Event>, between: seq<Event>, after: seq<Event>, r: Transfer<bytes>)
    requires IsSuffix(between, before) && UsedUp(between, after, r)
    ensures UsedUp(before, after, r)
    ensures LastEvent(between, after).Some? ==> LastEvent(before, after) == LastEvent(between, after)
  {
    SuffixOfSuffix(after, between, before);
  }

  lemma HasReadOn(net: Net, between: Net, after: Net, epoch: nat, endTime: int, minLen: nat, total: bytes, part: bytes, r: Transfer<bytes>)
    requires HasRead(net, between, epoch, endTime, 1, [], Done(part)) && part != []
    requires HasRead(between, after, epoch, endTime, minLen, total + part, r)
    ensures HasRead(net, after, epoch, endTime, minLen, total, r)
  {
    UsedOn(net.script, between.script, after.script, r);
    TookOn(net.incoming, between.incoming, after.incoming, minLen, total, part, None, LastEvent(between.script, after.script), r);
  }

  /** The octets come off the front of the stream in order; short of minLen the peer has closed, a timeout
      is reported only once the end time has come, and a failure only when a read has failed. */
  lemma {:induction false} ReadsHaveRead(net: Net, epoch: nat, endTime: int, len: nat, minLen: nat, total: bytes)
    requires minLen <= len && |total| <= len
    ensures var (after, r) := Reads(net, epoch, endTime, len, minLen, total);
            HasRead(net, after, epoch, endTime, minLen, total, r) && (r.Done? ==> |r.value| <= len)
    decreases minLen - |total|
  {
    if |total| < minLen {
      ReadHasRead(net, epoch, endTime, len - |total|);
      var (between, part) := Read(net, epoch, endTime, len - |total|);
      if part.Done? && part.value != [] {
        ReadsHaveRead(between, epoch, endTime, len, minLen, total + part.value);
        var (after, r) := Reads(between, epoch, endTime, len, minLen, total + part.value);
        HasReadOn(net, between, after, epoch, endTime, minLen, total, part.value, r);
      }
    }
  }

  /** The network is undisturbed, there is time on the clock, and there are octets enough. */
  predicate Unhindered(net: Net, epoch: nat, endTime: int, len: nat) {
    net.script == [] && endTime > WholeSeconds(net.now + epoch) && |net.incoming| >= len
  }

  /** Then the first read does it all, at once. */
  predicate ReadAtOnce(net: Net, after: Net, minLen: nat, r: Transfer<bytes>) {
    after.script == [] && after.now == net.now && r.Done? && |r.value| >= minLen
  }

  lemma UnhinderedReads(net: Net, epoch: nat, endTime: int, len: nat, minLen: nat)
    requires Unhindered(net, epoch, endTime, len) && minLen <= len
    ensures var (after, r) := Reads(net, epoch, endTime, len, minLen, []); ReadAtOnce(net, after, minLen, r)
  {
    if minLen > 0 {
      var (after, part) := Read(net, epoch, endTime, len);
      assert [] + part.value == part.value == net.incoming[..len];
    }
  }

  /** All that Recv promises of its reads. */
  lemma RecvDone(net: Net, epoch: nat, endTime: int, len: nat, minLen: nat)
    requires minLen <= len
    ensures var (after, r) := Reads(net, epoch, endTime, len, minLen, []);
            && HasRead(net, after, epoch, endTime, minLen, [], r)
            && (r.Done? ==> |r.value| <= len && net.incoming == r.value + after.incoming)
            && (Unhindered(net, epoch, endTime, len) ==> ReadAtOnce(net, after, minLen, r))
  {
    ReadsHaveRead(net, epoch, endTime, len, minLen, []);
    assert [] + net.incoming == net.incoming;
    if Unhindered(net, epoch, endTime, len) {
      UnhinderedReads(net, epoch, endTime, len, minLen);
    }
  }

  // ---------------------------------------------------------------- what writing does

  /** The sending side: the steady clock, what happens next, and how many octets the network has taken. */
  datatype Out = Out(now: nat, script: seq<Event>, taken: nat)

  /** How many octets a write moves. */
  function Accepted(event: Event, len: nat): (n: nat)
    ensures n <= len
  {
    if event.Moves? then Min(event.octets, len) else 0
  }

  /** One overlapped write. It is started before the time is looked at, so octets can go though it fails. */
  function Write(out: Out, epoch: nat, endTime: int, len: nat): (p: (Out, Transfer<nat>))
    ensures p.1.Done? ==> p.1.value <= len
  {
    var event := NextEvent(out.script, len);
    var taken := out.taken + Accepted(event, len);
    var left := endTime - WholeSeconds(out.now + epoch);
    if left <= 0 then (Out(out.now, Rest(out.script), taken), SocketError(TimedOut)) else
    var after := Out(out.now + Min(event.after, Nanoseconds(left)), Rest(out.script), taken);
    if event.after > Nanoseconds(left) then (after, SocketError(TimedOut))
    else (after, if event.Fails? then SocketError(Failed) else Done(Accepted(event, len)))
  }

  /** Writing on until all is sent, nothing more is taken, or a write fails. */
  function Writes(out: Out, epoch: nat, endTime: int, len: nat, total: nat): (Out, Transfer<nat>)
    requires total <= len
    decreases len - total
  {
    if total == len then (out, Done(total)) else
    var (after, part) := Write(out, epoch, endTime, len - total);
    if part.SocketError? then (after, SocketError(part.error))
    else if part.value == 0 then (after, if total == 0 then SocketError(Failed) else Done(total))
    else Writes(after, epoch, endTime, len, total + part.value)
  }

  /** The last event of a call: the peer takes nothing more. */
  predicate Stopped(before: seq<Event>, after: seq<Event>) {
    var last := LastEvent(before, after);
    last.Some? && (last.value.Closes? || (last.value.Moves? && last.value.octets == 0))
  }

  predicate Broken(before: seq<Event>, after: seq<Event>) {
    Stopped(before, after) || (LastEvent(before, after).Some? && LastEvent(before, after).value.Fails?)
  }

  /** The clock has moved on within the timer; a timeout is reported only once the end time has come. */
  predicate WroteInTime(before: nat, now: nat, epoch: nat, endTime: int, r: Transfer<nat>) {
    Within(before, now, epoch, endTime) && (r == SocketError(TimedOut) ==> now + epoch >= Nanoseconds(endTime))
  }

  /** All was sent, or it is known why not. */
  predicate WroteWhy(before: seq<Event>, after: seq<Event>, len: nat, r: Transfer<nat>) {
    && IsSuffix(after, before)
    && match r
       case Done(n) => n < len ==> Stopped(before, after)
       case SocketError(error) => error == Failed ==> Broken(before, after)
  }

  /** What the writes of one call have done. */
  predicate HasWritten(out: Out, after: Out, epoch: nat, endTime: int, len: nat, total: nat, r: Transfer<nat>) {
    && WroteInTime(out.now, after.now, epoch, endTime, r)
    && WroteWhy(out.script, after.script, len, r)
    && out.taken <= after.taken <= out.taken + (len - total)
    && (r.Done? ==> after.taken == out.taken + r.value - total)
    && (r.Done? && total == 0 && len > 0 ==> r.value > 0)
  }

  lemma WriteIsInTime(out: Out, epoch: nat, endTime: int, len: nat)
    ensures var (after, r) := Write(out, epoch, endTime, len); WroteInTime(out.now, after.now, epoch, endTime, r)
  {
  }

  lemma LastTaken(script: seq<Event>)
    ensures IsSuffix(Rest(script), script)
    ensures script != [] ==> LastEvent(script, Rest(script)) == Some(script[0])
  {
  }

  lemma WriteWhy(out: Out, epoch: nat, endTime: int, len: nat)
    requires len > 0
    ensures var (after, r) := Write(out, epoch, endTime, len);
            && after.script == Rest(out.script) && IsSuffix(after.script, out.script)
            && out.taken <= after.taken <= out.taken + len
            && (r.Done? ==> after.taken == out.taken + r.value && (r.value == 0 ==> Stopped(out.script, after.script)))
            && (r == SocketError(Failed) ==> Broken(out.script, after.script))
  {
    LastTaken(out.script);
  }

  /** One turn of the loop, as the specification has it. */
  lemma WritesStep(out: Out, epoch: nat, endTime: int, len: nat, total: nat)
    requires total < len
    ensures var (after, part) := Write(out, epoch, endTime, len - total);
            && (part.Done? ==> after.taken == out.taken + part.value)
            && (part.Done? && part.value > 0 ==>
                  Writes(out, epoch, endTime, len, total) == Writes(after, epoch, endTime, len, total + part.value))
  {
  }

  lemma WroteOn(before: seq<Event>, between: seq<Event>, after: seq<Event>, len: nat, r: Transfer<nat>)
    requires IsSuffix(between, before) && WroteWhy(between, after, len, r)
    ensures WroteWhy(before, after, len, r)
  {
    SuffixOfSuffix(after, between, before);
    assert LastEvent(between, after).Some? ==> LastEvent(before, after) == LastEvent(between, after);
  }

  /** In time, with a known cause for what is not sent. */
  lemma {:induction false} WritesHaveWritten(out: Out, epoch: nat, endTime: int, len: nat, total: nat)
    requires total <= len
    ensures var (after, r) := Writes(out, epoch, endTime, len, total); HasWritten(out, after, epoch, endTime, len, total, r)
    decreases len - total
  {
    if total < len {
      WriteIsInTime(out, epoch, endTime, len - total);
      WriteWhy(out, epoch, endTime, len - total);
      var (between, part) := Write(out, epoch, endTime, len - total);
      if part.Done? && part.value > 0 {
        WritesHaveWritten(between, epoch, endTime, len, total + part.value);
        var (after, r) := Writes(between, epoch, endTime, len, total + part.value);
        WroteOn(out.script, between.script, after.script, len, r);
      }
    }
  }

  /** The next write moves all of `len` octets at once. */
  predicate Prompt(script: seq<Event>, len: nat) {
    var event := NextEvent(script, len);
    event.Moves? && event.octets >= len && event.after == 0
  }

  /** There is time, and the next write moves all there is to send at once. */
  predicate SentAtOnce(out: Out, epoch: nat, endTime: int, len: nat) {
    endTime > WholeSeconds(out.now + epoch) && Prompt(out.script, len)
  }

  /** All that Send promises of its writes. */
  lemma SendDone(out: Out, epoch: nat, endTime: int, len: nat)
    ensures var (after, r) := Writes(out, epoch, endTime, len, 0);
            && HasWritten(out, after, epoch, endTime, len, 0, r)
            && (len == 0 ==> after == out && r == Done(0))
            && (len > 0 && SentAtOnce(out, epoch, endTime, len) ==>
                  after == Out(out.now, Rest(out.script), out.taken + len) && r == Done(len))
  {
    WritesHaveWritten(out, epoch, endTime, len, 0);
  }

  // ---------------------------------------------------------------- the methods of the source

  class Sock {
    const epoch: nat            // the system clock when the steady clock was zero
    var now: nat                // the steady clock
    var script: seq<Event>
    var incoming: bytes         // what the peer has sent or will send, not yet received
    var wire: bytes             // what has been handed to the network
    var recvTimeoutSeconds: int
    var sendTimeoutSeconds: int
    var recvEndTime: int
    var sendEndTime: int

    constructor (epoch: nat, now: nat, script: seq<Event>, incoming: bytes)
      ensures this.epoch == epoch && this.now == now && this.script == script && this.incoming == incoming && wire == []
    {
      this.epoch, this.now, this.script, this.incoming := epoch, now, script, incoming;
      wire, recvTimeoutSeconds, sendTimeoutSeconds, recvEndTime, sendEndTime := [], 1, 1, 0, 0;
    }

    /** system_clock::now() in whole seconds. */
    function SystemSeconds(): int
      reads this
    {
      WholeSeconds(now + epoch)
    }

    /** The receiving side, as a value. */
    function View(): Net
      reads this
    {
      Net(now, script, incoming)
    }

    /** The sending side, as a value. */
    function OutView(): Out
      reads this
    {
      Out(now, script, |wire|)
    }

    /** SetRecvTimeoutSeconds and SetSendTimeoutSeconds with the same number. */
    method SetTimeouts(seconds: int)
      modifies `recvTimeoutSeconds, `sendTimeoutSeconds
      ensures seconds == INFINITE ==> recvTimeoutSeconds == sendTimeoutSeconds == MAXINT
      ensures seconds > 0 ==> recvTimeoutSeconds == sendTimeoutSeconds == seconds
      ensures seconds <= 0 && seconds != INFINITE ==>
                recvTimeoutSeconds == old(recvTimeoutSeconds) && sendTimeoutSeconds == old(sendTimeoutSeconds)
    {
      var newTimeout := if seconds == INFINITE then MAXINT else seconds;
      if newTimeout > 0 {
        recvTimeoutSeconds, sendTimeoutSeconds := newTimeout, newTimeout;
      }
    }

    /** WaitForMultipleObjects; false when the wait times out. */
    method Wait(event: Event, secondsLeft: nat) returns (completed: bool)
      modifies `now, `script
      ensures completed == (event.after <= Nanoseconds(secondsLeft))
      ensures now == old(now) + Min(event.after, Nanoseconds(secondsLeft))
      ensures script == Rest(old(script))
    {
      script := Rest(script);
      now := now + Min(event.after, Nanoseconds(secondsLeft));
      completed := event.after <= Nanoseconds(secondsLeft);
    }

    /** At least one octet and at most `len`; none when the peer has closed. */
    method RecvPartial(len: nat) returns (r: Transfer<bytes>)
      requires len > 0
      modifies `now, `script, `incoming
      ensures (View(), r) == Read(old(View()), epoch, recvEndTime, len)
    {
      var secondsLeft := recvEndTime - SystemSeconds();
      if secondsLeft <= 0 {
        return SocketError(TimedOut);
      }
      var event := NextEvent(script, len);
      var completed := Wait(event, secondsLeft);
      if !completed {
        return SocketError(TimedOut);
      }
      var n := Available(event, len, incoming);
      var data := incoming[..n];
      incoming := incoming[n..];
      return if event.Fails? then SocketError(Failed) else Done(data);
    }

    /** Recv: restarts the timer and reads until minLen octets are there; fewer only if the peer has closed. */
    method Recv(len: nat, minLen: nat) returns (r: Transfer<bytes>)
      requires minLen <= len
      modifies `now, `script, `incoming, `recvEndTime
      ensures recvEndTime == old(SystemSeconds()) + recvTimeoutSeconds
      ensures (View(), r) == Reads(old(View()), epoch, recvEndTime, len, minLen, [])
      ensures HasRead(old(View()), View(), epoch, recvEndTime, minLen, [], r)
      ensures r.Done? ==> |r.value| <= len && old(incoming) == r.value + incoming
      ensures Unhindered(old(View()), epoch, recvEndTime, len) ==> ReadAtOnce(old(View()), View(), minLen, r)
    {
      recvEndTime := SystemSeconds() + recvTimeoutSeconds;
      RecvDone(View(), epoch, recvEndTime, len, minLen);
      r := RecvLoop(len, minLen);
    }

    method RecvLoop(len: nat, minLen: nat) returns (r: Transfer<bytes>)
      requires minLen <= len
      modifies `now, `script, `incoming
      ensures (View(), r) == Reads(old(View()), epoch, recvEndTime, len, minLen, [])
    {
      var total := [];
      ghost var expected := Reads(View(), epoch, recvEndTime, len, minLen, []);
      while |total| < minLen
        invariant |total| <= len
        invariant Reads(View(), epoch, recvEndTime, len, minLen, total) == expected
        decreases minLen - |total|
      {
        var part := RecvPartial(len - |total|);
        if part.SocketError? {
          return SocketError(part.error);
        }
        if part.value == [] {
          break;
        }
        total := total + part.value;
      }
      return Done(total);
    }

    /** One overlapped write and its wait. */
    method SendPartial(data: bytes) returns (r: Transfer<nat>)
      modifies `now, `script, `wire
      ensures (OutView(), r) == Write(old(OutView()), epoch, sendEndTime, |data|)
      ensures |old(wire)| <= |wire| <= |old(wire)| + |data| && wire == old(wire) + data[..|wire| - |old(wire)|]
    {
      var event := NextEvent(script, |data|);
      var n := Accepted(event, |data|);
      wire := wire + data[..n];
      var secondsLeft := sendEndTime - SystemSeconds();
      if secondsLeft <= 0 {
        script := Rest(script);
        return SocketError(TimedOut);
      }
      var completed := Wait(event, secondsLeft);
      if !completed {
        return SocketError(TimedOut);
      }
      return if event.Fails? then SocketError(Failed) else Done(n);
    }

    /** Send: restarts the timer and writes until everything is sent or the peer takes nothing more. */
    method Send(data: bytes) returns (r: Transfer<nat>)
      modifies `now, `script, `wire, `sendEndTime
      ensures sendEndTime == old(SystemSeconds()) + sendTimeoutSeconds
      ensures |old(wire)| <= |wire| <= |old(wire)| + |data| && wire == old(wire) + data[..|wire| - |old(wire)|]
      ensures (OutView(), r) == Writes(old(OutView()), epoch, sendEndTime, |data|, 0)
      ensures HasWritten(old(OutView()), OutView(), epoch, sendEndTime, |data|, 0, r)
      ensures data == [] ==> OutView() == old(OutView()) && r == Done(0)
      ensures data != [] && SentAtOnce(old(OutView()), epoch, sendEndTime, |data|) ==>
                now == old(now) && script == Rest(old(script)) && r == Done(|data|)
    {
      sendEndTime := SystemSeconds() + sendTimeoutSeconds;
      SendDone(OutView(), epoch, sendEndTime, |data|);
      r := SendLoop(data);
    }

    method SendLoop(data: bytes) returns (r: Transfer<nat>)
      modifies `now, `script, `wire
      ensures |old(wire)| <= |wire| <= |old(wire)| + |data| && wire == old(wire) + data[..|wire| - |old(wire)|]
      ensures (OutView(), r) == Writes(old(OutView()), epoch, sendEndTime, |data|, 0)
    {
      var total := 0;
      ghost var expected := Writes(OutView(), epoch, sendEndTime, |data|, 0);
      assert wire == wire + data[..0];
      while total < |data|
        invariant total <= |data| && wire == old(wire) + data[..total]
        invariant Writes(OutView(), epoch, sendEndTime, |data|, total) == expected
        decreases |data| - total
      {
        ghost var before := |wire|;
        WritesStep(OutView(), epoch, sendEndTime, |data|, total);
        var part := SendPartial(data[total..]);
        TakeMore(old(wire), data, total, |wire| - before);
        if part.SocketError? {
          return SocketError(part.error);
        }
        if part.value == 0 {
          if total == 0 {
            return SocketError(Failed);
          }
          break;
        }
        total := total + part.value;
      }
      return Done(total);
    }
  }
}
