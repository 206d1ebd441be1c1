/**
 Every interleaving of the write path. A step is one region under m_write_lock, one dispatch call,
 one async_write call, or one completion; the counters say how many threads stand at each point.
 */
module WriteSystem {
  import opened Wrappers
  import opened WritePath

  datatype System = System(
    f: Fields,
    owing: nat,        // threads that saw needs_writing and have not yet called dispatch
    dispatched: nat,   // dispatched write_frame calls that have not yet taken the lock
    prepared: nat,     // write_frame calls that own a batch and have not yet called async_write
    inFlight: nat,     // async_write calls whose completion handler has not run
    releasing: nat,    // handle_write_frame calls between clearing the batch and taking the lock
    stopped: bool,     // some handle_write_frame called terminate and kept the flag
    failed: bool,      // some async_write completed with an error
    pushed: seq<Message>,   // all messages ever passed to write_push, in order
    written: seq<Message>,  // all messages ever handed to async_write, in order
    wire: seq<bytes>)       // the buffers of all async_write calls, in order

  const INITIAL := System(Fields([], 0, false, [], []), 0, 0, 0, 0, 0, false, false, [], [], [])

  datatype Step =
    | Push(msg: Message)
    | Dispatch
    | Claim
    | HandOff
    | Complete(error: bool)
    | Release

  /** A completion step needs a non-empty batch: the source calls back() on it without a check. */
  predicate Enabled(s: System, e: Step) {
    match e
    case Push(_) => true
    case Dispatch => s.owing > 0
    case Claim => s.dispatched > 0
    case HandOff => s.prepared > 0
    case Complete(_) => s.inFlight > 0
    case Release => s.releasing > 0
  }

  /** A completion that would call back() on an empty vector; NoEmptyBatch shows it never happens. */
  predicate Defined(s: System, e: Step) {
    e.Complete? ==> s.f.current != []
  }

  function Next(s: System, e: Step): System
    requires Enabled(s, e) && Defined(s, e)
  {
    match e
    case Push(m) =>
      s.(f := Pushed(s.f, m), owing := s.owing + (if s.f.writeFlag then 0 else 1), pushed := s.pushed + [m])
    case Dispatch =>
      s.(owing := s.owing - 1, dispatched := s.dispatched + 1)
    case Claim =>
      var f := Claimed(s.f);
      s.(f := f, dispatched := s.dispatched - 1,
         prepared := s.prepared + if !s.f.writeFlag && f.writeFlag then 1 else 0)
    case HandOff =>
      var buffers := Buffers(s.f.current);
      s.(f := s.f.(sendBuffer := buffers), prepared := s.prepared - 1, inFlight := s.inFlight + 1,
         written := s.written + s.f.current, wire := s.wire + buffers)
    case Complete(error) =>
      var s' := s.(f := s.f.(current := [], sendBuffer := []), inFlight := s.inFlight - 1);
      (match Outcome(s.f, error)
       case Failed => s'.(stopped := true, failed := true)
       case Terminal => s'.(stopped := true)
       case Continue => s'.(releasing := s.releasing + 1))
    case Release =>
      var f := s.f.(writeFlag := false);
      s.(f := f, releasing := s.releasing - 1, owing := s.owing + if NeedsWriting(f) then 1 else 0)
  }

  predicate Legal(s: System, run: seq<Step>)
    decreases |run|
  {
    run == [] || (Enabled(s, run[0]) && (Defined(s, run[0]) ==> Legal(Next(s, run[0]), run[1..])))
  }

  /** The state after a run; a run stops short at an undefined step. */
  function Exec(s: System, run: seq<Step>): System
    requires Legal(s, run)
    decreases |run|
  {
    if run == [] || !Defined(s, run[0]) then s else Exec(Next(s, run[0]), run[1..])
  }

  // ---------------------------------------------------------------- the invariant

  predicate EndsTerminal(msgs: seq<Message>) {
    msgs != [] && msgs[|msgs| - 1].terminal
  }

  predicate TerminalOnlyLast(msgs: seq<Message>) {
    forall i :: 0 <= i < |msgs| - 1 ==> !msgs[i].terminal
  }

  /** Messages that have left the queue. */
  function Taken(s: System): seq<Message> {
    s.written + if s.prepared > 0 then s.f.current else []
  }

  predicate WriterInv(s: System) {
    && s.prepared + s.inFlight + s.releasing + (if s.stopped then 1 else 0) == (if s.f.writeFlag then 1 else 0)
    && (s.f.current != [] <==> s.prepared + s.inFlight == 1)
    && (s.inFlight == 0 ==> s.f.sendBuffer == [])
  }

  predicate OrderInv(s: System) {
    && Taken(s) + s.f.queue == s.pushed
    && (s.inFlight == 1 ==> |s.f.current| <= |s.written| && s.f.current == s.written[|s.written| - |s.f.current|..])
    && s.wire == Buffers(s.written)
    && s.f.bufferSize == PayloadTotal(s.f.queue) % SIZE_LIMIT
  }

  predicate TerminalInv(s: System) {
    && TerminalOnlyLast(Taken(s))
    && (EndsTerminal(Taken(s)) ==> s.stopped || s.prepared + s.inFlight == 1)
    && (s.stopped ==> s.failed || EndsTerminal(s.written))
    && (s.failed ==> s.stopped)
  }

  predicate WakeInv(s: System) {
    s.f.queue != [] ==> s.f.writeFlag || s.owing + s.dispatched > 0
  }

  predicate Inv(s: System) {
    WriterInv(s) && OrderInv(s) && TerminalInv(s) && WakeInv(s)
  }

  lemma {:induction false} PayloadTotalConcat(a: seq<Message>, b: seq<Message>)
    ensures PayloadTotal(a + b) == PayloadTotal(a) + PayloadTotal(b)
  {
    if b == [] {
      assert a + b == a;
    } else {
      var b' := b[..|b| - 1];
      assert b == b' + [b[|b| - 1]];
      assert a + b == (a + b') + [b[|b| - 1]];
      PayloadTotalSnoc(a + b', b[|b| - 1]);
      PayloadTotalSnoc(b', b[|b| - 1]);
      PayloadTotalConcat(a, b');
    }
  }

  lemma {:induction false} BuffersConcat(a: seq<Message>, b: seq<Message>)
    ensures Buffers(a + b) == Buffers(a) + Buffers(b)
  {
    if b == [] {
      assert a + b == a;
    } else {
      var b' := b[..|b| - 1];
      assert (a + b)[..|a + b| - 1] == a + b';
      BuffersConcat(a, b');
    }
  }

  lemma {:induction false} BatchShape(q: seq<Message>)
    ensures UpToTerminal(q) == [] <==> q == []
    ensures TerminalOnlyLast(UpToTerminal(q))
    ensures UpToTerminal(q) == q || EndsTerminal(UpToTerminal(q))
  {
    if q != [] && !q[0].terminal {
      BatchShape(q[1..]);
    }
  }

  lemma PushKeepsInv(s: System, m: Message)
    requires Inv(s)
    ensures Inv(Next(s, Push(m)))
  {
    var s' := Next(s, Push(m));
    assert Taken(s') + s'.f.queue == Taken(s) + s.f.queue + [m];
    PayloadTotalSnoc(s.f.queue, m);
  }

  lemma ClaimKeepsInv(s: System)
    requires Inv(s) && s.dispatched > 0
    ensures Inv(Next(s, Claim))
  {
    var s', batch := Next(s, Claim), UpToTerminal(s.f.queue);
    if !s.f.writeFlag {
      assert s.f.queue == batch + s'.f.queue;
      SizeAfterClaim(s.f.bufferSize, batch, s'.f.queue);
      ClaimedBatch(s);
    }
  }

  lemma SizeAfterClaim(size: nat, batch: seq<Message>, rest: seq<Message>)
    requires size == PayloadTotal(batch + rest) % SIZE_LIMIT
    ensures SizeAfterPops(size, batch) == PayloadTotal(rest) % SIZE_LIMIT
  {
    PayloadTotalConcat(batch, rest);
    SizeAfterPopsTotal(size, batch);
  }

  /** A claim on a free writer moves the batch out of the queue and changes nothing else that matters. */
  lemma ClaimedBatch(s: System)
    requires WriterInv(s) && TerminalInv(s) && s.dispatched > 0 && !s.f.writeFlag
    ensures var s', batch := Next(s, Claim), UpToTerminal(s.f.queue);
            && s'.f.current == batch
            && (s'.prepared == if batch == [] then 0 else 1)
            && s'.f.writeFlag == (batch != [])
            && (batch == [] ==> s'.f.queue == [])
            && Taken(s') == s.written + batch && Taken(s) == s.written
            && Taken(s') + s'.f.queue == s.written + s.f.queue
            && TerminalOnlyLast(s.written + batch)
  {
    BatchShape(s.f.queue);
    var s', batch := Next(s, Claim), UpToTerminal(s.f.queue);
    assert s.f.queue == batch + s'.f.queue;
    assert s.written + (batch + s'.f.queue) == (s.written + batch) + s'.f.queue;
  }

  lemma HandOffKeepsInv(s: System)
    requires Inv(s) && s.prepared > 0
    ensures Inv(Next(s, HandOff))
  {
    var s' := Next(s, HandOff);
    BuffersConcat(s.written, s.f.current);
    assert Taken(s') == Taken(s);
  }

  lemma CompleteKeepsInv(s: System, error: bool)
    requires Inv(s) && s.inFlight > 0
    ensures Inv(Next(s, Complete(error)))
  {
    var s' := Next(s, Complete(error));
    assert s.written[|s.written| - 1] == s.f.current[|s.f.current| - 1];
    assert Taken(s') == Taken(s) == s.written;
  }

  lemma NextKeepsInv(s: System, e: Step)
    requires Inv(s) && Enabled(s, e)
    ensures Defined(s, e) && Inv(Next(s, e))
  {
    match e
    case Push(m) => PushKeepsInv(s, m);
    case Dispatch =>
    case Claim => ClaimKeepsInv(s);
    case HandOff => HandOffKeepsInv(s);
    case Complete(error) => CompleteKeepsInv(s, error);
    case Release =>
  }

  lemma {:induction false} RunKeepsInv(s: System, run: seq<Step>)
    requires Inv(s) && Legal(s, run)
    ensures Inv(Exec(s, run))
    decreases |run|
  {
    if run != [] {
      NextKeepsInv(s, run[0]);
      RunKeepsInv(Next(s, run[0]), run[1..]);
    }
  }

  // ---------------------------------------------------------------- main results

  /**
   Safety of every run: what was handed to async_write is a prefix of what was pushed, its bytes are
   the messages' bytes, at most one write is outstanding, the size field is the payload total of the
   queue, and only the last message handed over can be terminal.
   */
  lemma WritePathSafety(run: seq<Step>)
    requires Legal(INITIAL, run)
    ensures var s := Exec(INITIAL, run);
            && s.written <= s.pushed
            && s.wire == Buffers(s.written) && |s.wire| == 2 * |s.written|
            && (forall i :: 0 <= i < |s.written| ==> s.wire[2 * i] == s.written[i].header && s.wire[2 * i + 1] == s.written[i].payload)
            && s.prepared + s.inFlight + s.releasing <= 1
            && s.f.bufferSize == PayloadTotal(s.f.queue) % SIZE_LIMIT
            && TerminalOnlyLast(s.written)
            && Taken(s) + s.f.queue == s.pushed
  {
    RunKeepsInv(INITIAL, run);
    var s := Exec(INITIAL, run);
    BuffersAt(s.written);
    assert s.pushed[..|s.written|] == s.written;
    assert forall i :: 0 <= i < |s.written| ==> s.written[i] == Taken(s)[i];
  }

  /** handle_write_frame never meets an empty batch. */
  lemma NoEmptyBatch(run: seq<Step>, error: bool)
    requires Legal(INITIAL, run) && Enabled(Exec(INITIAL, run), Complete(error))
    ensures Exec(INITIAL, run).f.current != []
  {
    RunKeepsInv(INITIAL, run);
  }

  /** No lost wake-up: waiting messages are always covered by the current writer or by a dispatch that is owed. */
  lemma NoLostWakeUp(run: seq<Step>)
    requires Legal(INITIAL, run)
    ensures var s := Exec(INITIAL, run);
            s.f.queue != [] ==> s.f.writeFlag || s.owing + s.dispatched > 0
  {
    RunKeepsInv(INITIAL, run);
  }

  /** What was handed over is never taken back, and a stopped writer hands over nothing more. */
  lemma {:induction false} WrittenGrows(s: System, run: seq<Step>)
    requires Inv(s) && Legal(s, run)
    ensures s.written <= Exec(s, run).written
    ensures s.stopped ==> Exec(s, run).written == s.written && Exec(s, run).stopped
    decreases |run|
  {
    if run != [] {
      NextKeepsInv(s, run[0]);
      WrittenGrows(Next(s, run[0]), run[1..]);
    }
  }

  /** After a terminal message, or after a failed write, no later step writes anything. */
  lemma NothingAfterTheLastWrite(run: seq<Step>, more: seq<Step>)
    requires Legal(INITIAL, run) && Legal(Exec(INITIAL, run), more)
    requires var s := Exec(INITIAL, run); s.failed || exists m :: m in s.written && m.terminal
    ensures Exec(Exec(INITIAL, run), more).written == Exec(INITIAL, run).written
  {
    RunKeepsInv(INITIAL, run);
    var s := Exec(INITIAL, run);
    WrittenGrows(s, more);
    RunKeepsInv(s, more);
    var s' := Exec(s, more);
    if !s.failed {
      var m :| m in s.written && m.terminal;
      var i :| 0 <= i < |s.written| && s.written[i] == m;
      assert s'.written[i] == m;
      assert Taken(s')[i] == m;
    }
  }

  // ---------------------------------------------------------------- progress

  /** Bounds the number of steps, other than pushes, that can still happen. */
  function Work(s: System): nat {
    5 * |s.f.queue| + 5 * s.prepared + 4 * s.inFlight + 3 * s.releasing + 2 * s.owing + s.dispatched
  }

  predicate Quiet(s: System) {
    s.owing == 0 && s.dispatched == 0 && s.prepared == 0 && s.inFlight == 0 && s.releasing == 0
  }

  /** Nothing can happen any more but a push. */
  ghost predicate NoStepLeft(s: System) {
    forall e: Step :: Enabled(s, e) ==> e.Push?
  }

  lemma QuietMeansNoStep(s: System)
    ensures Quiet(s) <==> NoStepLeft(s)
  {
    if NoStepLeft(s) {
      assert !Enabled(s, Dispatch) && !Enabled(s, Claim) && !Enabled(s, HandOff);
      assert !Enabled(s, Complete(false)) && !Enabled(s, Release);
    }
  }

  lemma StepDoesWork(s: System, e: Step)
    requires Inv(s) && Enabled(s, e) && !e.Push?
    ensures Defined(s, e) && Work(Next(s, e)) < Work(s)
  {
    if e.Claim? && !s.f.writeFlag {
      BatchShape(s.f.queue);
    }
  }

  lemma {:induction false} RunDoesWork(s: System, run: seq<Step>)
    requires Inv(s) && Legal(s, run) && forall i :: 0 <= i < |run| ==> !run[i].Push?
    ensures Work(Exec(s, run)) + |run| <= Work(s)
    ensures Exec(s, run).pushed == s.pushed
    decreases |run|
  {
    if run != [] {
      StepDoesWork(s, run[0]);
      NextKeepsInv(s, run[0]);
      RunDoesWork(Next(s, run[0]), run[1..]);
    }
  }

  lemma {:induction false} UpToTerminalOfPrefix(a: seq<Message>, b: seq<Message>)
    requires TerminalOnlyLast(a) && (EndsTerminal(a) || b == [])
    ensures UpToTerminal(a + b) == a
  {
    UpToTerminalAt(a + b, |a|);
  }

  lemma QuietMeansWritten(s: System)
    requires Inv(s) && Quiet(s) && !s.failed
    ensures s.written == UpToTerminal(s.pushed)
  {
    assert Taken(s) == s.written;
    UpToTerminalOfPrefix(s.written, s.f.queue);
  }

  /**
   The queue drains. Left alone from any reachable state, the system takes at most Work(s) steps;
   and once no step is left and no write has failed, exactly the pushed messages up to and including
   the first terminal one have been written. With no terminal message that is all of them.
   */
  lemma QueueDrains(run: seq<Step>, rest: seq<Step>)
    requires Legal(INITIAL, run) && Legal(Exec(INITIAL, run), rest)
    requires forall i :: 0 <= i < |rest| ==> !rest[i].Push?
    ensures var s, s' := Exec(INITIAL, run), Exec(Exec(INITIAL, run), rest);
            && |rest| <= Work(s)
            && (NoStepLeft(s') && !s'.failed ==> s'.written == UpToTerminal(s.pushed))
  {
    RunKeepsInv(INITIAL, run);
    var s := Exec(INITIAL, run);
    RunDoesWork(s, rest);
    RunKeepsInv(s, rest);
    var s' := Exec(s, rest);
    QuietMeansNoStep(s');
    if NoStepLeft(s') && !s'.failed {
      QuietMeansWritten(s');
    }
  }
}
