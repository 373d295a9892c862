/** The outbound half of the IPC client as interleaved steps of a sending thread and the IPC thread: the
    queue, the posted kicks, the self-chaining writer and the reconnect loop. */
module IpcTransport {
  import opened Memory
  import opened IpcFraming

  /** Down: no io_context is published. Up: published, its loop not yet running. Running: inside
      io.run(). Stopped: io.run() has returned, or connecting failed; still published. */
  datatype Phase = Down | Up | Running | Stopped

  /** Where the IPC thread is between two handlers of the writer: at none, in do_write before it looks
      at the queue, or in do_write holding the message it has taken. */
  datatype Writer = Idle | Wanting | Holding(msg: Payload)

  datatype State = State(
    phase: Phase,
    queue: seq<Payload>,       // outbound_queue_
    kicks: nat,                // kick_write handlers posted and not yet run
    inProgress: bool,          // write_in_progress_
    writer: Writer,
    outstanding: seq<Payload>, // messages whose async_write has not completed
    greetings: nat,            // PING and INSTANCE_HELLO already sent on this connection
    reading: bool,             // a read is armed
    broken: bool,              // a write has failed on this connection
    wire: seq<byte>,           // bytes the connection has taken
    sent: seq<Payload>,        // every message ever sent, in order
    resolved: seq<Outcome>,    // those written or dropped, in order
    written: seq<Payload>)     // those written on this connection

  /** What became of a message. */
  datatype Outcome = Written(msg: Payload) | Dropped(msg: Payload)

  const START := State(Down, [], 0, false, Idle, [], 0, false, false, [], [], [], [])

  datatype Event =
    | Send(msg: Payload)
    | Open | ConnectFails | Greet(msg: Payload) | RunStarts
    | RunKick | Take | StartWrite | WriteCompletes | WriteFails(taken: nat)
    | ReadFails | RunReturns | Close

  predicate Enabled(s: State, e: Event)
  {
    match e
    case Send(msg) => |msg| < SPACE
    case Open => s.phase == Down
    case ConnectFails => s.phase == Up && s.greetings == 0
    case Greet(msg) => s.phase == Up && s.greetings < 2 && |msg| < SPACE
    case RunStarts => s.phase == Up && s.greetings == 2
    case RunKick => s.phase == Running && s.writer == Idle && s.kicks > 0
    case Take => s.phase == Running && s.writer == Wanting
    case StartWrite => s.phase == Running && s.writer.Holding?
    case WriteCompletes => s.phase == Running && s.writer == Idle && s.outstanding != [] && !s.broken
    case WriteFails(taken) => s.phase == Running && s.writer == Idle && s.outstanding != []
                              && taken < |Frame(s.outstanding[0])| && (s.broken ==> taken == 0)
    case ReadFails => s.phase == Running && s.writer == Idle && s.reading
    case RunReturns => s.phase == Running && s.writer == Idle && s.kicks == 0 && s.outstanding == [] && !s.reading
    case Close => s.phase == Stopped
  }

  /** Sending: under the lock the message is queued and, if an io_context is published, a kick posted. */
  function Enqueued(s: State, msg: Payload): State
  {
    s.(queue := s.queue + [msg], sent := s.sent + [msg], kicks := if s.phase == Down then s.kicks else s.kicks + 1)
  }

  function Step(s: State, e: Event): State
    requires Enabled(s, e)
  {
    match e
    case Send(msg) => Enqueued(s, msg)
    case Open => s.(phase := Up, kicks := 0, inProgress := false, greetings := 0, reading := false,
    broken := false, wire := [], written := [])
    case ConnectFails => s.(phase := Stopped)
    case Greet(msg) => Enqueued(s, msg).(greetings := s.greetings + 1)
    case RunStarts => s.(phase := Running, reading := true)
    case RunKick => if s.inProgress then s.(kicks := s.kicks - 1)
    else s.(kicks := s.kicks - 1, inProgress := true, writer := Wanting)
    case Take => if s.queue == [] then s.(inProgress := false, writer := Idle)
    else s.(queue := s.queue[1..], writer := Holding(s.queue[0]))
    case StartWrite => s.(writer := Idle, outstanding := s.outstanding + [s.writer.msg])
    case WriteCompletes =>
      var msg := s.outstanding[0];
      s.(outstanding := s.outstanding[1..], writer := Wanting, wire := s.wire + Frame(msg),
      resolved := s.resolved + [Written(msg)], written := s.written + [msg])
    case WriteFails(taken) =>
      var msg := s.outstanding[0];
      s.(outstanding := s.outstanding[1..], inProgress := false, broken := true, wire := s.wire + Frame(msg)[..taken],
      resolved := s.resolved + [Dropped(msg)])
    case ReadFails => s.(reading := false)
    case RunReturns => s.(phase := Stopped)
    case Close => s.(phase := Down, kicks := 0, inProgress := false)
  }

  // ------------------------------------------------------------------------------ invariants

  function Held(w: Writer): seq<Payload> { if w.Holding? then [w.msg] else [] }

  function Messages(outcomes: seq<Outcome>): seq<Payload>
  {
    if outcomes == [] then [] else Messages(outcomes[..|outcomes| - 1]) + [outcomes[|outcomes| - 1].msg]
  }

  /** At most one write is outstanding, and the flag says exactly whether the writer is at work. */
  ghost predicate OneWriter(s: State)
  {
    && |s.outstanding| + |Held(s.writer)| <= 1
    && (s.writer == Wanting ==> s.outstanding == [])
    && (s.phase == Running ==> (s.inProgress <==> s.writer != Idle || s.outstanding != []))
    && (s.phase != Running ==> s.writer == Idle && s.outstanding == [])
    && (s.phase == Up || s.phase == Down ==> !s.inProgress)
  }

  /** Before the loop runs every greeting has posted its kick; once it runs and until a write fails, a
      waiting message has a writer at work or a kick on its way. */
  ghost predicate NoLostWakeup(s: State)
  {
    && (s.phase == Up ==> s.kicks >= s.greetings && !s.broken)
    && (s.phase == Running && !s.broken && s.queue != [] ==> s.kicks > 0 || s.inProgress)
  }

  /** Every message sent is exactly one of written, dropped by the write that failed with it, in flight,
      taken by the writer or queued, in the order of sending. */
  ghost predicate Conserved(s: State)
  {
    s.sent == Messages(s.resolved) + s.outstanding + Held(s.writer) + s.queue
  }

  /** The connection has taken the frames of the messages written on it, and part of one more only once
      it is broken. */
  ghost predicate WireOk(s: State)
  {
    && Sendable(s.sent) && Sendable(s.written)
    && |Frames(s.written)| <= |s.wire| && s.wire[..|Frames(s.written)|] == Frames(s.written)
    && CutShort(s.wire[|Frames(s.written)|..])
    && (!s.broken ==> s.wire == Frames(s.written))
  }

  ghost predicate Invariant(s: State) { OneWriter(s) && NoLostWakeup(s) && Conserved(s) && WireOk(s) }

  lemma MessagesAppend(outcomes: seq<Outcome>, o: Outcome)
    ensures Messages(outcomes + [o]) == Messages(outcomes) + [o.msg]
  {
    assert (outcomes + [o])[..|outcomes|] == outcomes;
  }

  lemma OneWriterStep(s: State, e: Event)
    requires Enabled(s, e) && OneWriter(s)
    ensures OneWriter(Step(s, e))
  {
    hide Frame;
  }

  lemma WakeupStep(s: State, e: Event)
    requires Enabled(s, e) && OneWriter(s) && NoLostWakeup(s)
    ensures NoLostWakeup(Step(s, e))
  {
    hide Frame;
  }

  // The four parts of what was sent, regrouped.

  lemma Queued(a: seq<Payload>, o: seq<Payload>, h: seq<Payload>, q: seq<Payload>, msg: Payload)
    ensures a + o + h + q + [msg] == a + o + h + (q + [msg])
  {
  }

  lemma Taken(a: seq<Payload>, q: seq<Payload>)
    requires q != []
    ensures a + [] + [] + q == a + [] + [q[0]] + q[1..]
  {
  }

  lemma Started(a: seq<Payload>, q: seq<Payload>, msg: Payload)
    ensures a + [] + [msg] + q == a + ([] + [msg]) + [] + q
  {
  }

  lemma Resolved(a: seq<Payload>, q: seq<Payload>, msg: Payload)
    ensures a + [msg] + [] + q == (a + [msg]) + [] + [] + q
  {
  }

  lemma ConservedStep(s: State, e: Event)
    requires Enabled(s, e) && OneWriter(s) && Conserved(s)
    ensures Conserved(Step(s, e))
  {
    hide Frame, Messages;
    var a := Messages(s.resolved);
    match e {
      case Send(msg) => Queued(a, s.outstanding, Held(s.writer), s.queue, msg);
      case Greet(msg) => Queued(a, s.outstanding, Held(s.writer), s.queue, msg);
      case Take =>
        if s.queue != [] { Taken(a, s.queue); }
      case StartWrite =>
        assert s.outstanding == [];
        Started(a, s.queue, s.writer.msg);
      case WriteCompletes =>
        assert s.outstanding == [s.outstanding[0]];
        MessagesAppend(s.resolved, Written(s.outstanding[0]));
        Resolved(a, s.queue, s.outstanding[0]);
      case WriteFails(_) =>
        assert s.outstanding == [s.outstanding[0]];
        MessagesAppend(s.resolved, Dropped(s.outstanding[0]));
        Resolved(a, s.queue, s.outstanding[0]);
      case _ =>
    }
  }

  lemma OutstandingSendable(s: State)
    requires Conserved(s) && Sendable(s.sent) && s.outstanding != []
    ensures |s.outstanding[0]| < SPACE
  {
    hide Messages;
    assert s.outstanding[0] == s.sent[|Messages(s.resolved)|];
  }

  lemma WireStep(s: State, e: Event)
    requires Enabled(s, e) && Conserved(s) && WireOk(s)
    ensures WireOk(Step(s, e))
  {
    hide Frame, Frames, CutShort, Messages, Conserved;
    match e {
      case WriteCompletes =>
        OutstandingSendable(s);
        FramesAppend(s.written, [s.outstanding[0]]);
        FramesOne(s.outstanding[0]);
        NothingIsCut();
        var n := Step(s, e);
        assert n.wire[|Frames(n.written)|..] == [];
      case WriteFails(taken) =>
        OutstandingSendable(s);
        var part := Frame(s.outstanding[0])[..taken];
        var n := Step(s, e);
        if s.broken {
          assert part == [] && n.wire == s.wire;
        } else {
          assert n.wire[|Frames(s.written)|..] == part;
          PartIsCut(s.outstanding[0], taken);
        }
      case Open =>
        NothingIsCut();
        NoFrames();
      case _ =>
    }
  }

  lemma PartIsCut(msg: Payload, taken: nat)
    requires |msg| < SPACE && taken < |Frame(msg)|
    ensures CutShort(Frame(msg)[..taken])
  {
    hide Frame;
    var tail := Frame(msg)[..taken];
    assert tail == Frame(msg)[..|tail|];
  }

  lemma InvariantStep(s: State, e: Event)
    requires Enabled(s, e) && Invariant(s)
    ensures Invariant(Step(s, e))
  {
    hide OneWriter, NoLostWakeup, Conserved, WireOk;
    OneWriterStep(s, e);
    WakeupStep(s, e);
    ConservedStep(s, e);
    WireStep(s, e);
  }

  // -------------------------------------------------------------------------------- whole runs

  ghost predicate Possible(s: State, events: seq<Event>)
    decreases |events|
  {
    events != [] ==> Enabled(s, events[0]) && Possible(Step(s, events[0]), events[1..])
  }

  ghost function After(s: State, events: seq<Event>): State
    requires Possible(s, events)
    decreases |events|
  {
    if events == [] then s else After(Step(s, events[0]), events[1..])
  }

  lemma {:induction false} RunKeeps(s: State, events: seq<Event>)
    requires Possible(s, events) && Invariant(s)
    ensures Invariant(After(s, events))
    decreases |events|
  {
    hide Invariant, Step;
    if events != [] {
      InvariantStep(s, events[0]);
      RunKeeps(Step(s, events[0]), events[1..]);
    }
  }

  lemma Initially()
    ensures Invariant(START)
  {
    NothingIsCut();
  }

  /** In every interleaving at most one async_write is outstanding, and from the start of the loop until a
      write fails no queued message waits without a writer at work or a posted kick. */
  lemma EveryInterleaving(events: seq<Event>)
    requires Possible(START, events)
    ensures var s := After(START, events);
            && |s.outstanding| <= 1
            && (s.phase == Running && !s.broken && s.queue != [] ==>
                  s.outstanding != [] || s.writer != Idle || s.kicks > 0)
    ensures Conserved(After(START, events))
  {
    Initially();
    RunKeeps(START, events);
  }

  /** Across any disconnects and reconnects messages leave in the order they were sent, each exactly once. */
  lemma InOrderOnce(events: seq<Event>)
    requires Possible(START, events)
    ensures var s := After(START, events);
            && Messages(s.resolved) <= s.sent
            && |s.sent| == |s.resolved| + |s.outstanding| + |Held(s.writer)| + |s.queue|
  {
    Initially();
    RunKeeps(START, events);
    MessagesSize(After(START, events).resolved);
  }

  lemma {:induction false} MessagesSize(outcomes: seq<Outcome>)
    ensures |Messages(outcomes)| == |outcomes|
  {
    if outcomes != [] { MessagesSize(outcomes[..|outcomes| - 1]); }
  }

  /** The peer, decoding whatever part of a connection's bytes has reached it, finds a prefix of the
      messages written on that connection. */
  lemma PeerDecodesPrefix(events: seq<Event>, n: nat)
    requires Possible(START, events) && n <= |After(START, events).wire|
    ensures DecodeAll(After(START, events).wire[..n]) <= After(START, events).written
    ensures n == |After(START, events).wire| ==>
              DecodeAll(After(START, events).wire[..n]) == After(START, events).written
  {
    hide Frames, CutShort, Sendable, DecodeAll, OneWriter, NoLostWakeup, Conserved, Possible;
    Initially();
    RunKeeps(START, events);
    var s := After(START, events);
    var k := |Frames(s.written)|;
    assert s.wire == Frames(s.written) + s.wire[k..];
    CutDecodes(s.written, s.wire[k..], n);
  }

  /** The loop can only return with messages left behind after a write has failed. */
  lemma ReturnsEmpty(events: seq<Event>)
    requires Possible(START, events) && Enabled(After(START, events), RunReturns) && !After(START, events).broken
    ensures After(START, events).queue == []
  {
    Initially();
    RunKeeps(START, events);
  }
}
