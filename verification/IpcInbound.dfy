/** The inbound half of the IPC client: the chained reads of a header and a body, the locked queue and
    the swap-drain, and what they deliver of the bytes the server sent. */
module IpcInbound {
  import opened Memory
  import opened Division
  import opened IpcFraming

  /** What the reader waits for: the four bytes of a header, a body of the length announced, or nothing
      after an error. */
  datatype Stage = Header | Body(len: nat) | Closed

  datatype State = State(
    stage: Stage,
    taken: seq<byte>,        // bytes taken from this connection
    messages: seq<Payload>,  // messages delivered on this connection
    queue: seq<Payload>,     // inbound_queue_
    delivered: seq<Payload>, // every message ever delivered
    drained: seq<Payload>)   // every message handed to the game thread

  const START := State(Closed, [], [], [], [], [])

  /** A connection, the completion of the pending read with exactly the bytes asked for, its failure, and
      a drain by the game thread. */
  datatype Event = Connect | Arrives(bytes: seq<byte>) | Fails | Drain

  function Asked(stage: Stage): nat { match stage case Header => 4 case Body(len) => len case Closed => 0 }

  predicate Enabled(s: State, e: Event)
  {
    match e
    case Connect => s.stage == Closed
    case Arrives(bytes) => s.stage != Closed && |bytes| == Asked(s.stage)
    case Fails => s.stage != Closed
    case Drain => true
  }

  function Step(s: State, e: Event): State
    requires Enabled(s, e)
  {
    match e
    case Connect => s.(stage := Header, taken := [], messages := [])
    case Arrives(bytes) =>
      if s.stage == Header then s.(stage := Body(Read32(bytes, 0)), taken := s.taken + bytes)
      else s.(stage := Header, taken := s.taken + bytes, messages := s.messages + [bytes],
           queue := s.queue + [bytes], delivered := s.delivered + [bytes])
    case Fails => s.(stage := Closed)
    case Drain => s.(queue := [], drained := s.drained + s.queue)
  }

  /** The bytes taken are the frames of the messages delivered, then at most one header. */
  ghost predicate FrameWise(s: State)
  {
    && Sendable(s.messages)
    && match s.stage
       case Header => s.taken == Frames(s.messages)
       case Body(len) => len < SPACE && s.taken == Frames(s.messages) + Bytes32(len)
       case Closed => s.taken == Frames(s.messages) || exists len: nat ::
                        len < SPACE && s.taken == Frames(s.messages) + Bytes32(len)
  }

  /** No message is lost or repeated between the reader and the game thread. */
  ghost predicate Handed(s: State) { s.delivered == s.drained + s.queue }

  ghost predicate Invariant(s: State) { FrameWise(s) && Handed(s) }

  lemma HeaderBytes(bytes: seq<byte>)
    requires |bytes| == 4
    ensures bytes == Bytes32(Read32(bytes, 0))
  {
    var x: int := Read32(bytes, 0);
    var b0: int, b1: int, b2: int, b3: int := bytes[0], bytes[1], bytes[2], bytes[3];
    Euclid(x, 0x100, b1 + 0x100 * (b2 + 0x100 * b3), b0);
    Euclid(x / 0x100, 0x100, b2 + 0x100 * b3, b1);
    Euclid(x / 0x100 / 0x100, 0x100, b3, b2);
  }

  lemma InvariantStep(s: State, e: Event)
    requires Enabled(s, e) && Invariant(s)
    ensures Invariant(Step(s, e))
  {
    hide Frames, Frame, Read32, Bytes32;
    if e.Arrives? {
      if s.stage == Header {
        HeaderBytes(e.bytes);
      } else {
        FrameOf(e.bytes);
        FramesAppend(s.messages, [e.bytes]);
        FramesOne(e.bytes);
        var n := Step(s, e);
        assert n.taken == Frames(s.messages) + Frame(e.bytes);
      }
    }
    if e.Connect? { NoFrames(); }
  }

  lemma FrameOf(payload: Payload)
    ensures Frame(payload) == Bytes32(|payload|) + payload
  {
  }

  ghost predicate Possible(s: State, events: seq<Event>)
    decreases |events|
  {
    events != [] ==> Enabled(s, events[0]) && Possible(Step(s, events[0]), events[1..])
  }

  ghost function After(s: State, events: seq<Event>): State
    requires Possible(s, events)
    decreases |events|
  {
    if events == [] then s else After(Step(s, events[0]), events[1..])
  }

  lemma {:induction false} RunKeeps(s: State, events: seq<Event>)
    requires Possible(s, events) && Invariant(s)
    ensures Invariant(After(s, events))
    decreases |events|
  {
    hide Invariant, Step;
    if events != [] {
      InvariantStep(s, events[0]);
      RunKeeps(Step(s, events[0]), events[1..]);
    }
  }

  /** When the server sends the frames of `served`, of which all or part arrives, the messages delivered
      are the first of `served`, in order and whole; each drained exactly once, as the queue only ever
      holds those not drained yet. */
  lemma DeliversPrefix(events: seq<Event>, served: seq<Payload>)
    requires Possible(START, events) && Sendable(served)
    requires After(START, events).taken <= Frames(served)
    ensures After(START, events).messages <= served
    ensures var s := After(START, events); s.stage == Header && s.taken == Frames(served) ==> s.messages == served
    ensures var s := After(START, events); s.drained <= s.delivered && s.delivered == s.drained + s.queue
  {
    hide Frames, Frame, Sendable, DecodeAll, CutShort, Bytes32;
    Initially();
    RunKeeps(START, events);
    var s := After(START, events);
    FramesLead(s.messages, served, s.taken);
    if s.stage == Header && s.taken == Frames(served) { FramesLead(served, s.messages, s.taken); }
  }

  lemma Initially()
    ensures Invariant(START)
  {
  }

  /** Streams of frames, one of which begins with the other, come from lists one of which begins with the
      other. */
  lemma {:induction false} FramesLead(a: seq<Payload>, b: seq<Payload>, taken: seq<byte>)
    requires Sendable(a) && Sendable(b)
    requires Frames(a) <= taken <= Frames(b)
    ensures a <= b
    decreases |a|
  {
    hide Frame, Sendable, Unframe, Frames;
    if a != [] {
      SendableTail(a);
      FramesFirst(a);
      FrameSize(a[0]);
      if b == [] { NoFrames(); }
      FramesFirst(b);
      SendableTail(b);
      RoundTrip(a[0], Frames(b)[|Frame(a[0])|..]);
      RoundTrip(b[0], Frames(b[1..]));
      assert Frames(b)[..|Frame(a[0])|] == Frame(a[0]);
      assert Frames(b) == Frame(a[0]) + Frames(b)[|Frame(a[0])|..];
      assert a[0] == b[0];
      FramesLead(a[1..], b[1..], taken[|Frame(a[0])|..]);
      assert a == [a[0]] + a[1..] && b == [b[0]] + b[1..];
    }
  }

  lemma FramesFirst(a: seq<Payload>)
    requires a != []
    ensures Frames(a) == Frame(a[0]) + Frames(a[1..])
  {
  }
}
