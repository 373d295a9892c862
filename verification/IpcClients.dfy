/** The client object: the locked queues, the write flag and the handlers of the two threads
    (IpcClient.cpp). Each handler is one step of IpcTransport or IpcInbound. */
module IpcClients {
  import opened Memory
  import opened IpcFraming
  import IpcTransport
  import IpcInbound

  type Phase = IpcTransport.Phase
  type Writer = IpcTransport.Writer
  type Outcome = IpcTransport.Outcome
  type Event = IpcTransport.Event
  type Stage = IpcInbound.Stage

  /** What a connection has carried: outwards, with the messages written on it and whether a write has
      failed, and inwards, with the messages delivered. */
  datatype Link = Link(broken: bool, wire: seq<byte>, written: seq<Payload>, taken: seq<byte>, messages: seq<Payload>)

  datatype Log = Log(sent: seq<Payload>, resolved: seq<Outcome>, delivered: seq<Payload>, drained: seq<Payload>)

  const UNUSED := Link(false, [], [], [], [])

  class IpcClient {
    // shared under outbound_cs_
    var outboundQueue: seq<Payload>
    var ioCtx: Phase
    var posted: nat
    // the IPC thread only
    var writeInProgress: bool
    var writer: Writer
    var pending: seq<Payload>
    var greetings: nat
    var stage: Stage
    // shared under inbound_cs_
    var inboundQueue: seq<Payload>
    // this connection, and the history of all
    var link: Link
    ghost var log: Log

    ghost function Outbound(): IpcTransport.State
      reads this
    {
      IpcTransport.State(ioCtx, outboundQueue, posted, writeInProgress, writer, pending, greetings,
                         stage != IpcInbound.Closed,
                         link.broken, link.wire, log.sent, log.resolved, link.written)
    }

    ghost function Inbound(): IpcInbound.State
      reads this
    {
      IpcInbound.State(stage, link.taken, link.messages, inboundQueue, log.delivered, log.drained)
    }

    /** What holds between any two steps. */
    ghost predicate Valid()
      reads this
    {
      && IpcTransport.Invariant(Outbound()) && IpcInbound.Invariant(Inbound())
      && (stage != IpcInbound.Closed ==> ioCtx == IpcTransport.Running)
    }

    constructor ()
      ensures Outbound() == IpcTransport.START && Inbound() == IpcInbound.START
    {
      outboundQueue, ioCtx, posted := [], IpcTransport.Down, 0;
      writeInProgress, writer, pending, greetings, stage := false, IpcTransport.Idle, [], 0, IpcInbound.Closed;
      inboundQueue, link, log := [], UNUSED, Log([], [], [], []);
    }

    /** Either thread, under outbound_cs_. */
    method Send(msg: Payload)
      requires |msg| < SPACE
      modifies this`outboundQueue, this`posted, this`log
      ensures Outbound() == IpcTransport.Step(old(Outbound()), IpcTransport.Send(msg))
      ensures Inbound() == old(Inbound())
    {
      outboundQueue, log := outboundQueue + [msg], log.(sent := log.sent + [msg]);
      if ioCtx != IpcTransport.Down {
        posted := posted + 1;
      }
    }

    /** A posted kick. True when it goes on into DoWrite. */
    method KickWrite() returns (go: bool)
      requires IpcTransport.Enabled(Outbound(), IpcTransport.RunKick)
      modifies this`posted, this`writeInProgress, this`writer
      ensures Outbound() == IpcTransport.Step(old(Outbound()), IpcTransport.RunKick)
      ensures go == !old(writeInProgress)
      ensures Inbound() == old(Inbound())
    {
      posted := posted - 1;
      go := !writeInProgress;
      if go {
        writeInProgress := true;
        writer := IpcTransport.Wanting;
      }
    }

    /** The locked head of do_write. */
    method TakeNext()
      requires IpcTransport.Enabled(Outbound(), IpcTransport.Take)
      modifies this`outboundQueue, this`writeInProgress, this`writer
      ensures Outbound() == IpcTransport.Step(old(Outbound()), IpcTransport.Take)
      ensures Inbound() == old(Inbound())
    {
      if outboundQueue == [] {
        writeInProgress, writer := false, IpcTransport.Idle;
        return;
      }
      writer := IpcTransport.Holding(outboundQueue[0]);
      outboundQueue := outboundQueue[1..];
    }

    /** The rest of do_write: the bytes handed to async_write are the message's frame. */
    method StartWrite() returns (frame: seq<byte>)
      requires IpcTransport.Enabled(Outbound(), IpcTransport.StartWrite)
      modifies this`writer, this`pending
      ensures Outbound() == IpcTransport.Step(old(Outbound()), IpcTransport.StartWrite)
      ensures frame == Frame(old(writer).msg)
      ensures Inbound() == old(Inbound())
    {
      frame := Encode(writer.msg);
      pending, writer := pending + [writer.msg], IpcTransport.Idle;
    }

    /** Completion of the write of `frame`; with an error only the first `taken` bytes went out. */
    method OnWritten(frame: seq<byte>, failed: bool, taken: nat)
      requires IpcTransport.Enabled(Outbound(), if failed then IpcTransport.WriteFails(taken)
                                    else IpcTransport.WriteCompletes)
      requires frame == Frame(pending[0])
      modifies this`pending, this`writeInProgress, this`writer, this`link, this`log
      ensures Outbound() ==
              IpcTransport.Step(old(Outbound()), if failed then IpcTransport.WriteFails(taken)
                                else IpcTransport.WriteCompletes)
      ensures Inbound() == old(Inbound())
    {
      hide Frame;
      if failed {
        log := log.(resolved := log.resolved + [IpcTransport.Dropped(pending[0])]);
        link, writeInProgress := link.(wire := link.wire + frame[..taken], broken := true), false;
      } else {
        log := log.(resolved := log.resolved + [IpcTransport.Written(pending[0])]);
        link, writer := link.(wire := link.wire + frame, written := link.written + [pending[0]]), IpcTransport.Wanting;
      }
      pending := pending[1..];
    }

    /** The context is published and the writer flag cleared. */
    method Publish()
      requires ioCtx == IpcTransport.Down && stage == IpcInbound.Closed
      modifies this`ioCtx, this`posted, this`link, this`greetings, this`writeInProgress
      ensures Outbound() == IpcTransport.Step(old(Outbound()), IpcTransport.Open)
      ensures Inbound() == old(Inbound())
    {
      ioCtx, posted, link, greetings := IpcTransport.Up, 0, link.(broken := false, wire := [], written := []), 0;
      writeInProgress := false;
    }

    method Greet(msg: Payload)
      requires IpcTransport.Enabled(Outbound(), IpcTransport.Greet(msg))
      modifies this`outboundQueue, this`posted, this`log, this`greetings
      ensures Outbound() == IpcTransport.Step(old(Outbound()), IpcTransport.Greet(msg))
      ensures Inbound() == old(Inbound())
    {
      Send(msg);
      greetings := greetings + 1;
    }

    /** The first read is armed and the loop entered. */
    method StartRun()
      requires IpcTransport.Enabled(Outbound(), IpcTransport.RunStarts) && stage == IpcInbound.Closed
      modifies this`stage, this`link, this`ioCtx
      ensures Outbound() == IpcTransport.Step(old(Outbound()), IpcTransport.RunStarts)
      ensures Inbound() == IpcInbound.Step(old(Inbound()), IpcInbound.Connect)
    {
      stage, link := IpcInbound.Header, link.(taken := [], messages := []);
      ioCtx := IpcTransport.Running;
    }

    /** One turn of the reconnect loop up to io.run(): publish the context, connect, greet and arm the
        first read. */
    method Connect(reachable: bool, ping: Payload, hello: Payload)
      requires Valid() && ioCtx == IpcTransport.Down && |ping| < SPACE && |hello| < SPACE
      modifies this
      ensures Valid()
      ensures Inbound() == if reachable then IpcInbound.Step(old(Inbound()), IpcInbound.Connect) else old(Inbound())
      ensures Outbound() == Connected(old(Outbound()), reachable, ping, hello)
    {
      hide IpcTransport.Invariant, IpcInbound.Invariant, IpcTransport.Step, IpcTransport.After,
        IpcTransport.Possible, Frame;
      ghost var was := Outbound();
      ConnectingSteps(was, ping, hello);
      ConnectingStates(was, reachable, ping, hello);
      IpcTransport.RunKeeps(was, Connecting(reachable, ping, hello));
      IpcInbound.InvariantStep(Inbound(), IpcInbound.Connect);
      Publish();
      if reachable {
        Greet(ping);
        Greet(hello);
        StartRun();
      } else {
        ioCtx := IpcTransport.Stopped;
      }
    }

    /** The end of a turn: io.run() has returned or connecting failed. */
    method Disconnect()
      requires Valid() && ioCtx == IpcTransport.Stopped
      modifies this`ioCtx, this`posted, this`writeInProgress
      ensures Valid()
      ensures Outbound() == IpcTransport.Step(old(Outbound()), IpcTransport.Close)
      ensures Inbound() == old(Inbound())
    {
      hide IpcTransport.OneWriter, IpcTransport.NoLostWakeup, IpcTransport.Conserved, IpcTransport.WireOk,
        IpcInbound.Invariant, Frame;
      IpcTransport.InvariantStep(Outbound(), IpcTransport.Close);
      ioCtx, posted, writeInProgress := IpcTransport.Down, 0, false;
    }

    /** io.run() runs out of handlers. */
    method RunReturns()
      requires Valid() && IpcTransport.Enabled(Outbound(), IpcTransport.RunReturns)
      modifies this`ioCtx
      ensures Valid()
      ensures Outbound() == IpcTransport.Step(old(Outbound()), IpcTransport.RunReturns)
      ensures !link.broken ==> outboundQueue == []
    {
      hide IpcTransport.Conserved, IpcTransport.WireOk, IpcInbound.Invariant, Frame;
      IpcTransport.InvariantStep(Outbound(), IpcTransport.RunReturns);
      ioCtx := IpcTransport.Stopped;
    }

    /** Completion of the header read. */
    method OnHeader(failed: bool, header: seq<byte>)
      requires stage == IpcInbound.Header && IpcTransport.Enabled(Outbound(), IpcTransport.ReadFails) && |header| == 4
      modifies this`stage, this`link
      ensures Inbound() ==
              IpcInbound.Step(old(Inbound()), if failed then IpcInbound.Fails else IpcInbound.Arrives(header))
      ensures Outbound() == if failed then IpcTransport.Step(old(Outbound()), IpcTransport.ReadFails)
                            else old(Outbound())
    {
      if failed {
        stage := IpcInbound.Closed;
        return;
      }
      link := link.(taken := link.taken + header);
      stage := IpcInbound.Body(Pack32(header[0], header[1], header[2], header[3]));
    }

    /** Completion of the body read. */
    method OnBody(failed: bool, body: seq<byte>)
      requires stage.Body? && IpcTransport.Enabled(Outbound(), IpcTransport.ReadFails) && |body| == stage.len
      modifies this`stage, this`link, this`inboundQueue, this`log
      ensures Inbound() ==
              IpcInbound.Step(old(Inbound()), if failed then IpcInbound.Fails else IpcInbound.Arrives(body))
      ensures Outbound() == if failed then IpcTransport.Step(old(Outbound()), IpcTransport.ReadFails)
                            else old(Outbound())
    {
      hide Frame;
      if failed {
        stage := IpcInbound.Closed;
        return;
      }
      link := link.(taken := link.taken + body, messages := link.messages + [body]);
      inboundQueue, log := inboundQueue + [body], log.(delivered := log.delivered + [body]);
      stage := IpcInbound.Header;
    }

    /** The game thread, under inbound_cs_: swap the queue out. */
    method DrainInbound() returns (local: seq<Payload>)
      requires Valid()
      modifies this`inboundQueue, this`log
      ensures Valid() && Inbound() == IpcInbound.Step(old(Inbound()), IpcInbound.Drain)
      ensures local == old(inboundQueue) && old(log.drained) + local == log.delivered
      ensures Outbound() == old(Outbound())
    {
      IpcInbound.InvariantStep(Inbound(), IpcInbound.Drain);
      local, inboundQueue := inboundQueue, [];
      log := log.(drained := log.drained + local);
    }

    /** A schedule of the writer's handlers and of sends by either thread, as the loop runs them: one
        write outstanding at most and no wakeup lost, at the end of any schedule that can happen. */
    method Run(schedule: seq<Event>)
      requires Valid() && IpcTransport.Possible(Outbound(), schedule)
      requires forall i :: 0 <= i < |schedule| ==> OfWriter(schedule[i])
      modifies this
      ensures Valid() && Outbound() == IpcTransport.After(old(Outbound()), schedule)
      ensures |pending| <= 1 && Inbound() == old(Inbound())
      ensures ioCtx == IpcTransport.Running && !link.broken && outboundQueue != [] ==> posted > 0 || writeInProgress
    {
      hide IpcTransport.Invariant, IpcInbound.Invariant, IpcTransport.Step, IpcTransport.Enabled, Frame;
      ghost var start := Outbound();
      var i := 0;
      while i < |schedule|
        invariant 0 <= i <= |schedule|
        invariant Valid() && Inbound() == old(Inbound())
        invariant IpcTransport.Possible(Outbound(), schedule[i..])
        invariant IpcTransport.After(Outbound(), schedule[i..]) == IpcTransport.After(start, schedule)
      {
        ghost var s := Outbound();
        assert schedule[i..][0] == schedule[i] && schedule[i..][1..] == schedule[i + 1..];
        IpcTransport.InvariantStep(s, schedule[i]);
        Perform(schedule[i]);
        i := i + 1;
      }
      OneWriteOnly();
    }

    method Perform(e: Event)
      requires OfWriter(e) && IpcTransport.Enabled(Outbound(), e)
      modifies this
      ensures Outbound() == IpcTransport.Step(old(Outbound()), e) && Inbound() == old(Inbound())
      ensures ioCtx == old(ioCtx)
    {
      match e {
        case Send(msg) => Send(msg);
        case RunKick => var _ := KickWrite();
        case Take => TakeNext();
        case StartWrite => var _ := StartWrite();
        case WriteCompletes =>
          var frame := Encode(pending[0]);
          OnWritten(frame, false, 0);
        case WriteFails(taken) =>
          var frame := Encode(pending[0]);
          OnWritten(frame, true, taken);
      }
    }

    lemma OneWriteOnly()
      requires Valid()
      ensures |pending| <= 1
      ensures ioCtx == IpcTransport.Running && !link.broken && outboundQueue != [] ==> posted > 0 || writeInProgress
    {
    }
  }

  predicate OfWriter(e: Event) { e.Send? || e.RunKick? || e.Take? || e.StartWrite? || e.WriteCompletes?
                                 || e.WriteFails? }

  ghost function Connecting(reachable: bool, ping: Payload, hello: Payload): seq<Event>
  {
    if reachable then [IpcTransport.Open, IpcTransport.Greet(ping), IpcTransport.Greet(hello), IpcTransport.RunStarts]
    else [IpcTransport.Open, IpcTransport.ConnectFails]
  }

  /** The state a connection attempt leads to: with a connection, both greetings are queued behind what
      was, and a kick is posted for each. */
  ghost function Connected(s: IpcTransport.State, reachable: bool, ping: Payload, hello: Payload): IpcTransport.State
  {
    var linked := s.(kicks := 0, inProgress := false, greetings := 0, reading := false, broken := false,
                  wire := [], written := []);
    if reachable then
      linked.(phase := IpcTransport.Running, reading := true, greetings := 2, kicks := 2,
      queue := s.queue + [ping] + [hello], sent := s.sent + [ping] + [hello])
    else linked.(phase := IpcTransport.Stopped)
  }

  /** That is where its steps lead. */
  lemma ConnectingStates(s: IpcTransport.State, reachable: bool, ping: Payload, hello: Payload)
    requires s.phase == IpcTransport.Down && |ping| < SPACE && |hello| < SPACE
    ensures var events := Connecting(reachable, ping, hello);
            IpcTransport.Possible(s, events) && IpcTransport.After(s, events) == Connected(s, reachable, ping, hello)
  {
    var events := Connecting(reachable, ping, hello);
    var s1 := IpcTransport.Step(s, IpcTransport.Open);
    if reachable {
      var s2 := IpcTransport.Step(s1, IpcTransport.Greet(ping));
      var s3 := IpcTransport.Step(s2, IpcTransport.Greet(hello));
      var s4 := IpcTransport.Step(s3, IpcTransport.RunStarts);
      Unfold(s4, []);
      Unfold(s3, events[3..]);
      Unfold(s2, events[2..]);
      Unfold(s1, events[1..]);
      Unfold(s, events);
    } else {
      var s2 := IpcTransport.Step(s1, IpcTransport.ConnectFails);
      Unfold(s2, []);
      Unfold(s1, events[1..]);
      Unfold(s, events);
    }
  }

  lemma ConnectingSteps(s: IpcTransport.State, ping: Payload, hello: Payload)
    requires s.phase == IpcTransport.Down && |ping| < SPACE && |hello| < SPACE
    ensures var s1 := IpcTransport.Step(s, IpcTransport.Open);
            && IpcTransport.Enabled(s1, IpcTransport.Greet(ping))
            && s1.(phase := IpcTransport.Stopped) == Connected(s, false, ping, hello)
            && var s2 := IpcTransport.Step(s1, IpcTransport.Greet(ping));
            && IpcTransport.Enabled(s2, IpcTransport.Greet(hello))
            && var s3 := IpcTransport.Step(s2, IpcTransport.Greet(hello));
            && IpcTransport.Enabled(s3, IpcTransport.RunStarts)
            && IpcTransport.Step(s3, IpcTransport.RunStarts) == Connected(s, true, ping, hello)
  {
  }

  lemma Unfold(s: IpcTransport.State, events: seq<Event>)
    ensures events == [] ==> IpcTransport.Possible(s, events) && IpcTransport.After(s, events) == s
    ensures events != [] && IpcTransport.Enabled(s, events[0])
            && IpcTransport.Possible(IpcTransport.Step(s, events[0]), events[1..]) ==>
              IpcTransport.Possible(s, events)
              && IpcTransport.After(s, events) == IpcTransport.After(IpcTransport.Step(s, events[0]), events[1..])
  {
  }
}
