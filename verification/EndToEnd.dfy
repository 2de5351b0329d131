/** The real loops in chains: TCP forwarding, a terminal session through the ControlMaster, and SFTP.
    Each loop has its own schedule. The only assumption is that of a FIFO stream: the frames that a loop
    has received are, so far, the first of those that its neighbour sent. */
module EndToEnd {
  import opened Wrappers
  import opened Messages
  import opened Relay
  import opened Pumps
  import Session
  import Subsystem

  // ---------------------------------------------------------------------------
  // Loops as nodes of a chain
  // ---------------------------------------------------------------------------

  /** What one loop took and put in one direction, as its contract tells. */
  datatype Loop = Loop(outcome: Outcome, taken: Bytes, put: Bytes)

  ghost predicate Sound(l: Loop) {
    Carried(l.outcome, l.taken, l.put)
  }

  /** Each loop took only what its predecessor put, in order. */
  ghost predicate InSequence(loops: seq<Loop>) {
    && loops != []
    && (forall i :: 0 <= i < |loops| ==> Sound(loops[i]))
    && (forall i :: 0 < i < |loops| ==> loops[i].taken <= loops[i - 1].put)
  }

  ghost function NodeOf(l: Loop): Node {
    Node(l.outcome.Running?, None, l.taken, l.put)
  }

  ghost function LinkOf(from: Loop, to: Loop): Link
    requires to.taken <= from.put
  {
    Stream(from.put[|to.taken|..])
  }

  /** The loops, joined by what is still on its way between them. */
  ghost function ChainOf(loops: seq<Loop>): (c: Chain)
    requires InSequence(loops)
    ensures |c.nodes| == |loops| && |c.links| == |loops| - 1
    ensures forall i :: 0 <= i < |loops| ==> c.nodes[i] == NodeOf(loops[i])
    ensures forall i :: 0 <= i < |c.links| ==> c.links[i] == LinkOf(loops[i], loops[i + 1])
  {
    Chain(seq(|loops|, i requires 0 <= i < |loops| => NodeOf(loops[i])),
          seq(|loops| - 1, i requires 0 <= i < |loops| - 1 => LinkOf(loops[i], loops[i + 1])))
  }

  /** Loops that meet their contracts meet the invariant of the chain. */
  lemma LoopsAreChain(loops: seq<Loop>)
    requires InSequence(loops)
    ensures Relay.Inv(ChainOf(loops))
  {
    var c := ChainOf(loops);
    forall i | 0 <= i < |c.nodes| ensures NodeOk(c.nodes[i]) {
      assert Sound(loops[i]);
      assert loops[i].put + [] == loops[i].put;
    }
    forall i | 0 <= i < |c.links| ensures Joined(c.nodes[i], c.links[i], c.nodes[i + 1]) {
      assert loops[i + 1].taken <= loops[i].put;
    }
  }

  /** So what comes out at the far end is a prefix of what went in at the near one. */
  lemma FarEndIsPrefix(loops: seq<Loop>)
    requires InSequence(loops)
    ensures loops[|loops| - 1].put <= loops[0].taken
  {
    LoopsAreChain(loops);
    PutIsPrefix(ChainOf(loops), |loops| - 1);
  }

  ghost predicate AllArrived(loops: seq<Loop>) {
    && (forall i :: 0 <= i < |loops| ==> Lossless(loops[i].outcome))
    && (forall i :: 0 < i < |loops| ==> loops[i].taken == loops[i - 1].put)
  }

  /** And all of it when no loop failed and nothing is on its way. */
  lemma {:induction false} FarEndIsWhole(loops: seq<Loop>)
    requires InSequence(loops) && AllArrived(loops)
    ensures loops[|loops| - 1].put == loops[0].taken
    decreases |loops|
  {
    assert Sound(loops[|loops| - 1]);
    if |loops| > 1 {
      FarEndIsWhole(loops[..|loops| - 1]);
    }
  }

  lemma TwoLoops(a: Loop, b: Loop)
    requires Sound(a) && Sound(b) && b.taken <= a.put
    ensures b.put <= a.taken
    ensures Lossless(a.outcome) && Lossless(b.outcome) && b.taken == a.put ==> b.put == a.taken
  {
    var loops := [a, b];
    FarEndIsPrefix(loops);
    if AllArrived(loops) {
      FarEndIsWhole(loops);
    }
  }

  lemma ThreeLoops(a: Loop, b: Loop, c: Loop)
    requires Sound(a) && Sound(b) && Sound(c) && b.taken <= a.put && c.taken <= b.put
    ensures c.put <= a.taken
    ensures Lossless(a.outcome) && Lossless(b.outcome) && Lossless(c.outcome) && b.taken == a.put && c.taken == b.put ==>
              c.put == a.taken
  {
    var loops := [a, b, c];
    FarEndIsPrefix(loops);
    if AllArrived(loops) {
      FarEndIsWhole(loops);
    }
  }

  // ---------------------------------------------------------------------------
  // From frames to bytes
  // ---------------------------------------------------------------------------

  lemma {:induction false} CollectPrefix<T, U>(pick: T -> seq<U>, xs: seq<T>, ys: seq<T>)
    requires xs <= ys
    ensures Collect(pick, xs) <= Collect(pick, ys)
    decreases |ys|
  {
    if |xs| == |ys| {
      assert xs == ys;
    } else {
      var init := ys[..|ys| - 1];
      assert xs <= init;
      CollectPrefix(pick, xs, init);
      assert Collect(pick, ys) == Collect(pick, init) + pick(ys[|ys| - 1]);
    }
  }

  /** Picking bytes from events is picking them from the frames of the events. */
  lemma {:induction false} Through<E, M, U>(bytesOf: E -> seq<U>, frameOf: E -> seq<M>, pick: M -> seq<U>, events: seq<E>)
    requires forall i :: 0 <= i < |events| ==>
               |frameOf(events[i])| <= 1 && bytesOf(events[i]) == Collect(pick, frameOf(events[i]))
    ensures Collect(bytesOf, events) == Collect(pick, Collect(frameOf, events))
    decreases |events|
  {
    if events != [] {
      var init, last := events[..|events| - 1], events[|events| - 1];
      Through(bytesOf, frameOf, pick, init);
      CollectMore(pick, Collect(frameOf, init), frameOf(last));
    }
  }

  function Frame<M>(m: Option<M>): seq<M> {
    match m case Some(frame) => [frame] case None => []
  }

  lemma OneFrame<M, U>(pick: M -> seq<U>, m: Option<M>)
    ensures Collect(pick, Frame(m)) == match m case Some(frame) => pick(frame) case None => []
  {
    if m.Some? {
      assert Frame(m)[..0] == [];
    }
  }

  // ---------------------------------------------------------------------------
  // TCP forwarding: pump to pump
  // ---------------------------------------------------------------------------

  function PumpFrames(e: PumpEvent): seq<ChannelMessage> {
    if e.FromChannel? then Frame(e.msg) else []
  }

  lemma PumpReceives(events: seq<PumpEvent>)
    ensures Collect(ChannelIn, events) == Collect(DataIn, Collect(PumpFrames, events))
  {
    forall i | 0 <= i < |events|
      ensures |PumpFrames(events[i])| <= 1 && ChannelIn(events[i]) == Collect(DataIn, PumpFrames(events[i]))
    {
      if events[i].FromChannel? {
        OneFrame(DataIn, events[i].msg);
      }
    }
    Through(ChannelIn, PumpFrames, DataIn, events);
  }

  /** One direction between two pumps. */
  lemma PumpHop(a: Outcome, near: seq<PumpEvent>, sent: seq<ChannelMessage>, b: Outcome, far: seq<PumpEvent>, written: Bytes)
    requires Carried(a, Collect(TcpIn, near), Collect(DataIn, sent))
    requires Carried(b, Collect(ChannelIn, far), written)
    requires Collect(PumpFrames, far) <= sent
    ensures written <= Collect(TcpIn, near)
    ensures Lossless(a) && Lossless(b) && Collect(PumpFrames, far) == sent ==> written == Collect(TcpIn, near)
  {
    PumpReceives(far);
    CollectPrefix(DataIn, Collect(PumpFrames, far), sent);
    TwoLoops(Loop(a, Collect(TcpIn, near), Collect(DataIn, sent)), Loop(b, Collect(ChannelIn, far), written));
  }

  /** Two pumps, client and server, over any pair of schedules. */
  method PumpToPump(near: seq<PumpEvent>, far: seq<PumpEvent>)
    returns (a: Outcome, n: nat, nearSent: seq<ChannelMessage>, nearWritten: Bytes,
             b: Outcome, m: nat, farSent: seq<ChannelMessage>, farWritten: Bytes)
    requires forall e <- near :: e.FromTcp? ==> ReadFits(e.read, 8192)
    requires forall e <- far :: e.FromTcp? ==> ReadFits(e.read, 8192)
    ensures n <= |near| && m <= |far|
    ensures Collect(PumpFrames, far[..m]) <= nearSent ==> farWritten <= Collect(TcpIn, near[..n])
    ensures Collect(PumpFrames, near[..n]) <= farSent ==> nearWritten <= Collect(TcpIn, far[..m])
    ensures Lossless(a) && Lossless(b) && Collect(PumpFrames, far[..m]) == nearSent ==>
              farWritten == Collect(TcpIn, near[..n])
    ensures Lossless(a) && Lossless(b) && Collect(PumpFrames, near[..n]) == farSent ==>
              nearWritten == Collect(TcpIn, far[..m])
  {
    a, n, nearSent, nearWritten := Pump(near);
    b, m, farSent, farWritten := Pump(far);
    if Collect(PumpFrames, far[..m]) <= nearSent {
      PumpHop(a, near[..n], nearSent, b, far[..m], farWritten);
    }
    if Collect(PumpFrames, near[..n]) <= farSent {
      PumpHop(b, far[..m], farSent, a, near[..n], nearWritten);
    }
  }

  // ---------------------------------------------------------------------------
  // A terminal session: slave, master, server
  // ---------------------------------------------------------------------------

  /** The frames that each loop received, by direction. */
  function MasterFrames(a: SlaveArm): seq<MasterMessage> {
    if a.MasterArm? then Frame(a.msg) else []
  }

  function ClientFrames(e: SessionEvent): seq<ClientMessage> {
    if e.FromClient? then Frame(e.request) else []
  }

  function ServerFrames(e: SessionEvent): seq<ChannelMessage> {
    if e.FromServer? then Frame(e.reply) else []
  }

  function PtyFrames(a: Session.PtyArm): seq<ChannelMessage> {
    if a.FromClient? then Frame(a.msg) else []
  }

  lemma SlaveReceives(arms: seq<SlaveArm>)
    ensures Collect(ArmStdout, arms) == Collect(StdoutIn, Collect(MasterFrames, arms))
  {
    forall i | 0 <= i < |arms|
      ensures |MasterFrames(arms[i])| <= 1 && ArmStdout(arms[i]) == Collect(StdoutIn, MasterFrames(arms[i]))
    {
      if arms[i].MasterArm? {
        OneFrame(StdoutIn, arms[i].msg);
      }
    }
    Through(ArmStdout, MasterFrames, StdoutIn, arms);
  }

  lemma RelayReceivesInput(events: seq<SessionEvent>)
    ensures Collect(ClientStdin, events) == Collect(StdinIn, Collect(ClientFrames, events))
  {
    forall i | 0 <= i < |events|
      ensures |ClientFrames(events[i])| <= 1 && ClientStdin(events[i]) == Collect(StdinIn, ClientFrames(events[i]))
    {
      if events[i].FromClient? {
        OneFrame(StdinIn, events[i].request);
      }
    }
    Through(ClientStdin, ClientFrames, StdinIn, events);
  }

  lemma RelayReceivesOutput(events: seq<SessionEvent>)
    ensures Collect(ServerData, events) == Collect(DataIn, Collect(ServerFrames, events))
  {
    forall i | 0 <= i < |events|
      ensures |ServerFrames(events[i])| <= 1 && ServerData(events[i]) == Collect(DataIn, ServerFrames(events[i]))
    {
      if events[i].FromServer? {
        OneFrame(DataIn, events[i].reply);
      }
    }
    Through(ServerData, ServerFrames, DataIn, events);
  }

  lemma ServerReceives(arms: seq<Session.PtyArm>)
    ensures Collect(Session.KeysIn, arms) == Collect(DataIn, Collect(PtyFrames, arms))
  {
    forall i | 0 <= i < |arms|
      ensures |PtyFrames(arms[i])| <= 1 && Session.KeysIn(arms[i]) == Collect(DataIn, PtyFrames(arms[i]))
    {
      if arms[i].FromClient? {
        OneFrame(DataIn, arms[i].msg);
      }
    }
    Through(Session.KeysIn, PtyFrames, DataIn, arms);
  }

  /** How each party's loop ended, what it received and what it sent or wrote. */
  datatype SlaveSide = SlaveSide(outcome: Outcome, inputs: seq<Read>, arms: seq<SlaveArm>, sent: seq<ClientMessage>, stdout: Bytes)

  datatype MasterSide = MasterSide(outcome: Outcome, events: seq<SessionEvent>, toClient: seq<MasterMessage>,
                                   toServer: seq<ChannelMessage>)

  datatype ServerSide = ServerSide(end: Session.PtyEnd, lost: bool, arms: seq<Session.PtyArm>, sent: seq<ChannelMessage>,
                                   keys: Bytes)

  /** What each loop's own contract says. */
  ghost predicate SlaveMet(c: SlaveSide) {
    Carried(c.outcome, Collect(ReadIn, c.inputs), Collect(StdinIn, c.sent))
    && Carried(c.outcome, Collect(ArmStdout, c.arms), c.stdout)
  }

  ghost predicate MasterMet(m: MasterSide) {
    SessionCarried(m.outcome, m.events, m.toClient, m.toServer)
  }

  ghost predicate ServerMet(s: ServerSide) {
    && Carried(if s.lost then SendFailed else Ended, Collect(Session.PtyIn, s.arms), Collect(DataIn, s.sent))
    && Carried(if Session.Stuck(s.end) then WriteFailed else Ended, Collect(Session.KeysIn, s.arms), s.keys)
  }

  /** FIFO delivery, upwards to the server and downwards to the terminal. */
  predicate DeliveredUp(c: SlaveSide, m: MasterSide, s: ServerSide) {
    Collect(ClientFrames, m.events) <= c.sent && Collect(PtyFrames, s.arms) <= m.toServer
  }

  predicate DeliveredDown(c: SlaveSide, m: MasterSide, s: ServerSide) {
    Collect(ServerFrames, m.events) <= s.sent && Collect(MasterFrames, c.arms) <= m.toClient
  }

  /** No loop failed and nothing is on its way. */
  ghost predicate ArrivedUp(c: SlaveSide, m: MasterSide, s: ServerSide) {
    && Lossless(c.outcome) && Lossless(m.outcome) && !Session.Stuck(s.end)
    && Collect(ClientFrames, m.events) == c.sent && Collect(PtyFrames, s.arms) == m.toServer
  }

  ghost predicate ArrivedDown(c: SlaveSide, m: MasterSide, s: ServerSide) {
    && !s.lost && Lossless(m.outcome) && Lossless(c.outcome)
    && Collect(ServerFrames, m.events) == s.sent && Collect(MasterFrames, c.arms) == m.toClient
  }

  lemma KeysArriveInOrder(c: SlaveSide, m: MasterSide, s: ServerSide)
    requires SlaveMet(c) && MasterMet(m) && ServerMet(s) && DeliveredUp(c, m, s)
    ensures s.keys <= Collect(ReadIn, c.inputs)
    ensures ArrivedUp(c, m, s) ==> s.keys == Collect(ReadIn, c.inputs)
  {
    RelayReceivesInput(m.events);
    ServerReceives(s.arms);
    CollectPrefix(StdinIn, Collect(ClientFrames, m.events), c.sent);
    CollectPrefix(DataIn, Collect(PtyFrames, s.arms), m.toServer);
    ThreeLoops(Loop(c.outcome, Collect(ReadIn, c.inputs), Collect(StdinIn, c.sent)),
               Loop(m.outcome, Collect(ClientStdin, m.events), Collect(DataIn, m.toServer)),
               Loop(if Session.Stuck(s.end) then WriteFailed else Ended, Collect(Session.KeysIn, s.arms), s.keys));
  }

  lemma OutputArrivesInOrder(c: SlaveSide, m: MasterSide, s: ServerSide)
    requires SlaveMet(c) && MasterMet(m) && ServerMet(s) && DeliveredDown(c, m, s)
    ensures c.stdout <= Collect(Session.PtyIn, s.arms)
    ensures ArrivedDown(c, m, s) ==> c.stdout == Collect(Session.PtyIn, s.arms)
  {
    RelayReceivesOutput(m.events);
    SlaveReceives(c.arms);
    CollectPrefix(DataIn, Collect(ServerFrames, m.events), s.sent);
    CollectPrefix(StdoutIn, Collect(MasterFrames, c.arms), m.toClient);
    ThreeLoops(Loop(if s.lost then SendFailed else Ended, Collect(Session.PtyIn, s.arms), Collect(DataIn, s.sent)),
               Loop(m.outcome, Collect(ServerData, m.events), Collect(StdoutIn, m.toClient)),
               Loop(c.outcome, Collect(ArmStdout, c.arms), c.stdout));
  }

  method RunSlave(inputs: seq<Read>, arms: seq<SlaveArm>) returns (c: SlaveSide)
    ensures SlaveMet(c) && c.inputs <= inputs && c.arms <= arms
  {
    var outcome, taken, n, toMaster, stdout, stderr := SlaveIo(inputs, arms);
    c := SlaveSide(outcome, inputs[..taken], arms[..n], toMaster, stdout);
  }

  method RunMaster(events: seq<SessionEvent>, closeOk: bool) returns (m: MasterSide)
    ensures MasterMet(m) && m.events <= events
  {
    var outcome, k, toClient, toServer := RelaySession(events, closeOk);
    m := MasterSide(outcome, events[..k], toClient, toServer);
  }

  method RunServer(arms: seq<Session.PtyArm>, reap: Session.Reap, sends: (bool, bool, bool)) returns (s: ServerSide)
    ensures ServerMet(s) && s.arms <= arms
  {
    var end, j, lost, sent, keys := Session.RunChild(arms, reap, sends);
    s := ServerSide(end, lost, arms[..j], sent, keys);
  }

  /** The three loops over any schedules: keystrokes reach the server's terminal, and its output reaches
      the user's, in order and without a gap, and all of it once everything has arrived. */
  method TerminalSession(inputs: seq<Read>, slaveArms: seq<SlaveArm>, events: seq<SessionEvent>, closeOk: bool,
                         ptyArms: seq<Session.PtyArm>, reap: Session.Reap, sends: (bool, bool, bool))
    returns (c: SlaveSide, m: MasterSide, s: ServerSide)
    ensures c.inputs <= inputs && c.arms <= slaveArms && m.events <= events && s.arms <= ptyArms
    ensures DeliveredUp(c, m, s) ==> s.keys <= Collect(ReadIn, c.inputs)
    ensures DeliveredDown(c, m, s) ==> c.stdout <= Collect(Session.PtyIn, s.arms)
    ensures ArrivedUp(c, m, s) ==> s.keys == Collect(ReadIn, c.inputs)
    ensures ArrivedDown(c, m, s) ==> c.stdout == Collect(Session.PtyIn, s.arms)
  {
    c := RunSlave(inputs, slaveArms);
    m := RunMaster(events, closeOk);
    s := RunServer(ptyArms, reap, sends);
    if DeliveredUp(c, m, s) {
      KeysArriveInOrder(c, m, s);
    }
    if DeliveredDown(c, m, s) {
      OutputArrivesInOrder(c, m, s);
    }
  }

  // ---------------------------------------------------------------------------
  // SFTP: bridge, subsystem, bridge
  // ---------------------------------------------------------------------------

  function SubsystemFrames(a: Subsystem.Arm): seq<ChannelMessage> {
    if a.ClientSent? then Frame(a.msg) else []
  }

  function BridgeFrames(e: BridgeFrame): seq<ChannelMessage> {
    Frame(e.msg)
  }

  lemma SubsystemReceives(arms: seq<Subsystem.Arm>)
    ensures Collect(Subsystem.ClientData, arms) == Collect(DataIn, Collect(SubsystemFrames, arms))
  {
    forall i | 0 <= i < |arms|
      ensures |SubsystemFrames(arms[i])| <= 1
      ensures Subsystem.ClientData(arms[i]) == Collect(DataIn, SubsystemFrames(arms[i]))
    {
      if arms[i].ClientSent? {
        OneFrame(DataIn, arms[i].msg);
      }
    }
    Through(Subsystem.ClientData, SubsystemFrames, DataIn, arms);
  }

  lemma BridgeReceives(events: seq<BridgeFrame>)
    ensures Collect(FrameIn, events) == Collect(DataIn, Collect(BridgeFrames, events))
  {
    forall i | 0 <= i < |events|
      ensures |BridgeFrames(events[i])| <= 1 && FrameIn(events[i]) == Collect(DataIn, BridgeFrames(events[i]))
    {
      OneFrame(DataIn, events[i].msg);
    }
    Through(FrameIn, BridgeFrames, DataIn, events);
  }

  lemma WrittenPrefix(data: Bytes, w: Pumps.Write)
    ensures Written(data, w) <= data
  {
  }

  /** What the child's input receives is the start of what the client sent. */
  lemma DeliveredIsPrefix(arms: seq<Subsystem.Arm>)
    ensures Subsystem.Delivered(arms) <= Collect(Subsystem.ClientData, arms)
  {
    var k := Subsystem.FirstClose(arms);
    if k < |arms| {
      CollectNext(Subsystem.ClientData, arms, k);
      CollectPrefix(Subsystem.ClientData, arms[..k + 1], arms);
      WrittenPrefix(Subsystem.ClientData(arms[k]), arms[k].write);
    } else {
      assert arms[..k] == arms;
    }
  }

  lemma RequestsArriveInOrder(o: Outcome, requests: seq<BridgeRead>, sent: seq<ChannelMessage>, arms: seq<Subsystem.Arm>)
    requires Carried(o, Collect(BridgeIn, requests), Collect(DataIn, sent)) && Collect(SubsystemFrames, arms) <= sent
    ensures Subsystem.Delivered(arms) <= Collect(BridgeIn, requests)
  {
    SubsystemReceives(arms);
    DeliveredIsPrefix(arms);
    CollectPrefix(DataIn, Collect(SubsystemFrames, arms), sent);
    TwoLoops(Loop(o, Collect(BridgeIn, requests), Collect(DataIn, sent)),
             Loop(WriteFailed, Collect(Subsystem.ClientData, arms), Subsystem.Delivered(arms)));
  }

  lemma EofPastBody(sent: seq<ChannelMessage>, body: nat, received: seq<ChannelMessage>)
    requires body <= |sent| && (forall m <- sent[..body] :: Subsystem.IsOutput(m))
    requires received <= sent && Eof in received
    ensures sent[..body] <= received
  {
    var i :| 0 <= i < |received| && received[i] == Eof;
    forall j | 0 <= j < body ensures sent[j] != Eof {
      assert sent[..body][j] in sent[..body];
    }
    assert sent[i] == Eof;
  }

  /** The Eof comes after all output, so whoever has seen it has seen all of that. */
  lemma EofAfterOutput(sent: seq<ChannelMessage>, body: nat, status: U32, sends: (bool, bool, bool),
                       received: seq<ChannelMessage>)
    requires body <= |sent| && (forall m <- sent[..body] :: Subsystem.IsOutput(m))
    requires sent[body..] == Subsystem.Closing(status, sends) && received <= sent && Eof in received
    ensures Collect(DataIn, received) == Collect(DataIn, sent)
  {
    EofPastBody(sent, body, received);
    CollectPrefix(DataIn, sent[..body], received);
    CollectPrefix(DataIn, received, sent);
    Subsystem.BodyCarriesAll(DataIn, sent, body, status, sends);
  }

  /** The three loops over any schedules: requests reach the subsystem's input and its output reaches the
      client in order; and a client that has written everything up to the Eof has all of the output, if the
      loop at the server ended with the output. */
  method SftpSession(requests: seq<BridgeRead>, frames: seq<BridgeFrame>, run: Session.SubsystemRun, sends: (bool, bool, bool))
    returns (n: nat, sent: seq<ChannelMessage>, m: nat, reader: Outcome, written: Bytes,
             k: nat, end: Subsystem.End, answered: seq<ChannelMessage>, stdin: Bytes)
    requires forall e <- requests :: ReadFits(e.read, CHUNK)
    ensures n <= |requests| && m <= |frames| && k <= |run.arms|
    ensures Collect(SubsystemFrames, run.arms[..k]) <= sent ==> stdin <= Collect(BridgeIn, requests[..n])
    ensures Collect(BridgeFrames, frames[..m]) <= answered ==> written <= run.stdout
    ensures (&& Collect(BridgeFrames, frames[..m]) <= answered && Eof in Collect(BridgeFrames, frames[..m])
             && Lossless(reader) && end.Drained?) ==>
              written == run.stdout
  {
    var writer, body, status;
    writer, n, sent := BridgeWriter(requests);
    reader, m, written := BridgeReader(frames);
    end, k, answered, stdin, body, status :=
      Subsystem.RunSubsystem(run.arms, run.stdout, run.stderr, run.reaped, sends);
    var received := Collect(BridgeFrames, frames[..m]);
    if Collect(SubsystemFrames, run.arms[..k]) <= sent {
      RequestsArriveInOrder(writer, requests[..n], sent, run.arms[..k]);
    }
    if received <= answered {
      BridgeReceives(frames[..m]);
      CollectPrefix(DataIn, received, answered);
      TwoLoops(Loop(Ended, Collect(DataIn, answered), Collect(DataIn, answered)),
               Loop(reader, Collect(FrameIn, frames[..m]), written));
      if Eof in received && Lossless(reader) && end.Drained? {
        EofAfterOutput(answered, body, status, sends, received);
      }
    }
  }
}
