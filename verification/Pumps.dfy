/** The relay loops, each driven by a schedule: one event per turn of its `select!`, naming the arm
    taken and what the operating system and the peer did. Every loop meets the contract `Relayed` in
    each direction, which is what a chain of relays needs from its nodes. */
module Pumps {
  import opened Wrappers
  import opened Messages
  import opened Relay

  /** What `pick` finds in a sequence of messages or events, in order. */
  function Collect<T, U>(pick: T -> seq<U>, xs: seq<T>): seq<U> {
    if xs == [] then [] else Collect(pick, xs[..|xs| - 1]) + pick(xs[|xs| - 1])
  }

  lemma CollectOne<T, U>(pick: T -> seq<U>, xs: seq<T>, x: T)
    ensures Collect(pick, xs + [x]) == Collect(pick, xs) + pick(x)
  {
    assert (xs + [x])[..|xs|] == xs;
  }

  /** The step of a loop over `xs`. */
  lemma CollectNext<T, U>(pick: T -> seq<U>, xs: seq<T>, n: nat)
    requires n < |xs|
    ensures Collect(pick, xs[..n + 1]) == Collect(pick, xs[..n]) + pick(xs[n])
  {
    assert xs[..n + 1] == xs[..n] + [xs[n]];
    CollectOne(pick, xs[..n], xs[n]);
  }

  function DataIn(m: ChannelMessage): Bytes {
    if m.Data? then m.data else []
  }

  function StderrIn(m: ChannelMessage): Bytes {
    if m.ExtendedData? then m.data else []
  }

  datatype Read = Chunk(bytes: Bytes) | EndOfFile | ReadError

  function ReadIn(r: Read): Bytes {
    if r.Chunk? then r.bytes else []
  }

  /** Reads return between one byte and a full buffer. */
  predicate ReadFits(r: Read, size: nat) {
    r.Chunk? ==> 1 <= |r.bytes| <= size
  }

  /** Whether a write took everything; if it failed it may have taken some of it first. */
  datatype Write = Done | Broken(accepted: nat)

  function Written(data: Bytes, w: Write): (r: Bytes)
    ensures r <= data && |r| == if w.Done? || w.accepted > |data| then |data| else w.accepted
  {
    match w case Done => data case Broken(k) => if k <= |data| then data[..k] else data
  }

  /** How a loop stands at the end of its schedule. */
  datatype Outcome = Running | Ended | SendFailed | WriteFailed

  ghost predicate Lossless(o: Outcome) {
    o.Running? || o.Ended?
  }

  /** `Relayed`, and nothing at all lost unless a send or write failed. */
  ghost predicate Carried(o: Outcome, taken: Bytes, put: Bytes) {
    Relayed(o.Running?, taken, put, []) && (Lossless(o) ==> put == taken)
  }

  /** A loop that has lost nothing so far carries what its last turn carries. */
  lemma CarriedOn(o: Outcome, soFar: Bytes, taken: Bytes, put: Bytes)
    requires Carried(o, taken, put)
    ensures Carried(o, soFar + taken, soFar + put)
  {
    assert put + [] == put && soFar + put + [] == soFar + put;
  }

  lemma CollectMore<T, U>(pick: T -> seq<U>, xs: seq<T>, ys: seq<T>)
    requires |ys| <= 1
    ensures Collect(pick, xs + ys) == Collect(pick, xs) + Collect(pick, ys)
  {
    if ys == [] {
      assert xs + ys == xs;
    } else {
      CollectOne(pick, xs, ys[0]);
      assert ys == [ys[0]] && ys[..0] == [];
    }
  }

  /** One more turn of a loop, in one direction. */
  lemma CarryNext<E, M>(pickIn: E -> Bytes, events: seq<E>, n: nat, pickOut: M -> Bytes, sent: seq<M>, out: seq<M>,
                        o: Outcome)
    requires n < |events| && |out| <= 1
    requires Carried(Running, Collect(pickIn, events[..n]), Collect(pickOut, sent))
    requires Carried(o, pickIn(events[n]), Collect(pickOut, out))
    ensures Carried(o, Collect(pickIn, events[..n + 1]), Collect(pickOut, sent + out))
  {
    CollectNext(pickIn, events, n);
    CollectMore(pickOut, sent, out);
    CarriedOn(o, Collect(pickOut, sent), pickIn(events[n]), Collect(pickOut, out));
  }

  /** The same for a direction that ends in plain bytes. */
  lemma WriteNext<E>(pickIn: E -> Bytes, events: seq<E>, n: nat, written: Bytes, wrote: Bytes, o: Outcome)
    requires n < |events|
    requires Carried(Running, Collect(pickIn, events[..n]), written)
    requires Carried(o, pickIn(events[n]), wrote)
    ensures Carried(o, Collect(pickIn, events[..n + 1]), written + wrote)
  {
    CollectNext(pickIn, events, n);
    CarriedOn(o, written, pickIn(events[n]), wrote);
  }

  // ---------------------------------------------------------------------------
  // TCP pump (client and server run the same loop)
  // ---------------------------------------------------------------------------

  datatype PumpEvent =
    | FromTcp(read: Read, sendOk: bool)
    | FromChannel(msg: Option<ChannelMessage>, write: Write)

  function TcpIn(e: PumpEvent): Bytes {
    if e.FromTcp? then ReadIn(e.read) else []
  }

  function ChannelIn(e: PumpEvent): Bytes {
    if e.FromChannel? && e.msg.Some? then DataIn(e.msg.value) else []
  }

  /** What one turn sends and writes. */
  function PumpTurn(e: PumpEvent): (seq<ChannelMessage>, Bytes, Outcome) {
    match e
    case FromTcp(Chunk(bytes), sendOk) => if sendOk then ([Data(bytes)], [], Running) else ([], [], SendFailed)
    case FromTcp(_, sendOk) => (if sendOk then [Eof] else [], [], Ended)
    case FromChannel(Some(Data(data)), write) =>
      ([], Written(data, write), if write.Done? then Running else WriteFailed)
    case FromChannel(Some(Eof), _) => ([], [], Ended)
    case FromChannel(Some(Close), _) => ([], [], Ended)
    case FromChannel(None, _) => ([], [], Ended)
    case FromChannel(Some(_), _) => ([], [], Running)
  }

  lemma PumpTurnCarries(e: PumpEvent)
    ensures var (out, wrote, o) := PumpTurn(e);
            |out| <= 1 && Carried(o, TcpIn(e), Collect(DataIn, out)) && Carried(o, ChannelIn(e), wrote)
  {
    var (out, _, _) := PumpTurn(e);
    if out != [] {
      assert out[..0] == [];
    }
  }

  /** Data frames, and after them at most one Eof. */
  ghost predicate PumpTrace(sent: seq<ChannelMessage>) {
    forall i :: 0 <= i < |sent| ==> sent[i].Data? || (sent[i].Eof? && i == |sent| - 1)
  }

  /** How one turn leaves the loop: it ends with the TCP stream or the channel, and fails when data cannot
      be passed on; the Eof is sent when the TCP stream has ended. */
  ghost predicate PumpEnding(e: PumpEvent, o: Outcome, out: seq<ChannelMessage>) {
    match e
    case FromTcp(Chunk(_), ok) => o == (if ok then Running else SendFailed) && Eof !in out
    case FromTcp(_, ok) => o == Ended && (Eof in out <==> ok)
    case FromChannel(None, _) => o == Ended && Eof !in out
    case FromChannel(Some(Eof), _) => o == Ended && Eof !in out
    case FromChannel(Some(Close), _) => o == Ended && Eof !in out
    case FromChannel(Some(Data(_)), write) => o == (if write.Done? then Running else WriteFailed) && Eof !in out
    case FromChannel(Some(_), _) => o == Running && Eof !in out
  }

  method PumpOnce(buf: array<Byte>, e: PumpEvent)
    returns (out: seq<ChannelMessage>, wrote: Bytes, outcome: Outcome)
    requires e.FromTcp? ==> ReadFits(e.read, buf.Length)
    modifies buf
    ensures (out, wrote, outcome) == PumpTurn(e)
  {
    out, wrote, outcome := [], [], Running;
    match e
    case FromTcp(Chunk(bytes), sendOk) =>
      forall i | 0 <= i < |bytes| {
        buf[i] := bytes[i];
      }
      var data := buf[..|bytes|];
      assert data == bytes;
      if sendOk {
        out := [Data(data)];
      } else {
        outcome := SendFailed;
      }
    case FromTcp(_, sendOk) =>
      out, outcome := if sendOk then [Eof] else [], Ended;
    case FromChannel(Some(Data(data)), write) =>
      wrote := Written(data, write);
      if write.Broken? {
        outcome := WriteFailed;
      }
    case FromChannel(Some(Eof), _) => outcome := Ended;
    case FromChannel(Some(Close), _) => outcome := Ended;
    case FromChannel(None, _) => outcome := Ended;
    case FromChannel(Some(_), _) =>
  }

  ghost predicate PumpCarried(o: Outcome, events: seq<PumpEvent>, sent: seq<ChannelMessage>, written: Bytes) {
    && Carried(o, Collect(TcpIn, events), Collect(DataIn, sent))
    && Carried(o, Collect(ChannelIn, events), written)
  }

  lemma PumpNext(events: seq<PumpEvent>, n: nat, sent: seq<ChannelMessage>, written: Bytes)
    requires n < |events| && PumpCarried(Running, events[..n], sent, written)
    ensures var (out, wrote, o) := PumpTurn(events[n]);
            PumpCarried(o, events[..n + 1], sent + out, written + wrote)
  {
    PumpTurnCarries(events[n]);
    var (out, wrote, o) := PumpTurn(events[n]);
    CarryNext(TcpIn, events, n, DataIn, sent, out, o);
    WriteNext(ChannelIn, events, n, written, wrote, o);
  }

  /** The end of the trace: nothing but Data while the loop runs. */
  lemma TraceNext(sent: seq<ChannelMessage>, e: PumpEvent)
    requires forall m <- sent :: m.Data?
    ensures var (out, _, o) := PumpTurn(e);
            && PumpTrace(sent + out) && (o.Running? ==> forall m <- sent + out :: m.Data?)
            && PumpEnding(e, o, sent + out)
  {
  }

  /** `n` is the number of events that the loop consumed. */
  method Pump(events: seq<PumpEvent>)
    returns (outcome: Outcome, n: nat, sent: seq<ChannelMessage>, written: Bytes)
    requires forall e <- events :: e.FromTcp? ==> ReadFits(e.read, 8192)
    ensures n <= |events| && (outcome.Running? ==> n == |events|)
    ensures PumpCarried(outcome, events[..n], sent, written)
    ensures PumpTrace(sent)
    ensures if n > 0 then PumpEnding(events[n - 1], outcome, sent) else outcome.Running? && sent == []
  {
    outcome, n, sent, written := Running, 0, [], [];
    var buf := new Byte[8192](_ => 0);
    while n < |events| && outcome.Running?
      invariant n <= |events|
      invariant PumpCarried(outcome, events[..n], sent, written)
      invariant PumpTrace(sent) && (outcome.Running? ==> forall m <- sent :: m.Data?)
      invariant if n > 0 then PumpEnding(events[n - 1], outcome, sent) else outcome.Running? && sent == []
    {
      PumpNext(events, n, sent, written);
      TraceNext(sent, events[n]);
      var out, wrote, o := PumpOnce(buf, events[n]);
      n, sent, written, outcome := n + 1, sent + out, written + wrote, o;
    }
  }

  // ---------------------------------------------------------------------------
  // ControlMaster: relay between one client's socket and its session channel
  // ---------------------------------------------------------------------------

  function StdoutIn(m: MasterMessage): Bytes {
    if m.Stdout? then m.data else []
  }

  function MasterStderrIn(m: MasterMessage): Bytes {
    if m.Stderr? then m.data else []
  }

  function StdinIn(m: ClientMessage): Bytes {
    if m.Stdin? then m.data else []
  }

  datatype SessionEvent =
    | FromServer(reply: Option<ChannelMessage>, ok: bool)
    | FromClient(request: Option<ClientMessage>, ok: bool)

  function ServerData(e: SessionEvent): Bytes {
    if e.FromServer? && e.reply.Some? then DataIn(e.reply.value) else []
  }

  function ServerStderr(e: SessionEvent): Bytes {
    if e.FromServer? && e.reply.Some? then StderrIn(e.reply.value) else []
  }

  function ClientStdin(e: SessionEvent): Bytes {
    if e.FromClient? && e.request.Some? then StdinIn(e.request.value) else []
  }

  /** What one turn sends to the client and to the server; `ok` says whether the transport took it. */
  function SessionTurn(e: SessionEvent): (seq<MasterMessage>, seq<ChannelMessage>, Outcome) {
    match e
    case FromServer(Some(Data(data)), ok) => if ok then ([Stdout(data)], [], Running) else ([], [], WriteFailed)
    case FromServer(Some(ExtendedData(_, data)), ok) =>
      if ok then ([Stderr(data)], [], Running) else ([], [], WriteFailed)
    case FromServer(Some(ExitStatus(status)), ok) =>
      if ok then ([MasterExitStatus(status)], [], Running) else ([], [], WriteFailed)
    case FromServer(Some(Eof), ok) => (if ok then [MasterEof] else [], [], Ended)
    case FromServer(Some(Close), ok) => (if ok then [MasterEof] else [], [], Ended)
    case FromServer(Some(_), _) => ([], [], Running)
    case FromServer(None, _) => ([], [], Ended)
    case FromClient(Some(Stdin(data)), ok) => if ok then ([], [Data(data)], Running) else ([], [], SendFailed)
    case FromClient(Some(ClientEof), ok) => ([], if ok then [Eof] else [], Running)
    case FromClient(Some(ClientWindowChange(w)), ok) =>
      ([], if ok then [Request(WindowChange(w), false)] else [], Running)
    case FromClient(Some(OpenSession(_)), _) => ([], [], Running)
    case FromClient(None, _) => ([], [], Ended)
  }

  lemma SessionTurnCarries(e: SessionEvent)
    ensures var (toClient, toServer, o) := SessionTurn(e);
            && |toClient| <= 1 && |toServer| <= 1
            && Carried(o, ServerData(e), Collect(StdoutIn, toClient))
            && Carried(o, ServerStderr(e), Collect(MasterStderrIn, toClient))
            && Carried(o, ClientStdin(e), Collect(DataIn, toServer))
  {
    var (toClient, toServer, _) := SessionTurn(e);
    assert toClient != [] ==> toClient[..0] == [];
    assert toServer != [] ==> toServer[..0] == [];
  }

  /** Nothing follows the Eof that tells the client its session is over. */
  ghost predicate EofLast(sent: seq<MasterMessage>) {
    forall i :: 0 <= i < |sent| && sent[i].MasterEof? ==> i == |sent| - 1
  }

  ghost predicate SessionCarried(o: Outcome, events: seq<SessionEvent>, down: seq<MasterMessage>, up: seq<ChannelMessage>) {
    && Carried(o, Collect(ServerData, events), Collect(StdoutIn, down))
    && Carried(o, Collect(ServerStderr, events), Collect(MasterStderrIn, down))
    && Carried(o, Collect(ClientStdin, events), Collect(DataIn, up))
  }

  /** Frames other than data, on either side. */
  function ControlToClient(m: MasterMessage): seq<MasterMessage> {
    if m.Stdout? || m.Stderr? then [] else [m]
  }

  function ControlToServer(m: ChannelMessage): seq<ChannelMessage> {
    if m.Data? then [] else [m]
  }

  /** What each turn owes besides data: the exit status and the end of the session to the client, the end
      of input and the new window to the server. */
  function OwedToClient(e: SessionEvent): seq<MasterMessage> {
    match e
    case FromServer(Some(ExitStatus(status)), true) => [MasterExitStatus(status)]
    case FromServer(Some(Eof), true) => [MasterEof]
    case FromServer(Some(Close), true) => [MasterEof]
    case _ => []
  }

  function OwedToServer(e: SessionEvent): seq<ChannelMessage> {
    match e
    case FromClient(Some(ClientEof), true) => [Eof]
    case FromClient(Some(ClientWindowChange(window)), true) => [Request(WindowChange(window), false)]
    case _ => []
  }

  /** How one turn leaves the loop. */
  ghost predicate SessionEnding(e: SessionEvent, o: Outcome) {
    match e
    case FromServer(None, _) => o == Ended
    case FromServer(Some(m), ok) =>
      if m.Eof? || m.Close? then o == Ended
      else o == if ok || !(m.Data? || m.ExtendedData? || m.ExitStatus?) then Running else WriteFailed
    case FromClient(None, _) => o == Ended
    case FromClient(Some(m), ok) => o == if ok || !m.Stdin? then Running else SendFailed
  }

  ghost predicate Signalled(events: seq<SessionEvent>, o: Outcome, down: seq<MasterMessage>, up: seq<ChannelMessage>) {
    && Collect(ControlToClient, down) == Collect(OwedToClient, events)
    && Collect(ControlToServer, up) == Collect(OwedToServer, events)
    && if events == [] then o == Running else SessionEnding(events[|events| - 1], o)
  }

  lemma OneOf<T, U>(pick: T -> seq<U>, xs: seq<T>)
    requires |xs| <= 1
    ensures Collect(pick, xs) == if xs == [] then [] else pick(xs[0])
  {
    assert xs != [] ==> xs[..0] == [];
  }

  lemma OwedNext<E, M>(owed: E -> seq<M>, events: seq<E>, n: nat, pick: M -> seq<M>, sent: seq<M>, out: seq<M>)
    requires n < |events| && |out| <= 1 && Collect(pick, sent) == Collect(owed, events[..n])
    requires owed(events[n]) == if out == [] then [] else pick(out[0])
    ensures Collect(pick, sent + out) == Collect(owed, events[..n + 1])
  {
    CollectNext(owed, events, n);
    CollectMore(pick, sent, out);
    OneOf(pick, out);
  }

  lemma TurnSignals(e: SessionEvent)
    ensures var (down, up, o) := SessionTurn(e);
            && |down| <= 1 && OwedToClient(e) == (if down == [] then [] else ControlToClient(down[0]))
            && |up| <= 1 && OwedToServer(e) == (if up == [] then [] else ControlToServer(up[0]))
            && SessionEnding(e, o)
  {
  }

  lemma SignalledNext(events: seq<SessionEvent>, n: nat, toClient: seq<MasterMessage>, toServer: seq<ChannelMessage>)
    requires n < |events| && Signalled(events[..n], Running, toClient, toServer)
    ensures var (down, up, o) := SessionTurn(events[n]);
            Signalled(events[..n + 1], o, toClient + down, toServer + up)
  {
    var (down, up, o) := SessionTurn(events[n]);
    TurnSignals(events[n]);
    OwedNext(OwedToClient, events, n, ControlToClient, toClient, down);
    OwedNext(OwedToServer, events, n, ControlToServer, toServer, up);
  }

  lemma SessionNext(events: seq<SessionEvent>, n: nat, toClient: seq<MasterMessage>, toServer: seq<ChannelMessage>)
    requires n < |events| && SessionCarried(Running, events[..n], toClient, toServer)
    ensures var (down, up, o) := SessionTurn(events[n]);
            SessionCarried(o, events[..n + 1], toClient + down, toServer + up)
  {
    SessionTurnCarries(events[n]);
    var (down, up, o) := SessionTurn(events[n]);
    CarryNext(ServerData, events, n, StdoutIn, toClient, down, o);
    CarryNext(ServerStderr, events, n, MasterStderrIn, toClient, down, o);
    CarryNext(ClientStdin, events, n, DataIn, toServer, up, o);
  }

  ghost predicate EofEnds(o: Outcome, toClient: seq<MasterMessage>, toServer: seq<ChannelMessage>) {
    EofLast(toClient) && (o.Running? ==> MasterEof !in toClient) && Close !in toServer
  }

  lemma EofEndsNext(e: SessionEvent, toClient: seq<MasterMessage>, toServer: seq<ChannelMessage>)
    requires EofEnds(Running, toClient, toServer)
    ensures var (down, up, o) := SessionTurn(e); EofEnds(o, toClient + down, toServer + up)
  {
  }

  method RelayLoop(events: seq<SessionEvent>)
    returns (outcome: Outcome, n: nat, toClient: seq<MasterMessage>, toServer: seq<ChannelMessage>)
    ensures n <= |events| && (outcome.Running? ==> n == |events|)
    ensures SessionCarried(outcome, events[..n], toClient, toServer)
    ensures EofLast(toClient) && Close !in toServer
    ensures Signalled(events[..n], outcome, toClient, toServer)
  {
    outcome, n, toClient, toServer := Running, 0, [], [];
    while n < |events| && outcome.Running?
      invariant n <= |events|
      invariant SessionCarried(outcome, events[..n], toClient, toServer)
      invariant EofEnds(outcome, toClient, toServer)
      invariant Signalled(events[..n], outcome, toClient, toServer)
    {
      EofEndsNext(events[n], toClient, toServer);
      SignalledNext(events, n, toClient, toServer);
      SessionNext(events, n, toClient, toServer);
      var (down, up, o) := SessionTurn(events[n]);
      n, toClient, toServer, outcome := n + 1, toClient + down, toServer + up, o;
    }
  }

  /** The loop, and the Close that follows it unless an error returned from the middle. */
  method RelaySession(events: seq<SessionEvent>, closeOk: bool)
    returns (outcome: Outcome, n: nat, toClient: seq<MasterMessage>, toServer: seq<ChannelMessage>)
    ensures n <= |events| && (outcome.Running? ==> n == |events|)
    ensures SessionCarried(outcome, events[..n], toClient, toServer)
    ensures EofLast(toClient)
    ensures outcome.Ended? && closeOk <==> Close in toServer
    ensures forall i :: 0 <= i < |toServer| && toServer[i] == Close ==> i == |toServer| - 1
    ensures Signalled(events[..n], outcome, toClient,
                      if outcome.Ended? && closeOk then toServer[..|toServer| - 1] else toServer)
  {
    outcome, n, toClient, toServer := RelayLoop(events);
    if outcome.Ended? && closeOk {
      assert (toServer + [Close])[..|toServer|] == toServer;
      CollectOne(DataIn, toServer, Close);
      assert Collect(DataIn, toServer) + [] == Collect(DataIn, toServer);
      toServer := toServer + [Close];
    }
  }

  // ---------------------------------------------------------------------------
  // Slave: the terminal's side of the ControlMaster socket
  // ---------------------------------------------------------------------------

  datatype SlaveArm =
    | StdinArm(ok: bool)
    | MasterArm(msg: Option<MasterMessage>, write: Write)
    | ResizeArm(window: WindowChangeParams, ok: bool)

  function ArmStdout(a: SlaveArm): Bytes {
    if a.MasterArm? && a.msg.Some? then StdoutIn(a.msg.value) else []
  }

  function ArmStderr(a: SlaveArm): Bytes {
    if a.MasterArm? && a.msg.Some? then MasterStderrIn(a.msg.value) else []
  }

  /** What the stdin arm sends for one read, and whether stdin stays open. */
  function StdinTurn(r: Read, ok: bool): (seq<ClientMessage>, bool, Outcome) {
    match r
    case Chunk(bytes) => if ok then ([Stdin(bytes)], true, Running) else ([], true, SendFailed)
    case EndOfFile => (if ok then [ClientEof] else [], false, Running)
    case ReadError => ([], true, Ended)
  }

  /** What goes to standard output and standard error. A flush that fails is a write that took all its
      data and still broke. */
  function MasterTurn(m: Option<MasterMessage>, w: Write): (Bytes, Bytes, Outcome) {
    match m
    case Some(Stdout(data)) => (Written(data, w), [], if w.Done? then Running else WriteFailed)
    case Some(Stderr(data)) => ([], Written(data, w), if w.Done? then Running else WriteFailed)
    case Some(MasterExitStatus(_)) => ([], [], Running)
    case Some(Ready) => ([], [], Running)
    case Some(MasterEof) => ([], [], Ended)
    case Some(MasterError(_)) => ([], [], Ended)
    case None => ([], [], Ended)
  }

  /** After the one Eof no more input is sent. */
  ghost predicate InputThenEof(sent: seq<ClientMessage>) {
    forall i, j :: 0 <= i < j < |sent| && sent[i].ClientEof? ==> !sent[j].Stdin? && !sent[j].ClientEof?
  }

  lemma StdinTurnCarries(r: Read, ok: bool)
    ensures var (out, _, o) := StdinTurn(r, ok);
            |out| <= 1 && Carried(o, ReadIn(r), Collect(StdinIn, out))
  {
    var (out, _, _) := StdinTurn(r, ok);
    assert out != [] ==> out[..0] == [];
  }

  ghost predicate InputCarried(o: Outcome, inputs: seq<Read>, toMaster: seq<ClientMessage>) {
    Carried(o, Collect(ReadIn, inputs), Collect(StdinIn, toMaster))
  }

  ghost predicate OutputCarried(o: Outcome, arms: seq<SlaveArm>, stdout: Bytes, stderr: Bytes) {
    && Carried(o, Collect(ArmStdout, arms), stdout)
    && Carried(o, Collect(ArmStderr, arms), stderr)
  }

  /** The end of file closes stdin, so it is the last read, and no more input follows its Eof. */
  ghost predicate StdinClosedOnce(stdinOpen: bool, inputs: seq<Read>, toMaster: seq<ClientMessage>) {
    && InputThenEof(toMaster)
    && (stdinOpen ==> forall m <- toMaster :: !m.ClientEof?)
    && forall i :: 0 <= i < |inputs| - 1 ==> inputs[i].Chunk?
  }

  lemma StdinNext(inputs: seq<Read>, taken: nat, toMaster: seq<ClientMessage>, ok: bool)
    requires taken < |inputs| && InputCarried(Running, inputs[..taken], toMaster)
    requires StdinClosedOnce(true, inputs[..taken], toMaster) && (taken > 0 ==> inputs[taken - 1].Chunk?)
    ensures var (out, open, o) := StdinTurn(inputs[taken], ok);
            && InputCarried(o, inputs[..taken + 1], toMaster + out)
            && StdinClosedOnce(open, inputs[..taken + 1], toMaster + out)
  {
    StdinTurnCarries(inputs[taken], ok);
    var (out, open, o) := StdinTurn(inputs[taken], ok);
    CarryNext(ReadIn, inputs, taken, StdinIn, toMaster, out, o);
  }

  /** One turn: what it sends, whether it took a read, whether stdin stays open, and what it writes. */
  function SlaveTurn(stdinOpen: bool, inputs: seq<Read>, taken: nat, arm: SlaveArm)
    : (seq<ClientMessage>, nat, bool, (Bytes, Bytes), Outcome)
    requires taken <= |inputs|
  {
    match arm
    case StdinArm(ok) =>
      if stdinOpen && taken < |inputs| then
        var (out, open, o) := StdinTurn(inputs[taken], ok);
        (out, taken + 1, open, ([], []), o)
      else
        ([], taken, stdinOpen, ([], []), Running)
    case MasterArm(msg, write) =>
      var (stdout, stderr, o) := MasterTurn(msg, write);
      ([], taken, stdinOpen, (stdout, stderr), o)
    case ResizeArm(window, ok) =>
      (if ok then [ClientWindowChange(window)] else [], taken, stdinOpen, ([], []), Running)
  }

  lemma OutputNext(stdinOpen: bool, inputs: seq<Read>, taken: nat, arms: seq<SlaveArm>, n: nat, stdout: Bytes,
                   stderr: Bytes)
    requires taken <= |inputs| && n < |arms| && OutputCarried(Running, arms[..n], stdout, stderr)
    ensures var (_, _, _, wrote, o) := SlaveTurn(stdinOpen, inputs, taken, arms[n]);
            OutputCarried(o, arms[..n + 1], stdout + wrote.0, stderr + wrote.1)
  {
    var (_, _, _, wrote, o) := SlaveTurn(stdinOpen, inputs, taken, arms[n]);
    WriteNext(ArmStdout, arms, n, stdout, wrote.0, o);
    WriteNext(ArmStderr, arms, n, stderr, wrote.1, o);
  }

  /** The input side stands where it did when another arm runs, whatever becomes of that arm. */
  lemma InputStands(o: Outcome, inputs: seq<Read>, toMaster: seq<ClientMessage>, open: bool)
    requires InputCarried(Running, inputs, toMaster)
    requires StdinClosedOnce(open, inputs, toMaster)
    ensures InputCarried(o, inputs, toMaster + [])
    ensures StdinClosedOnce(open, inputs, toMaster + [])
  {
    assert toMaster + [] == toMaster;
    assert Collect(StdinIn, toMaster) + [] == Collect(StdinIn, toMaster);
  }

  lemma ResizeNext(inputs: seq<Read>, toMaster: seq<ClientMessage>, open: bool, w: WindowChangeParams)
    requires InputCarried(Running, inputs, toMaster) && StdinClosedOnce(open, inputs, toMaster)
    ensures InputCarried(Running, inputs, toMaster + [ClientWindowChange(w)])
    ensures StdinClosedOnce(open, inputs, toMaster + [ClientWindowChange(w)])
  {
    CollectOne(StdinIn, toMaster, ClientWindowChange(w));
    assert Collect(StdinIn, toMaster) + [] == Collect(StdinIn, toMaster);
  }

  lemma OtherTurn(stdinOpen: bool, inputs: seq<Read>, taken: nat, arm: SlaveArm, toMaster: seq<ClientMessage>)
    requires taken <= |inputs| && InputCarried(Running, inputs[..taken], toMaster)
    requires StdinClosedOnce(stdinOpen, inputs[..taken], toMaster)
    requires !(arm.StdinArm? && stdinOpen && taken < |inputs|)
    ensures var (out, t, open, _, o) := SlaveTurn(stdinOpen, inputs, taken, arm);
            && t == taken && open == stdinOpen && InputCarried(o, inputs[..t], toMaster + out)
            && StdinClosedOnce(open, inputs[..t], toMaster + out)
  {
    var (_, _, _, _, o) := SlaveTurn(stdinOpen, inputs, taken, arm);
    if arm.ResizeArm? && arm.ok {
      ResizeNext(inputs[..taken], toMaster, stdinOpen, arm.window);
    } else {
      InputStands(o, inputs[..taken], toMaster, stdinOpen);
    }
  }

  lemma ReadTurn(inputs: seq<Read>, taken: nat, ok: bool)
    requires taken < |inputs|
    ensures var (out, open, o) := StdinTurn(inputs[taken], ok);
            && SlaveTurn(true, inputs, taken, StdinArm(ok)) == (out, taken + 1, open, ([], []), o)
            && (open && o.Running? ==> inputs[taken].Chunk?)
  {
  }

  lemma InputNext(stdinOpen: bool, inputs: seq<Read>, taken: nat, arm: SlaveArm, toMaster: seq<ClientMessage>)
    requires taken <= |inputs| && InputCarried(Running, inputs[..taken], toMaster)
    requires StdinClosedOnce(stdinOpen, inputs[..taken], toMaster)
    requires stdinOpen && taken > 0 ==> inputs[taken - 1].Chunk?
    ensures var (out, t, open, _, o) := SlaveTurn(stdinOpen, inputs, taken, arm);
            && taken <= t <= |inputs| && InputCarried(o, inputs[..t], toMaster + out)
            && StdinClosedOnce(open, inputs[..t], toMaster + out)
            && (open && o.Running? && t > 0 ==> inputs[t - 1].Chunk?)
  {
    if arm.StdinArm? && stdinOpen && taken < |inputs| {
      StdinNext(inputs, taken, toMaster, arm.ok);
      ReadTurn(inputs, taken, arm.ok);
    } else {
      OtherTurn(stdinOpen, inputs, taken, arm, toMaster);
    }
  }

  function Resizes(m: ClientMessage): seq<WindowChangeParams> {
    if m.ClientWindowChange? then [m.window] else []
  }

  function ArmResize(a: SlaveArm): seq<WindowChangeParams> {
    if a.ResizeArm? && a.ok then [a.window] else []
  }

  /** The session is over for the user: the master says so, reports an error, or is gone. */
  predicate Dismissed(a: SlaveArm) {
    match a
    case MasterArm(None, _) => true
    case MasterArm(Some(m), _) => m.MasterEof? || m.MasterError?
    case _ => false
  }

  /** The end of input is told, if it can be, when it is there. */
  ghost predicate EofTold(arms: seq<SlaveArm>, inputs: seq<Read>, toMaster: seq<ClientMessage>) {
    && (ClientEof in toMaster ==> EndOfFile in inputs)
    && (EndOfFile in inputs && (forall a <- arms :: a.StdinArm? ==> a.ok) ==> ClientEof in toMaster)
  }

  /** So are new windows. */
  ghost predicate Told(arms: seq<SlaveArm>, inputs: seq<Read>, toMaster: seq<ClientMessage>) {
    Collect(Resizes, toMaster) == Collect(ArmResize, arms) && EofTold(arms, inputs, toMaster)
  }

  /** What one turn adds is told. */
  ghost predicate Tells(arm: SlaveArm, more: seq<Read>, out: seq<ClientMessage>) {
    && |out| <= 1 && ArmResize(arm) == (if out == [] then [] else Resizes(out[0]))
    && (ClientEof in out ==> EndOfFile in more)
    && (EndOfFile in more ==> arm.StdinArm? && (arm.ok ==> ClientEof in out))
  }

  lemma TurnTells(stdinOpen: bool, inputs: seq<Read>, taken: nat, arm: SlaveArm)
    requires taken <= |inputs|
    ensures var (out, t, _, _, _) := SlaveTurn(stdinOpen, inputs, taken, arm);
            taken <= t <= |inputs| && Tells(arm, inputs[taken..t], out)
  {
  }

  lemma ToldBy(arms: seq<SlaveArm>, arm: SlaveArm, inputs: seq<Read>, more: seq<Read>, toMaster: seq<ClientMessage>,
               out: seq<ClientMessage>)
    requires Told(arms, inputs, toMaster) && Tells(arm, more, out)
    ensures Told(arms + [arm], inputs + more, toMaster + out)
  {
    CollectOne(ArmResize, arms, arm);
    CollectMore(Resizes, toMaster, out);
    OneOf(Resizes, out);
    assert forall a <- arms :: a in arms + [arm];
    assert arm in arms + [arm];
  }

  lemma SliceNext<T>(s: seq<T>, i: nat, j: nat)
    requires i <= j <= |s|
    ensures s[..j] == s[..i] + s[i..j]
  {
  }

  lemma ToldNext(stdinOpen: bool, inputs: seq<Read>, taken: nat, arms: seq<SlaveArm>, n: nat, toMaster: seq<ClientMessage>)
    requires taken <= |inputs| && n < |arms| && Told(arms[..n], inputs[..taken], toMaster)
    ensures var (out, t, _, _, _) := SlaveTurn(stdinOpen, inputs, taken, arms[n]);
            t <= |inputs| && Told(arms[..n + 1], inputs[..t], toMaster + out)
  {
    var (out, t, _, _, _) := SlaveTurn(stdinOpen, inputs, taken, arms[n]);
    TurnTells(stdinOpen, inputs, taken, arms[n]);
    ToldBy(arms[..n], arms[n], inputs[..taken], inputs[taken..t], toMaster, out);
    SliceNext(inputs, taken, t);
    assert arms[..n + 1] == arms[..n] + [arms[n]];
  }

  /** The loop ends when the user is dismissed or stdin cannot be read. */
  ghost predicate SlaveEnding(arms: seq<SlaveArm>, inputs: seq<Read>, o: Outcome) {
    && (o.Ended? <==> (arms != [] && Dismissed(arms[|arms| - 1])) || ReadError in inputs)
    && forall i :: 0 <= i < |arms| - 1 ==> !Dismissed(arms[i])
  }

  lemma SlaveEndingNext(stdinOpen: bool, inputs: seq<Read>, taken: nat, arms: seq<SlaveArm>, n: nat)
    requires taken <= |inputs| && n < |arms| && SlaveEnding(arms[..n], inputs[..taken], Running)
    ensures var (_, t, _, _, o) := SlaveTurn(stdinOpen, inputs, taken, arms[n]);
            t <= |inputs| && SlaveEnding(arms[..n + 1], inputs[..t], o)
  {
    var (_, t, _, _, _) := SlaveTurn(stdinOpen, inputs, taken, arms[n]);
    assert t == taken + 1 ==> inputs[..t] == inputs[..taken] + [inputs[taken]];
    assert arms[..n + 1] == arms[..n] + [arms[n]];
    assert n > 0 ==> arms[..n][n - 1] == arms[n - 1];
  }

  /** `inputs` are the results of reading stdin, of which the loop takes the first `taken`: none after
      the end of file, because the stdin arm is then disabled. */
  method SlaveIo(inputs: seq<Read>, arms: seq<SlaveArm>)
    returns (outcome: Outcome, taken: nat, n: nat, toMaster: seq<ClientMessage>, stdout: Bytes,
             stderr: Bytes)
    ensures taken <= |inputs| && n <= |arms| && (outcome.Running? ==> n == |arms|)
    ensures InputCarried(outcome, inputs[..taken], toMaster)
    ensures OutputCarried(outcome, arms[..n], stdout, stderr)
    ensures StdinClosedOnce(false, inputs[..taken], toMaster)
    ensures Told(arms[..n], inputs[..taken], toMaster)
    ensures SlaveEnding(arms[..n], inputs[..taken], outcome)
  {
    outcome, taken, n, toMaster, stdout, stderr := Running, 0, 0, [], [], [];
    var stdinOpen := true;
    while n < |arms| && outcome.Running?
      invariant taken <= |inputs| && n <= |arms|
      invariant InputCarried(outcome, inputs[..taken], toMaster)
      invariant OutputCarried(outcome, arms[..n], stdout, stderr)
      invariant StdinClosedOnce(stdinOpen, inputs[..taken], toMaster)
      invariant outcome.Running? && stdinOpen && taken > 0 ==> inputs[taken - 1].Chunk?
      invariant Told(arms[..n], inputs[..taken], toMaster)
      invariant SlaveEnding(arms[..n], inputs[..taken], outcome)
    {
      ToldNext(stdinOpen, inputs, taken, arms, n, toMaster);
      SlaveEndingNext(stdinOpen, inputs, taken, arms, n);
      OutputNext(stdinOpen, inputs, taken, arms, n, stdout, stderr);
      InputNext(stdinOpen, inputs, taken, arms[n], toMaster);
      var (out, t, open, wrote, o) := SlaveTurn(stdinOpen, inputs, taken, arms[n]);
      toMaster, taken, stdinOpen := toMaster + out, t, open;
      n, stdout, stderr, outcome := n + 1, stdout + wrote.0, stderr + wrote.1, o;
    }
  }

  // ---------------------------------------------------------------------------
  // SFTP bridge: two tasks, one a direction
  // ---------------------------------------------------------------------------

  datatype BridgeRead = BridgeRead(read: Read, sendOk: bool)

  function BridgeIn(e: BridgeRead): Bytes {
    ReadIn(e.read)
  }

  const CHUNK: nat := 32768

  method BridgeWriter(events: seq<BridgeRead>) returns (outcome: Outcome, n: nat, sent: seq<ChannelMessage>)
    requires forall e <- events :: ReadFits(e.read, CHUNK)
    ensures n <= |events| && (outcome.Running? ==> n == |events|)
    ensures Carried(outcome, Collect(BridgeIn, events[..n]), Collect(DataIn, sent))
    ensures PumpTrace(sent) && forall m <- sent :: m.Data? ==> |m.data| <= CHUNK
    ensures forall i :: 0 <= i < n - 1 ==> events[i].read.Chunk? && events[i].sendOk
    ensures outcome.Ended? <==> n > 0 && !events[n - 1].read.Chunk?
    ensures outcome.SendFailed? <==> n > 0 && events[n - 1].read.Chunk? && !events[n - 1].sendOk
    ensures Eof in sent <==> n > 0 && events[n - 1] == BridgeRead(EndOfFile, true)
  {
    outcome, n, sent := Running, 0, [];
    while n < |events|
      invariant n <= |events|
      invariant Collect(DataIn, sent) == Collect(BridgeIn, events[..n])
      invariant forall m <- sent :: m.Data? && |m.data| <= CHUNK
      invariant forall i :: 0 <= i < n ==> events[i].read.Chunk? && events[i].sendOk
    {
      var e := events[n];
      CollectNext(BridgeIn, events, n);
      n := n + 1;
      match e.read
      case EndOfFile =>
        if e.sendOk {
          CollectOne(DataIn, sent, Eof);
          sent := sent + [Eof];
        }
        return Ended, n, sent;
      case Chunk(data) =>
        if !e.sendOk {
          return SendFailed, n, sent;
        }
        CollectOne(DataIn, sent, Data(data));
        sent := sent + [Data(data)];
      case ReadError =>
        return Ended, n, sent;
    }
  }

  datatype BridgeFrame = BridgeFrame(msg: Option<ChannelMessage>, write: Write)

  function FrameIn(e: BridgeFrame): Bytes {
    if e.msg.Some? then DataIn(e.msg.value) else []
  }

  /** The server has no more to say. */
  predicate FrameEnds(e: BridgeFrame) {
    match e.msg case None => true case Some(m) => m.Eof? || m.Close?
  }

  method BridgeReader(events: seq<BridgeFrame>) returns (outcome: Outcome, n: nat, written: Bytes)
    ensures n <= |events| && (outcome.Running? ==> n == |events|)
    ensures Carried(outcome, Collect(FrameIn, events[..n]), written)
    ensures forall i :: 0 <= i < n - 1 ==> !FrameEnds(events[i])
    ensures outcome.Ended? <==> n > 0 && FrameEnds(events[n - 1])
    ensures outcome.WriteFailed? ==> n > 0 && events[n - 1].write.Broken?
  {
    outcome, n, written := Running, 0, [];
    while n < |events|
      invariant n <= |events| && written == Collect(FrameIn, events[..n])
      invariant forall i :: 0 <= i < n ==> !FrameEnds(events[i])
    {
      var e := events[n];
      CollectNext(FrameIn, events, n);
      n := n + 1;
      match e.msg {
        case Some(Data(data)) =>
          written := written + Written(data, e.write);
          if e.write.Broken? {
            return WriteFailed, n, written;
          }
        case Some(Eof) => return Ended, n, written;
        case Some(Close) => return Ended, n, written;
        case None => return Ended, n, written;
        case Some(_) =>
      }
    }
  }

  // ---------------------------------------------------------------------------
  // Writing to the PTY
  // ---------------------------------------------------------------------------

  datatype FdWrite = Accepts(n: nat) | Fails | WouldBlock

  /** The slice shrinks by what each attempt accepted; a spurious wake-up changes nothing. */
  method WriteAllToFd(data: Bytes, attempts: seq<FdWrite>) returns (outcome: Outcome, written: Bytes)
    ensures written <= data
    ensures outcome.Ended? <==> written == data
    ensures outcome.WriteFailed? ==> Fails in attempts
  {
    var buf := data;
    written := [];
    var i := 0;
    while buf != []
      invariant i <= |attempts|
      invariant written + buf == data
      decreases |attempts| - i
    {
      if i == |attempts| {
        return Running, written;
      }
      var attempt := attempts[i];
      i := i + 1;
      match attempt {
        case Accepts(n) =>
          var k := if n <= |buf| then n else |buf|;
          written := written + buf[..k];
          buf := buf[k..];
        case Fails => return WriteFailed, written;
        case WouldBlock => continue;
      }
    }
    return Ended, written;
  }
}
