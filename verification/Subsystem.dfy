/** The server's subsystem channel: a child process behind three pipes, drained until its standard
    output ends, however the four arms of the loop interleave. */
module Subsystem {
  import opened Wrappers
  import opened Messages
  import opened Pumps

  const BUFFER: nat := 8192

  /** One turn of the loop. A pipe read takes up to `size` bytes of what the child has yet to deliver;
      `sendOk` says whether the transport took the frame. */
  datatype Arm =
    | StdoutReady(size: nat, fails: bool, sendOk: bool)
    | StderrReady(size: nat, fails: bool, sendOk: bool)
    | ClientSent(msg: Option<ChannelMessage>, write: Write)
    | ChildExited(status: Option<U32>)

  /** Reading a pipe returns at least one byte until the pipe is empty, and only then its end. */
  function ReadPipe(rest: Bytes, size: nat, fails: bool): (r: Read)
    ensures r.ReadError? <==> fails
    ensures r.EndOfFile? <==> !fails && rest == []
    ensures r.Chunk? ==> ReadFits(r, BUFFER) && r.bytes <= rest
  {
    if fails then ReadError
    else if rest == [] then EndOfFile
    else
      var fits := if size == 0 then 1 else if size <= BUFFER then size else BUFFER;
      Chunk(if fits <= |rest| then rest[..fits] else rest)
  }

  datatype End = Draining | Drained | StdoutFailed | NotSent | ClientGone

  function ClientData(a: Arm): Bytes {
    if a.ClientSent? && a.msg.Some? then DataIn(a.msg.value) else []
  }

  /** The client's last word to the child: its Eof or Close, the end of the channel, or data that the
      child no longer takes. */
  predicate ClosesStdin(a: Arm) {
    a.ClientSent? && (a.msg.None? || a.msg.value.Eof? || a.msg.value.Close? || (a.msg.value.Data? && a.write.Broken?))
  }

  function FirstClose(arms: seq<Arm>): (k: nat)
    ensures k <= |arms| && (forall i :: 0 <= i < k ==> !ClosesStdin(arms[i]))
    ensures k < |arms| ==> ClosesStdin(arms[k])
  {
    if arms == [] || ClosesStdin(arms[0]) then 0 else 1 + FirstClose(arms[1..])
  }

  /** All that the child's standard input receives: the client's data up to the first close, and what a
      failed write there took before it failed. */
  function Delivered(arms: seq<Arm>): Bytes {
    var k := FirstClose(arms);
    Collect(ClientData, arms[..k]) + if k < |arms| then Written(ClientData(arms[k]), arms[k].write) else []
  }

  lemma FirstCloseUnique(arms: seq<Arm>, k: nat)
    requires k <= |arms| && (forall i :: 0 <= i < k ==> !ClosesStdin(arms[i]))
    requires k < |arms| ==> ClosesStdin(arms[k])
    ensures FirstClose(arms) == k
  {
  }

  predicate StdinOpen(arms: seq<Arm>) {
    FirstClose(arms) == |arms|
  }

  lemma DeliveredNext(arms: seq<Arm>, a: Arm)
    ensures StdinOpen(arms + [a]) <==> StdinOpen(arms) && !ClosesStdin(a)
    ensures Delivered(arms + [a]) ==
            Delivered(arms) + if !StdinOpen(arms) then []
                              else if ClosesStdin(a) then Written(ClientData(a), a.write) else ClientData(a)
  {
    var k := FirstClose(arms);
    FirstCloseUnique(arms + [a], if k == |arms| && !ClosesStdin(a) then k + 1 else k);
    if k < |arms| {
      assert (arms + [a])[..k] == arms[..k];
    } else {
      assert (arms + [a])[..k] == arms && arms[..k] == arms && (arms + [a])[..|arms| + 1] == arms + [a];
      CollectOne(ClientData, arms, a);
    }
  }

  lemma DeliveredStep(arms: seq<Arm>, n: nat)
    requires n < |arms|
    ensures StdinOpen(arms[..n + 1]) <==> StdinOpen(arms[..n]) && !ClosesStdin(arms[n])
    ensures Delivered(arms[..n + 1]) ==
            Delivered(arms[..n]) + if !StdinOpen(arms[..n]) then []
                                   else if ClosesStdin(arms[n]) then Written(ClientData(arms[n]), arms[n].write)
                                   else ClientData(arms[n])
  {
    assert arms[..n + 1] == arms[..n] + [arms[n]];
    DeliveredNext(arms[..n], arms[n]);
  }

  /** The status of the first wait that succeeded. */
  function Reaped(arms: seq<Arm>): Option<U32> {
    if arms == [] then None
    else
      var earlier := Reaped(arms[..|arms| - 1]);
      var last := arms[|arms| - 1];
      if earlier.None? && last.ChildExited? then last.status else earlier
  }

  lemma {:induction false} ReapedExactly(arms: seq<Arm>, status: U32)
    ensures Reaped(arms) == Some(status) <==>
            exists i: nat :: i < |arms| && arms[i] == ChildExited(Some(status))
                             && forall j: nat, other :: j < i ==> arms[j] != ChildExited(Some(other))
    decreases |arms|
  {
    if arms != [] {
      var init, last := arms[..|arms| - 1], arms[|arms| - 1];
      ReapedExactly(init, status);
      assert forall i: nat :: i < |init| ==> arms[i] == init[i];
      if Reaped(init).Some? {
        ReapedExactly(init, Reaped(init).value);
      } else {
        forall i: nat, other | i < |init| ensures arms[i] != ChildExited(Some(other)) {
          if init[i] == ChildExited(Some(other)) {
            ReapedSome(init, i);
          }
        }
      }
    }
  }

  lemma {:induction false} ReapedSome(arms: seq<Arm>, i: nat)
    requires i < |arms| && arms[i].ChildExited? && arms[i].status.Some?
    ensures Reaped(arms).Some?
    decreases |arms|
  {
    if i < |arms| - 1 {
      ReapedSome(arms[..|arms| - 1], i);
    }
  }

  predicate IsOutput(m: ChannelMessage) {
    m.Data? || (m.ExtendedData? && m.dataType == 1)
  }

  /** The frames sent so far carry the first `taken` bytes of the child's standard output. */
  ghost predicate OutputSent(sent: seq<ChannelMessage>, stdout: Bytes, taken: nat) {
    taken <= |stdout| && Collect(DataIn, sent) == stdout[..taken] && forall m <- sent :: IsOutput(m)
  }

  lemma OutputMore(sent: seq<ChannelMessage>, stdout: Bytes, taken: nat, m: ChannelMessage)
    requires OutputSent(sent, stdout, taken) && IsOutput(m) && DataIn(m) <= stdout[taken..]
    ensures OutputSent(sent + [m], stdout, taken + |DataIn(m)|)
  {
    CollectOne(DataIn, sent, m);
    assert stdout[..taken + |DataIn(m)|] == stdout[..taken] + stdout[taken..][..|DataIn(m)|];
  }

  /** What the client's message does to the child's input; the write's outcome is the arm's. */
  method ServeClient(a: Arm, stdinOpen: bool) returns (stdin: Bytes, open: bool, gone: bool)
    requires a.ClientSent?
    ensures open <==> stdinOpen && !ClosesStdin(a)
    ensures open <==>
              stdinOpen && match a.msg
                           case None => false
                           case Some(Eof) => false
                           case Some(Close) => false
                           case Some(Data(_)) => a.write.Done?
                           case Some(_) => true
    ensures stdinOpen && a.msg.Some? && a.msg.value.Data? && a.write.Done? ==> stdin == a.msg.value.data
    ensures stdin == if !stdinOpen then [] else if ClosesStdin(a) then Written(ClientData(a), a.write) else ClientData(a)
    ensures gone <==> a.msg.None? || a.msg.value.Close?
  {
    stdin, open, gone := [], stdinOpen, false;
    match a.msg {
      case Some(Data(data)) =>
        if stdinOpen {
          stdin := Written(data, a.write);
          open := a.write.Done?;
        }
      case Some(Eof) =>
        open := false;
      case Some(Close) =>
        open, gone := false, true;
      case None =>
        open, gone := false, true;
      case Some(_) =>
    }
  }

  /** The standard output arm: one chunk as one Data frame, or the end of the loop. */
  method ServeStdout(a: Arm, sent: seq<ChannelMessage>, stdout: Bytes, taken: nat)
    returns (end: End, now: seq<ChannelMessage>, t: nat)
    requires a.StdoutReady? && OutputSent(sent, stdout, taken)
    ensures OutputSent(now, stdout, t)
    ensures match ReadPipe(stdout[taken..], a.size, a.fails)
            case EndOfFile => end == Drained && now == sent && t == taken == |stdout|
            case ReadError => end == StdoutFailed && now == sent && t == taken
            case Chunk(bytes) =>
              && bytes != [] && t == taken + (if a.sendOk then |bytes| else 0)
              && now == sent + (if a.sendOk then [Data(stdout[taken..t])] else [])
              && end == (if a.sendOk then Draining else NotSent)
  {
    end, now, t := Draining, sent, taken;
    match ReadPipe(stdout[taken..], a.size, a.fails)
    case EndOfFile => end := Drained;
    case ReadError => end := StdoutFailed;
    case Chunk(bytes) =>
      if a.sendOk {
        OutputMore(sent, stdout, taken, Data(bytes));
        now, t := sent + [Data(bytes)], taken + |bytes|;
      } else {
        end := NotSent;
      }
  }

  /** The standard error arm: a frame that cannot be sent is dropped and the loop goes on. */
  method ServeStderr(a: Arm, sent: seq<ChannelMessage>, stderr: Bytes, errTaken: nat, ghost stdout: Bytes, ghost taken: nat)
    returns (now: seq<ChannelMessage>, t: nat, done: bool)
    requires a.StderrReady? && OutputSent(sent, stdout, taken) && errTaken <= |stderr|
    ensures OutputSent(now, stdout, taken) && errTaken <= t <= |stderr|
    ensures done || (a.sendOk && now == sent + [ExtendedData(1, stderr[errTaken..t])]) || (!a.sendOk && now == sent)
    ensures done ==> now == sent && t == errTaken && (a.fails || errTaken == |stderr|)
    ensures !done ==> !a.fails && t > errTaken
  {
    now, t, done := sent, errTaken, false;
    match ReadPipe(stderr[errTaken..], a.size, a.fails)
    case Chunk(bytes) =>
      t := errTaken + |bytes|;
      assert stderr[errTaken..t] == bytes;
      if a.sendOk {
        OutputMore(sent, stdout, taken, ExtendedData(1, bytes));
        now := sent + [ExtendedData(1, bytes)];
      }
    case _ => done := true;
  }

  /** The client closes the channel or is gone. */
  predicate Leaves(a: Arm) {
    match a
    case ClientSent(None, _) => true
    case ClientSent(Some(m), _) => m.Close?
    case _ => false
  }

  /** What the client and the child's exit have made of the arms so far. */
  ghost predicate InputServed(arms: seq<Arm>, stdinOpen: bool, stdin: Bytes, status: Option<U32>) {
    stdinOpen == StdinOpen(arms) && stdin == Delivered(arms) && status == Reaped(arms)
  }

  /** The client and exit arms; the output arms leave the input side alone. */
  method ServeInput(arms: seq<Arm>, n: nat, stdinOpen: bool, stdin: Bytes, status: Option<U32>)
    returns (end: End, open: bool, delivered: Bytes, seen: Option<U32>)
    requires n < |arms| && InputServed(arms[..n], stdinOpen, stdin, status)
    ensures InputServed(arms[..n + 1], open, delivered, seen)
    ensures end == if arms[n].ClientSent? && (arms[n].msg.None? || arms[n].msg.value.Close?) then ClientGone else Draining
  {
    DeliveredStep(arms, n);
    assert arms[..n + 1][..n] == arms[..n];
    end, open, delivered, seen := Draining, stdinOpen, stdin, status;
    if arms[n].ClientSent? {
      var more, o, gone := ServeClient(arms[n], stdinOpen);
      delivered, open := stdin + more, o;
      end := if gone then ClientGone else Draining;
    } else if arms[n].ChildExited? && status.None? {
      seen := arms[n].status;
    }
  }

  /** How one turn leaves the loop: the client is gone, standard output cannot be read or sent, or has
      ended; nothing else ends it. */
  ghost predicate EndsAs(a: Arm, end: End) {
    && (end.ClientGone? <==> Leaves(a))
    && (end.StdoutFailed? <==> a.StdoutReady? && a.fails)
    && (end.NotSent? ==> a.StdoutReady? && !a.sendOk)
    && (end.Drained? ==> a.StdoutReady?)
  }

  /** The turns of the standard error arm. */
  function StderrTurns(arms: seq<Arm>): nat {
    if arms == [] then 0
    else StderrTurns(arms[..|arms| - 1]) + if arms[|arms| - 1].StderrReady? then 1 else 0
  }

  predicate AllStderrSent(arms: seq<Arm>) {
    forall a <- arms :: a.StderrReady? ==> a.sendOk && !a.fails
  }

  /** Standard error so far: what was read of it has been sent, and each turn has read some of it until
      all was read, as long as reads and sends go well. */
  ghost predicate StderrSent(arms: seq<Arm>, sent: seq<ChannelMessage>, stderr: Bytes, errTaken: nat, done: bool) {
    && errTaken <= |stderr|
    && (AllStderrSent(arms) ==>
          && Collect(StderrIn, sent) == stderr[..errTaken]
          && (done ==> errTaken == |stderr|)
          && (errTaken == |stderr| || errTaken >= StderrTurns(arms)))
  }

  lemma StderrNext(arms: seq<Arm>, n: nat, sent: seq<ChannelMessage>, stderr: Bytes, errTaken: nat, done: bool,
                   now: seq<ChannelMessage>, t: nat, over: bool)
    requires n < |arms| && StderrSent(arms[..n], sent, stderr, errTaken, done)
    requires if arms[n].StderrReady? && !done
             then (if over then now == sent && t == errTaken && (arms[n].fails || errTaken == |stderr|)
                   else errTaken < t <= |stderr|
                        && now == if arms[n].sendOk then sent + [ExtendedData(1, stderr[errTaken..t])] else sent)
             else over == done && t == errTaken && (now == sent || exists data :: now == sent + [Data(data)])
    ensures StderrSent(arms[..n + 1], now, stderr, t, over)
  {
    assert arms[..n + 1] == arms[..n] + [arms[n]] && arms[..n + 1][..n] == arms[..n];
    assert AllStderrSent(arms[..n + 1]) ==> AllStderrSent(arms[..n]) && (arms[n] in arms[..n + 1]);
    if now != sent {
      CollectOne(StderrIn, sent, now[|sent|]);
      assert now == sent + [now[|sent|]];
      assert errTaken <= t <= |stderr| ==> stderr[..t] == stderr[..errTaken] + stderr[errTaken..t];
      assert Collect(StderrIn, sent) + [] == Collect(StderrIn, sent);
    }
  }

  /** What the output arms have done, and what the others have. */
  datatype Pipes = Pipes(sent: seq<ChannelMessage>, outTaken: nat, errTaken: nat, stderrDone: bool)

  datatype Input = Input(open: bool, delivered: Bytes, status: Option<U32>)

  ghost predicate Piped(arms: seq<Arm>, stdout: Bytes, stderr: Bytes, p: Pipes) {
    OutputSent(p.sent, stdout, p.outTaken) && StderrSent(arms, p.sent, stderr, p.errTaken, p.stderrDone)
  }

  /** The output arms; the others leave the pipes alone. */
  method ServeOutput(arms: seq<Arm>, n: nat, stdout: Bytes, stderr: Bytes, p: Pipes) returns (end: End, q: Pipes)
    requires n < |arms| && Piped(arms[..n], stdout, stderr, p)
    ensures Piped(arms[..n + 1], stdout, stderr, q) && (end.Drained? ==> q.outTaken == |stdout|)
    ensures !end.ClientGone? && (end.StdoutFailed? <==> arms[n].StdoutReady? && arms[n].fails)
    ensures end.NotSent? || end.Drained? ==> arms[n].StdoutReady?
    ensures end.NotSent? ==> !arms[n].sendOk
    ensures !arms[n].StdoutReady? ==> end.Draining?
  {
    end, q := Draining, p;
    if arms[n].StdoutReady? {
      var now, t;
      end, now, t := ServeStdout(arms[n], p.sent, stdout, p.outTaken);
      q := p.(sent := now, outTaken := t);
    } else if arms[n].StderrReady? && !p.stderrDone {
      var now, t, done := ServeStderr(arms[n], p.sent, stderr, p.errTaken, stdout, p.outTaken);
      q := p.(sent := now, errTaken := t, stderrDone := done);
    }
    StderrNext(arms, n, p.sent, stderr, p.errTaken, p.stderrDone, q.sent, q.errTaken, q.stderrDone);
  }

  method Turn(arms: seq<Arm>, n: nat, stdout: Bytes, stderr: Bytes, p: Pipes, i: Input)
    returns (end: End, q: Pipes, j: Input)
    requires n < |arms| && Piped(arms[..n], stdout, stderr, p)
    requires InputServed(arms[..n], i.open, i.delivered, i.status)
    ensures Piped(arms[..n + 1], stdout, stderr, q) && (end.Drained? ==> q.outTaken == |stdout|)
    ensures InputServed(arms[..n + 1], j.open, j.delivered, j.status)
    ensures EndsAs(arms[n], end)
  {
    var open, delivered, status;
    end, open, delivered, status := ServeInput(arms, n, i.open, i.delivered, i.status);
    j := Input(open, delivered, status);
    var outputEnd;
    outputEnd, q := ServeOutput(arms, n, stdout, stderr, p);
    if arms[n].StdoutReady? {
      end := outputEnd;
    }
  }

  /** The loop: `stdout` and `stderr` are all that the child ever writes to its pipes. */
  method Drain(arms: seq<Arm>, stdout: Bytes, stderr: Bytes)
    returns (end: End, n: nat, sent: seq<ChannelMessage>, stdin: Bytes, status: Option<U32>)
    ensures n <= |arms| && (end.Draining? ==> n == |arms|)
    ensures forall m <- sent :: IsOutput(m)
    ensures Collect(DataIn, sent) <= stdout
    ensures end.Drained? ==> Collect(DataIn, sent) == stdout
    ensures stdin == Delivered(arms[..n])
    ensures status == Reaped(arms[..n])
    ensures if n > 0 then EndsAs(arms[n - 1], end) else end.Draining?
    ensures forall i :: 0 <= i < n - 1 ==> !Leaves(arms[i])
    ensures AllStderrSent(arms[..n]) ==>
              Collect(StderrIn, sent) <= stderr
              && (Collect(StderrIn, sent) == stderr || |Collect(StderrIn, sent)| >= StderrTurns(arms[..n]))
  {
    end, n := Draining, 0;
    var pipes := Pipes([], 0, 0, false);
    var input := Input(true, [], None);
    while n < |arms| && end.Draining?
      invariant n <= |arms| && Piped(arms[..n], stdout, stderr, pipes)
      invariant InputServed(arms[..n], input.open, input.delivered, input.status)
      invariant end.Drained? ==> pipes.outTaken == |stdout|
      invariant if n > 0 then EndsAs(arms[n - 1], end) else end.Draining?
      invariant forall i :: 0 <= i < n - 1 ==> !Leaves(arms[i])
    {
      end, pipes, input := Turn(arms, n, stdout, stderr, pipes, input);
      n := n + 1;
    }
    assert stdout[..pipes.outTaken] <= stdout;
    sent, stdin, status := pipes.sent, input.delivered, input.status;
  }

  /** What the three closing sends put on the stream; each is attempted whatever became of the others. */
  function Closing(status: U32, sends: (bool, bool, bool)): seq<ChannelMessage> {
    (if sends.0 then [Eof] else []) + (if sends.1 then [ExitStatus(status)] else []) + (if sends.2 then [Close] else [])
  }

  predicate IsClosing(m: ChannelMessage) {
    m.Eof? || m.ExitStatus? || m.Close?
  }

  /** The frames that close the stream, as far as each could be sent. */
  function Tail(status: U32, sends: (bool, bool, bool)): seq<ChannelMessage> {
    match sends
    case (true, true, true) => [Eof, ExitStatus(status), Close]
    case (true, true, false) => [Eof, ExitStatus(status)]
    case (true, false, true) => [Eof, Close]
    case (true, false, false) => [Eof]
    case (false, true, true) => [ExitStatus(status), Close]
    case (false, true, false) => [ExitStatus(status)]
    case (false, false, true) => [Close]
    case (false, false, false) => []
  }

  /** The stream ends with those frames, and has none of the kind before. */
  ghost predicate Finishes(sent: seq<ChannelMessage>, status: U32, sends: (bool, bool, bool)) {
    var tail := Tail(status, sends);
    |tail| <= |sent| && sent[|sent| - |tail|..] == tail && forall f <- sent[..|sent| - |tail|] :: !IsClosing(f)
  }

  lemma FinishesWith(body: seq<ChannelMessage>, status: U32, sends: (bool, bool, bool))
    requires forall f <- body :: !IsClosing(f)
    ensures Finishes(body + Closing(status, sends), status, sends)
  {
    var tail := Tail(status, sends);
    assert Closing(status, sends) == tail;
    assert (body + tail)[..|body|] == body && (body + tail)[|body|..] == tail;
  }

  lemma CarriesNothing<U>(pick: ChannelMessage -> seq<U>, sent: seq<ChannelMessage>, m: ChannelMessage, ok: bool)
    requires pick(m) == []
    ensures Collect(pick, sent + if ok then [m] else []) == Collect(pick, sent)
  {
    if ok {
      CollectOne(pick, sent, m);
    } else {
      assert sent + [] == sent;
    }
  }

  lemma ClosingCarriesNothing<U>(pick: ChannelMessage -> seq<U>, body: seq<ChannelMessage>, status: U32,
                                 sends: (bool, bool, bool))
    requires pick(Eof) == [] && pick(ExitStatus(status)) == [] && pick(Close) == []
    ensures Collect(pick, body + Closing(status, sends)) == Collect(pick, body)
  {
    var one := body + if sends.0 then [Eof] else [];
    var two := one + if sends.1 then [ExitStatus(status)] else [];
    CarriesNothing(pick, body, Eof, sends.0);
    CarriesNothing(pick, one, ExitStatus(status), sends.1);
    CarriesNothing(pick, two, Close, sends.2);
    assert body + Closing(status, sends) == two + if sends.2 then [Close] else [];
  }

  lemma SplitAt<T>(s: seq<T>, k: nat)
    requires k <= |s|
    ensures s == s[..k] + s[k..]
  {
  }

  /** What a finished channel carries is what its loop sent. */
  lemma BodyCarriesAll<U>(pick: ChannelMessage -> seq<U>, sent: seq<ChannelMessage>, body: nat, status: U32,
                          sends: (bool, bool, bool))
    requires pick(Eof) == [] && pick(ExitStatus(status)) == [] && pick(Close) == []
    requires body <= |sent| && sent[body..] == Closing(status, sends)
    ensures Collect(pick, sent) == Collect(pick, sent[..body])
  {
    SplitAt(sent, body);
    ClosingCarriesNothing(pick, sent[..body], status, sends);
  }

  /** The whole channel: the loop, the child reaped (`reaped` is the wait after the loop, which runs only
      if none succeeded before), and the closing frames. `body` counts the frames sent by the loop. */
  method RunSubsystem(arms: seq<Arm>, stdout: Bytes, stderr: Bytes, reaped: Option<U32>, sends: (bool, bool, bool))
    returns (end: End, n: nat, sent: seq<ChannelMessage>, stdin: Bytes, body: nat, status: U32)
    ensures n <= |arms| && body <= |sent|
    ensures forall m <- sent[..body] :: IsOutput(m)
    ensures end.Draining? ==> n == |arms| && body == |sent|
    ensures !end.Draining? ==> sent[body..] == Closing(status, sends) && Finishes(sent, status, sends)
    ensures Collect(DataIn, sent) <= stdout
    ensures end.Drained? ==> Collect(DataIn, sent) == stdout
    ensures stdin == Delivered(arms[..n])
    ensures status == match Reaped(arms[..n]) case Some(s) => s case None => if reaped.Some? then reaped.value else 255
  {
    var seen;
    end, n, sent, stdin, seen := Drain(arms, stdout, stderr);
    body := |sent|;
    status := if seen.Some? then seen.value else if reaped.Some? then reaped.value else 255;
    if !end.Draining? {
      ClosingCarriesNothing(DataIn, sent, status, sends);
      FinishesWith(sent, status, sends);
      sent := sent + Closing(status, sends);
    }
  }

  /** What a trace of that shape says about its frames: no reply to any request, one Eof, one exit
      status and one Close, in that order and with no output after the Eof. */
  lemma TraceGrammar(sent: seq<ChannelMessage>, body: nat, status: U32, sends: (bool, bool, bool), i: nat, j: nat)
    requires body <= |sent| && (forall m <- sent[..body] :: IsOutput(m)) && sent[body..] == Closing(status, sends)
    requires i < j < |sent|
    ensures !sent[i].RequestSuccess? && !sent[i].RequestFailure?
    ensures sent[i].Eof? ==> sent[j].ExitStatus? || sent[j].Close?
    ensures sent[i].ExitStatus? ==> sent[j].Close?
    ensures !sent[i].Close?
  {
    if i < body {
      assert sent[i] == sent[..body][i] && sent[i] in sent[..body];
    } else {
      assert sent[i] == sent[body..][i - body] && sent[j] == sent[body..][j - body];
    }
  }
}
