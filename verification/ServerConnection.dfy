/** The server's per-connection loop: the remote-forward table with its policy and limit, and the
    permits that bound concurrent channels. */
module ServerConnection {
  import opened Wrappers
  import opened Messages
  import Text

  type Key = (string, U16)

  /** Names a spawned forward task; never reused. */
  type Handle = nat

  datatype Refusal = NotAllowed | AlreadyActive | LimitReached

  /** `loopbackIp` stands for the standard library's address parser: whether a string is an IP
      address in the loopback range. `wording` gives the text of a refusal. */
  datatype Config = Config(
    maxChannels: nat,
    maxForwards: nat,
    remoteForwardAllowlist: seq<string>,
    loopbackIp: string -> bool,
    wording: (Refusal, Key) -> string)

  // ---------------------------------------------------------------------------
  // Policy
  // ---------------------------------------------------------------------------

  predicate ExactHostPortMatch(entry: string, host: string, port: U16) {
    match Text.FindLast(entry, ':')
    case None => false
    case Some(i) =>
      match Text.ParseU16(entry[i + 1..])
      case None => false
      case Some(p) => entry[..i] == host && p == port
  }

  predicate RemoteForwardAllowed(config: Config, key: Key) {
    || Text.Lower(key.0) == "localhost"
    || config.loopbackIp(key.0)
    || exists entry <- config.remoteForwardAllowlist :: ExactHostPortMatch(entry, key.0, key.1)
  }

  /** An allowlist entry matches one host and one port: no wildcard, and the split is at the last
      colon, so IPv6 hosts need no brackets. */
  lemma ExactMatchMeaning(entry: string, host: string, port: U16)
    ensures ExactHostPortMatch(entry, host, port) <==>
            exists digits: string :: entry == host + [':'] + digits && ':' !in digits
                                  && Text.ParseU16(digits) == Some(port)
  {
    if ExactHostPortMatch(entry, host, port) {
      var i := Text.FindLast(entry, ':').value;
      assert entry == host + [':'] + entry[i + 1..];
    }
    if digits: string :| entry == host + [':'] + digits && ':' !in digits && Text.ParseU16(digits) == Some(port) {
      LastColon(host, digits);
    }
  }

  lemma LastColon(host: string, digits: string)
    requires ':' !in digits
    ensures Text.FindLast(host + [':'] + digits, ':') == Some(|host|)
    ensures (host + [':'] + digits)[..|host|] == host && (host + [':'] + digits)[|host| + 1..] == digits
  {
    var entry := host + [':'] + digits;
    assert entry[|host| + 1..] == digits;
    Text.FindLastUnique(entry, ':', |host|);
  }

  lemma ExactMatchIsExact(host: string, port: U16, other: string, otherPort: U16)
    ensures ExactHostPortMatch(host + ":" + Text.Decimal(port), other, otherPort) <==> host == other && port == otherPort
  {
    var digits := Text.Decimal(port);
    var entry := host + ":" + digits;
    assert !Text.IsDigit(':');
    Text.ParseDecimal(port);
    ExactMatchMeaning(entry, host, port);
    assert entry == host + [':'] + digits;
    assert ExactHostPortMatch(entry, host, port);
  }

  /** The entry is the host, a colon and a numeral of the port. */
  ghost predicate Names(entry: string, addr: string, port: U16) {
    exists digits: string :: entry == addr + [':'] + digits && ':' !in digits && Text.Spells(digits, port)
  }

  /** What a client may have bound: `localhost` in any case, an address in the loopback range, or a host
      and port that some entry of the allowlist names. */
  ghost predicate MayBind(config: Config, addr: string, port: U16) {
    || Text.SameSpelling(addr, "localhost")
    || config.loopbackIp(addr)
    || exists entry <- config.remoteForwardAllowlist :: Names(entry, addr, port)
  }

  lemma NamesExactly(entry: string, addr: string, port: U16)
    ensures ExactHostPortMatch(entry, addr, port) <==> Names(entry, addr, port)
  {
    ExactMatchMeaning(entry, addr, port);
    forall digits: string ensures Text.ParseU16(digits) == Some(port) <==> Text.Spells(digits, port) {
      Text.ParseU16Exactly(digits, port);
    }
  }

  lemma LocalhostExactly(addr: string)
    ensures Text.Lower(addr) == "localhost" <==> Text.SameSpelling(addr, "localhost")
  {
    Text.LowerUnchanged("localhost");
    Text.LowerExactly(addr, "localhost");
  }

  lemma AllowedExactly(config: Config, addr: string, port: U16)
    ensures RemoteForwardAllowed(config, (addr, port)) <==> MayBind(config, addr, port)
  {
    LocalhostExactly(addr);
    forall entry ensures ExactHostPortMatch(entry, addr, port) <==> Names(entry, addr, port) {
      NamesExactly(entry, addr, port);
    }
  }

  // ---------------------------------------------------------------------------
  // The loop as a function of its events
  // ---------------------------------------------------------------------------

  /** `spawned` remembers the key of every forward task ever started. */
  datatype Forwards = Forwards(table: map<Key, Handle>, spawned: seq<Key>, aborted: set<Handle>)

  /** `granted[i]` says whether the i-th accepted stream got a permit; a stream that did not was
      answered once with `ResourceShortage`, as `shortages` records. */
  datatype Channels = Channels(free: nat, running: set<nat>, granted: seq<bool>, shortages: seq<nat>)

  datatype State = State(forwards: Forwards, channels: Channels, sent: seq<ControlMessage>, open: bool)

  function Initial(config: Config): State {
    State(Forwards(map[], [], {}), Channels(config.maxChannels, {}, [], []), [], true)
  }

  datatype Event =
    | StreamAccepted
    | ConnectionLost
    | TaskFinished(stream: nat)
    | Received(msg: ControlMessage, sendOk: bool)
    | ControlClosed

  function Refused(config: Config, forwards: map<Key, Handle>, key: Key): Option<Refusal> {
    if !RemoteForwardAllowed(config, key) then Some(NotAllowed)
    else if key in forwards then Some(AlreadyActive)
    else if |forwards| >= config.maxForwards then Some(LimitReached)
    else None
  }

  /** The answer to one request. */
  function Answer(config: Config, forwards: map<Key, Handle>, key: Key): ControlMessage {
    match Refused(config, forwards, key)
    case None => TcpForwardConfirm(key.1)
    case Some(r) => TcpForwardFailure(config.wording(r, key))
  }

  /** A confirmed request enters the table before its answer is sent. */
  function Request(config: Config, f: Forwards, key: Key): Forwards {
    if Refused(config, f.table, key).Some? then f
    else f.(table := f.table[key := |f.spawned|], spawned := f.spawned + [key])
  }

  function Cancel(f: Forwards, key: Key): Forwards {
    if key in f.table then f.(table := f.table - {key}, aborted := f.aborted + {f.table[key]}) else f
  }

  function Accept(c: Channels): Channels {
    var i := |c.granted|;
    if c.free == 0 then c.(granted := c.granted + [false], shortages := c.shortages + [i])
    else c.(granted := c.granted + [true], free := c.free - 1, running := c.running + {i})
  }

  function Finish(c: Channels, i: nat): Channels {
    if i in c.running then c.(running := c.running - {i}, free := c.free + 1) else c
  }

  function Send(sent: seq<ControlMessage>, msg: ControlMessage, ok: bool): seq<ControlMessage> {
    if ok then sent + [msg] else sent
  }

  function Step(config: Config, s: State, e: Event): State {
    match e
    case StreamAccepted => s.(channels := Accept(s.channels))
    case TaskFinished(i) => s.(channels := Finish(s.channels, i))
    case Received(TcpForwardRequest(addr, port), ok) =>
      s.(forwards := Request(config, s.forwards, (addr, port)),
         sent := Send(s.sent, Answer(config, s.forwards.table, (addr, port)), ok),
         open := ok)
    case Received(TcpForwardCancel(addr, port), _) => s.(forwards := Cancel(s.forwards, (addr, port)))
    case Received(KeepAlive(n), ok) => s.(sent := Send(s.sent, KeepAliveAck(n), ok))
    case Received(_, _) => s
    case ConnectionLost => s.(open := false)
    case ControlClosed => s.(open := false)
  }

  /** Tasks may still finish after the loop has ended. */
  function Run(config: Config, s: State, events: seq<Event>): State
    decreases events
  {
    if events == [] then s
    else if !s.open && !events[0].TaskFinished? then Run(config, s, events[1..])
    else Run(config, Step(config, s, events[0]), events[1..])
  }

  // ---------------------------------------------------------------------------
  // What every run keeps
  // ---------------------------------------------------------------------------

  /** Every forward task ever spawned is in the table under its own key or has been aborted, never
      both: one live task per key. */
  ghost predicate ForwardsInv(config: Config, f: Forwards) {
    && |f.table| <= config.maxForwards
    && (forall k <- f.table :: RemoteForwardAllowed(config, k))
    && (forall k <- f.table :: f.table[k] < |f.spawned| && f.spawned[f.table[k]] == k)
    && (forall h <- f.aborted :: h < |f.spawned|)
    && (forall h :: 0 <= h < |f.spawned| ==>
          (h in f.aborted <==> !(f.spawned[h] in f.table && f.table[f.spawned[h]] == h)))
  }

  /** The positions of the streams that got no permit, in order. */
  ghost function Ungranted(granted: seq<bool>): seq<nat> {
    if granted == [] then []
    else Ungranted(granted[..|granted| - 1]) + (if granted[|granted| - 1] then [] else [|granted| - 1])
  }

  /** Streams hold permits or were refused exactly once, in order. */
  ghost predicate ChannelsInv(config: Config, c: Channels) {
    && |c.running| + c.free == config.maxChannels
    && (forall i <- c.running :: i < |c.granted| && c.granted[i])
    && c.shortages == Ungranted(c.granted)
  }

  ghost predicate Inv(config: Config, s: State) {
    ForwardsInv(config, s.forwards) && ChannelsInv(config, s.channels)
  }

  lemma RequestKeeps(config: Config, f: Forwards, key: Key)
    requires ForwardsInv(config, f)
    ensures ForwardsInv(config, Request(config, f, key))
  {
    var g := Request(config, f, key);
    if Refused(config, f.table, key).None? {
      assert forall k <- f.table :: g.table[k] == f.table[k];
      forall h | 0 <= h < |g.spawned|
        ensures h in g.aborted <==> !(g.spawned[h] in g.table && g.table[g.spawned[h]] == h)
      {
        if h < |f.spawned| {
          assert g.spawned[h] == f.spawned[h];
          assert f.spawned[h] == key ==> h in f.aborted;
        }
      }
    }
  }

  lemma CancelKeeps(config: Config, f: Forwards, key: Key)
    requires ForwardsInv(config, f)
    ensures ForwardsInv(config, Cancel(f, key))
  {
    var g := Cancel(f, key);
    if key in f.table {
      assert g.table.Keys == f.table.Keys - {key};
      forall h | 0 <= h < |g.spawned|
        ensures h in g.aborted <==> !(g.spawned[h] in g.table && g.table[g.spawned[h]] == h)
      {
      }
    }
  }

  lemma AcceptKeeps(config: Config, c: Channels)
    requires ChannelsInv(config, c)
    ensures ChannelsInv(config, Accept(c))
  {
    var d := Accept(c);
    assert d.granted[..|c.granted|] == c.granted;
  }

  lemma FinishKeeps(config: Config, c: Channels, i: nat)
    requires ChannelsInv(config, c)
    ensures ChannelsInv(config, Finish(c, i))
  {
    if i in c.running {
      assert c.running == Finish(c, i).running + {i};
    }
  }

  lemma StepKeeps(config: Config, s: State, e: Event)
    requires Inv(config, s)
    ensures Inv(config, Step(config, s, e))
  {
    match e
    case StreamAccepted => AcceptKeeps(config, s.channels);
    case TaskFinished(i) => FinishKeeps(config, s.channels, i);
    case Received(TcpForwardRequest(addr, port), _) => RequestKeeps(config, s.forwards, (addr, port));
    case Received(TcpForwardCancel(addr, port), _) => CancelKeeps(config, s.forwards, (addr, port));
    case _ =>
  }

  lemma {:induction false} RunKeeps(config: Config, s: State, events: seq<Event>)
    requires Inv(config, s)
    ensures Inv(config, Run(config, s, events))
    decreases events
  {
    if events != [] {
      StepKeeps(config, s, events[0]);
      RunKeeps(config, Step(config, s, events[0]), events[1..]);
      RunKeeps(config, s, events[1..]);
    }
  }

  /** In every run: the table stays within its limit and the policy, one live forward task exists per
      key, and running channels plus free permits equal the permits there were. */
  lemma EveryRun(config: Config, events: seq<Event>)
    ensures Inv(config, Run(config, Initial(config), events))
  {
    RunKeeps(config, Initial(config), events);
  }

  /** A stream is turned away exactly when every permit is held. */
  lemma RefusedExactlyWhenFull(config: Config, c: Channels)
    requires ChannelsInv(config, c)
    ensures |Accept(c).granted| == |c.granted| + 1
    ensures Accept(c).granted[|c.granted|] <==> |c.running| < config.maxChannels
    ensures Accept(c).shortages == c.shortages <==> |c.running| < config.maxChannels
  {
  }

  // ---------------------------------------------------------------------------
  // What is granted, and what becomes free again
  // ---------------------------------------------------------------------------

  /** A request is confirmed, under its own port, exactly when the client may bind there, nothing is bound
      there yet and the table has room; and only then anything changes: its key joins the table. */
  lemma GrantedExactly(config: Config, f: Forwards, addr: string, port: U16)
    ensures Answer(config, f.table, (addr, port)) == TcpForwardConfirm(port) <==>
            MayBind(config, addr, port) && (addr, port) !in f.table && |f.table| < config.maxForwards
    ensures Answer(config, f.table, (addr, port)).TcpForwardConfirm? || Answer(config, f.table, (addr, port)).TcpForwardFailure?
    ensures var g := Request(config, f, (addr, port));
            && (Answer(config, f.table, (addr, port)).TcpForwardFailure? ==> g == f)
            && (Answer(config, f.table, (addr, port)).TcpForwardConfirm? ==>
                  g.table.Keys == f.table.Keys + {(addr, port)} && g.aborted == f.aborted)
  {
    AllowedExactly(config, addr, port);
  }

  /** A refusal says why: what may not be bound at all, then what is bound already, then the limit. */
  lemma RefusalReasons(config: Config, table: map<Key, Handle>, addr: string, port: U16)
    ensures var answer := Answer(config, table, (addr, port));
            && (!MayBind(config, addr, port) ==> answer == TcpForwardFailure(config.wording(NotAllowed, (addr, port))))
            && (MayBind(config, addr, port) && (addr, port) in table ==>
                  answer == TcpForwardFailure(config.wording(AlreadyActive, (addr, port))))
            && (MayBind(config, addr, port) && (addr, port) !in table && |table| >= config.maxForwards ==>
                  answer == TcpForwardFailure(config.wording(LimitReached, (addr, port))))
  {
    AllowedExactly(config, addr, port);
  }

  /** In every run only what clients may bind is bound, and never more than the limit. */
  lemma BoundWithinPolicy(config: Config, events: seq<Event>)
    ensures var table := Run(config, Initial(config), events).forwards.table;
            |table| <= config.maxForwards && forall k <- table :: MayBind(config, k.0, k.1)
  {
    EveryRun(config, events);
    var table := Run(config, Initial(config), events).forwards.table;
    forall k | k in table ensures MayBind(config, k.0, k.1) {
      AllowedExactly(config, k.0, k.1);
    }
  }

  /** A cancelled forward is gone and its task aborted, all others stay, and its key can be asked for again. */
  lemma CancelFrees(config: Config, f: Forwards, addr: string, port: U16)
    requires ForwardsInv(config, f) && (addr, port) in f.table
    ensures var g := Cancel(f, (addr, port));
            && g.table.Keys == f.table.Keys - {(addr, port)} && (forall k <- g.table :: g.table[k] == f.table[k])
            && g.aborted == f.aborted + {f.table[(addr, port)]}
            && Answer(config, g.table, (addr, port)) == TcpForwardConfirm(port)
  {
    var g := Cancel(f, (addr, port));
    assert g.table.Keys == f.table.Keys - {(addr, port)};
    assert |g.table.Keys| == |f.table.Keys| - 1;
  }

  /** A finished channel gives its permit to the next stream, even when all were held. */
  lemma PermitReused(config: Config, c: Channels, i: nat)
    requires ChannelsInv(config, c) && i in c.running
    ensures var d := Accept(Finish(c, i));
            d.granted == c.granted + [true] && d.running == c.running - {i} + {|c.granted|} && d.free == c.free
  {
  }

  function FinishAll(c: Channels, order: seq<nat>): Channels
    decreases order
  {
    if order == [] then c else FinishAll(Finish(c, order[0]), order[1..])
  }

  /** Once all channels have finished, in any order, all permits are free. */
  lemma {:induction false} AllPermitsReturn(config: Config, c: Channels, order: seq<nat>)
    requires ChannelsInv(config, c) && forall i <- c.running :: i in order
    ensures FinishAll(c, order).free == config.maxChannels && FinishAll(c, order).running == {}
    decreases order
  {
    if order == [] {
      assert c.running == {};
    } else {
      FinishKeeps(config, c, order[0]);
      assert order == [order[0]] + order[1..];
      AllPermitsReturn(config, Finish(c, order[0]), order[1..]);
    }
  }

  /** Each keep-alive is acknowledged with its own number while the loop runs. */
  lemma KeepAliveAnswered(config: Config, s: State, n: U64)
    requires s.open
    ensures Run(config, s, [Received(KeepAlive(n), true)]) == s.(sent := s.sent + [KeepAliveAck(n)])
  {
    var events := [Received(KeepAlive(n), true)];
    assert events[1..] == [];
  }

  /** The loop ends with its connection, with its control stream, and when an answer cannot be sent. */
  lemma LoopEnds(config: Config, s: State, addr: string, port: U16)
    ensures !Step(config, s, ConnectionLost).open && !Step(config, s, ControlClosed).open
    ensures Step(config, s, Received(TcpForwardRequest(addr, port), true)).open
    ensures var t := Step(config, s, Received(TcpForwardRequest(addr, port), false)); !t.open && t.sent == s.sent
  {
  }

  /** After the loop has ended nothing is sent, granted, cancelled or accepted any more. */
  lemma {:induction false} ClosedIsQuiet(config: Config, s: State, events: seq<Event>)
    requires !s.open
    ensures var t := Run(config, s, events);
            !t.open && t.sent == s.sent && t.forwards == s.forwards && t.channels.granted == s.channels.granted
    decreases events
  {
    if events != [] {
      ClosedIsQuiet(config, if events[0].TaskFinished? then Step(config, s, events[0]) else s, events[1..]);
    }
  }

  // ---------------------------------------------------------------------------
  // Replies
  // ---------------------------------------------------------------------------

  ghost function AnswerTo(config: Config, s: State, e: Event): seq<ControlMessage> {
    match e
    case Received(TcpForwardRequest(addr, port), ok) =>
      if ok then [Answer(config, s.forwards.table, (addr, port))] else []
    case _ => []
  }

  /** The answers to the forward requests that the open loop handled. */
  ghost function Answers(config: Config, s: State, events: seq<Event>): seq<ControlMessage>
    decreases events
  {
    if events == [] then []
    else if !s.open && !events[0].TaskFinished? then Answers(config, s, events[1..])
    else AnswerTo(config, s, events[0]) + Answers(config, Step(config, s, events[0]), events[1..])
  }

  function Replies(sent: seq<ControlMessage>): seq<ControlMessage> {
    if sent == [] then []
    else
      var last := sent[|sent| - 1];
      Replies(sent[..|sent| - 1]) + (if last.TcpForwardConfirm? || last.TcpForwardFailure? then [last] else [])
  }

  lemma RepliesAfterSend(sent: seq<ControlMessage>, msg: ControlMessage)
    ensures Replies(sent + [msg]) ==
            Replies(sent) + (if msg.TcpForwardConfirm? || msg.TcpForwardFailure? then [msg] else [])
  {
    assert (sent + [msg])[..|sent|] == sent;
  }

  lemma StepReplies(config: Config, s: State, e: Event)
    ensures Replies(Step(config, s, e).sent) == Replies(s.sent) + AnswerTo(config, s, e)
  {
    match e
    case Received(TcpForwardRequest(addr, port), ok) =>
      RepliesAfterSend(s.sent, Answer(config, s.forwards.table, (addr, port)));
    case Received(KeepAlive(n), ok) => RepliesAfterSend(s.sent, KeepAliveAck(n));
    case _ =>
  }

  /** Each request that could be answered is answered once, in arrival order, with the decision made
      on the table as it stood; nothing else looks like an answer. */
  lemma {:induction false} OneAnswerPerRequest(config: Config, s: State, events: seq<Event>)
    ensures Replies(Run(config, s, events).sent) == Replies(s.sent) + Answers(config, s, events)
    decreases events
  {
    if events == [] {
    } else if !s.open && !events[0].TaskFinished? {
      OneAnswerPerRequest(config, s, events[1..]);
    } else {
      StepReplies(config, s, events[0]);
      OneAnswerPerRequest(config, Step(config, s, events[0]), events[1..]);
    }
  }

  // ---------------------------------------------------------------------------
  // The loop itself
  // ---------------------------------------------------------------------------

  class Connection {
    const config: Config
    var forwardTasks: map<Key, Handle>
    var freePermits: nat
    var running: set<nat>
    var open: bool
    // What has happened so far.
    var spawned: seq<Key>
    var aborted: set<Handle>
    var granted: seq<bool>
    var shortages: seq<nat>
    var sent: seq<ControlMessage>

    function View(): State
      reads this
    {
      State(Forwards(forwardTasks, spawned, aborted), Channels(freePermits, running, granted, shortages), sent, open)
    }

    constructor (config: Config)
      ensures View() == Initial(config) && this.config == config
    {
      this.config := config;
      forwardTasks, freePermits, running, open := map[], config.maxChannels, {}, true;
      spawned, aborted, granted, shortages, sent := [], {}, [], [], [];
    }

    method OnStream()
      modifies this
      ensures View() == Step(config, old(View()), StreamAccepted)
    {
      var i := |granted|;
      if freePermits == 0 {
        granted, shortages := granted + [false], shortages + [i];
        return;
      }
      granted := granted + [true];
      freePermits := freePermits - 1;
      running := running + {i};
    }

    method OnTaskFinished(i: nat)
      modifies this
      ensures View() == Step(config, old(View()), TaskFinished(i))
    {
      if i in running {
        running := running - {i};
        freePermits := freePermits + 1;
      }
    }

    method OnForwardRequest(addr: string, port: U16, sendOk: bool)
      modifies this
      ensures View() == Step(config, old(View()), Received(TcpForwardRequest(addr, port), sendOk))
    {
      var key := (addr, port);
      var reply;
      if !RemoteForwardAllowed(config, key) {
        reply := TcpForwardFailure(config.wording(NotAllowed, key));
      } else if key in forwardTasks {
        reply := TcpForwardFailure(config.wording(AlreadyActive, key));
      } else if |forwardTasks| >= config.maxForwards {
        reply := TcpForwardFailure(config.wording(LimitReached, key));
      } else {
        forwardTasks := forwardTasks[key := |spawned|];
        spawned := spawned + [key];
        reply := TcpForwardConfirm(port);
      }
      if sendOk {
        sent := sent + [reply];
      }
      open := sendOk;
    }

    method OnForwardCancel(addr: string, port: U16, sendOk: bool)
      modifies this
      ensures View() == Step(config, old(View()), Received(TcpForwardCancel(addr, port), sendOk))
    {
      if (addr, port) in forwardTasks {
        aborted := aborted + {forwardTasks[(addr, port)]};
        forwardTasks := forwardTasks - {(addr, port)};
      }
    }

    method Handle(events: seq<Event>)
      modifies this
      ensures View() == Run(config, old(View()), events)
      ensures Inv(config, old(View())) ==>
                Inv(config, View()) && forall k <- forwardTasks :: MayBind(config, k.0, k.1)
    {
      ghost var before := View();
      for n := 0 to |events|
        invariant Run(config, View(), events[n..]) == Run(config, before, events)
      {
        assert events[n..][0] == events[n] && events[n..][1..] == events[n + 1..];
        if !open && !events[n].TaskFinished? {
          continue;
        }
        match events[n] {
          case StreamAccepted => OnStream();
          case TaskFinished(i) => OnTaskFinished(i);
          case Received(TcpForwardRequest(addr, port), ok) => OnForwardRequest(addr, port, ok);
          case Received(TcpForwardCancel(addr, port), ok) => OnForwardCancel(addr, port, ok);
          case Received(KeepAlive(seqNo), ok) =>
            if ok {
              sent := sent + [KeepAliveAck(seqNo)];
            }
          case Received(_, _) =>
          case ConnectionLost => open := false;
          case ControlClosed => open := false;
        }
      }
      if Inv(config, before) {
        RunKeeps(config, before, events);
        forall k | k in forwardTasks ensures MayBind(config, k.0, k.1) {
          AllowedExactly(config, k.0, k.1);
        }
      }
    }
  }
}
