/** The server's session channel: the request phase that ends in at most one child, the child's
    environment, and the pump between the channel and the child's terminal. */
module Session {
  import opened Wrappers
  import opened Messages
  import opened Pumps
  import Subsystem

  // ---------------------------------------------------------------------------
  // Configuration
  // ---------------------------------------------------------------------------

  /** `installed` says which files exist on the server. */
  datatype Config = Config(acceptEnv: seq<string>, subsystems: map<string, string>, installed: string -> bool)

  /** An accepted name matches an entry exactly, or starts with an entry's text before its final star. */
  predicate Matches(entry: string, name: string) {
    if entry != [] && entry[|entry| - 1] == '*' then entry[..|entry| - 1] <= name else entry == name
  }

  predicate EnvAccepted(config: Config, name: string) {
    exists entry <- config.acceptEnv :: Matches(entry, name)
  }

  /** The client may set a name that the configuration lists, or that starts with the text before the
      final star of one it lists. */
  lemma AcceptedExactly(config: Config, name: string)
    ensures EnvAccepted(config, name) <==>
              || name in config.acceptEnv
              || exists prefix: string :: prefix + ['*'] in config.acceptEnv && prefix <= name
  {
    if EnvAccepted(config, name) {
      var entry :| entry in config.acceptEnv && Matches(entry, name);
      assert entry != [] && entry[|entry| - 1] == '*' ==> entry == entry[..|entry| - 1] + ['*'];
    }
    if name in config.acceptEnv {
      assert Matches(name, name);
    }
    forall prefix: string | prefix + ['*'] in config.acceptEnv && prefix <= name ensures EnvAccepted(config, name) {
      assert (prefix + ['*'])[..|prefix|] == prefix;
      assert Matches(prefix + ['*'], name);
    }
  }

  const SFTP: string := "sftp"

  const SFTP_SERVERS: seq<string> := [
    "/usr/lib/openssh/sftp-server", "/usr/libexec/openssh/sftp-server", "/usr/libexec/sftp-server",
    "/usr/lib/ssh/sftp-server"
  ]

  function FirstInstalled(paths: seq<string>, installed: string -> bool): (r: Option<string>)
    ensures r.Some? ==> exists i: nat :: i < |paths| && paths[i] == r.value && installed(paths[i])
                                         && forall j: nat :: j < i ==> !installed(paths[j])
    ensures r.None? ==> forall p <- paths :: !installed(p)
  {
    if paths == [] then None
    else if installed(paths[0]) then Some(paths[0])
    else
      var r := FirstInstalled(paths[1..], installed);
      assert r.Some? ==> forall i: nat :: i < |paths| - 1 ==> paths[i + 1] == paths[1..][i];
      r
  }

  function ResolveSubsystem(config: Config, name: string): Option<string> {
    if name in config.subsystems then Some(config.subsystems[name])
    else if name == SFTP then FirstInstalled(SFTP_SERVERS, config.installed)
    else None
  }

  /** A configured command wins over any server found on the machine, and only `sftp` has one of those. */
  lemma ResolvedExactly(config: Config, name: string, line: string)
    ensures ResolveSubsystem(config, name) == Some(line) <==>
              || (name in config.subsystems && config.subsystems[name] == line)
              || (name !in config.subsystems && name == "sftp" && config.installed(line)
                  && exists i: nat :: i < 4 && SFTP_SERVERS[i] == line
                                      && forall j: nat :: j < i ==> !config.installed(SFTP_SERVERS[j]))
  {
    assert |SFTP_SERVERS| == 4;
    if name !in config.subsystems && name == SFTP {
      var found := FirstInstalled(SFTP_SERVERS, config.installed);
      assert found.None? ==> forall i: nat :: i < 4 ==> SFTP_SERVERS[i] in SFTP_SERVERS;
      if i: nat :| i < 4 && SFTP_SERVERS[i] == line && config.installed(line)
                   && forall j: nat :: j < i ==> !config.installed(SFTP_SERVERS[j]) {
        var k: nat :| k < 4 && SFTP_SERVERS[k] == found.value && config.installed(found.value)
                      && forall j: nat :: j < k ==> !config.installed(SFTP_SERVERS[j]);
        assert k == i;
      }
    }
  }

  // ---------------------------------------------------------------------------
  // Request phase
  // ---------------------------------------------------------------------------

  /** What one `recv` returned, and whether a reply or a Close that it leads to would be sent. */
  datatype Incoming = Incoming(msg: Option<ChannelMessage>, sendOk: bool, closeOk: bool)

  predicate Supported(config: Config, r: RequestType) {
    !r.Signal? && (r.Subsystem? ==> ResolveSubsystem(config, r.name).Some?)
  }

  predicate WantsReply(e: Incoming) {
    e.msg.Some? && e.msg.value.Request? && e.msg.value.wantReply
  }

  /** The reply due to one message: none unless it is a request that wants one. */
  function ReplyTo(config: Config, e: Incoming): seq<ChannelMessage> {
    if !WantsReply(e) then []
    else if Supported(config, e.msg.value.requestType) then [RequestSuccess]
    else [RequestFailure]
  }

  function ReplyIn(config: Config): Incoming -> seq<ChannelMessage> {
    e => ReplyTo(config, e)
  }

  /** The pair that one message asks to add to the environment. */
  function AcceptedPair(config: Config, e: Incoming): seq<(string, string)> {
    if e.msg.Some? && e.msg.value.Request? && e.msg.value.requestType.Env?
       && EnvAccepted(config, e.msg.value.requestType.name)
    then [(e.msg.value.requestType.name, e.msg.value.requestType.value)]
    else []
  }

  function PairIn(config: Config): Incoming -> seq<(string, string)> {
    e => AcceptedPair(config, e)
  }

  const MAX_ENV: nat := 64

  function Capped<T>(s: seq<T>): (r: seq<T>)
    ensures r <= s && |r| == if |s| <= 64 then |s| else 64
  {
    if |s| <= MAX_ENV then s else s[..MAX_ENV]
  }

  function LastPty(events: seq<Incoming>): Option<PtyReqParams> {
    if events == [] then None
    else
      var last := events[|events| - 1].msg;
      if last.Some? && last.value.Request? && last.value.requestType.PtyReq? then Some(last.value.requestType.pty)
      else LastPty(events[..|events| - 1])
  }

  datatype Launch =
    | Waiting
    | Child(command: Option<string>, pty: Option<PtyReqParams>, env: seq<(string, string)>)
    | SubsystemChild(line: string, env: seq<(string, string)>)
    | Closed
    | Failed

  /** A message that ends the request phase, by starting a child or closing the channel. */
  predicate EndsPhase(e: Incoming) {
    e.msg.None? || e.msg.value.Close? || e.msg.value.Eof?
    || (e.msg.value.Request? && (e.msg.value.requestType.Shell? || e.msg.value.requestType.Exec?
                                 || e.msg.value.requestType.Subsystem?))
  }

  /** Before the child starts: every request is granted but signals and unknown subsystems, and the phase
      ends with a request for a child, the end of the channel, or its failure. */
  lemma PhaseMeaning(config: Config, e: Incoming)
    ensures ReplyTo(config, e) == [RequestFailure] <==>
              e.msg.Some? && e.msg.value.Request? && e.msg.value.wantReply &&
              match e.msg.value.requestType
              case Signal(_) => true
              case Subsystem(name) => ResolveSubsystem(config, name).None?
              case _ => false
    ensures ReplyTo(config, e) == [] <==> !(e.msg.Some? && e.msg.value.Request? && e.msg.value.wantReply)
    ensures ReplyTo(config, e) in [[], [RequestSuccess], [RequestFailure]]
    ensures EndsPhase(e) <==>
              match e.msg
              case None => true
              case Some(Close) => true
              case Some(Eof) => true
              case Some(Request(Shell, _)) => true
              case Some(Request(Exec(_), _)) => true
              case Some(Request(Subsystem(_), _)) => true
              case Some(_) => false
  {
  }

  ghost predicate AsksPty(e: Incoming, p: PtyReqParams) {
    e.msg == Some(Request(PtyReq(p), true)) || e.msg == Some(Request(PtyReq(p), false))
  }

  /** The terminal is the one of the last request for a terminal. */
  lemma {:induction false} LastPtyExactly(events: seq<Incoming>, p: PtyReqParams)
    ensures LastPty(events) == Some(p) <==>
            exists i: nat :: i < |events| && AsksPty(events[i], p)
                             && forall j: nat, q :: i < j < |events| ==> !AsksPty(events[j], q)
    decreases |events|
  {
    if events != [] {
      var init, last := events[..|events| - 1], events[|events| - 1];
      LastPtyExactly(init, p);
      if last.msg.Some? && last.msg.value.Request? && last.msg.value.requestType.PtyReq? {
        assert AsksPty(last, last.msg.value.requestType.pty);
      } else {
        assert forall q :: !AsksPty(last, q);
        assert forall i: nat :: i < |init| ==> events[i] == init[i];
      }
    }
  }

  /** What the requests before this point have accumulated and been told. */
  ghost predicate Gathered(config: Config, events: seq<Incoming>, sent: seq<ChannelMessage>,
                           pty: Option<PtyReqParams>, env: seq<(string, string)>) {
    && sent == Collect(ReplyIn(config), events)
    && pty == LastPty(events)
    && env == Capped(Collect(PairIn(config), events))
  }

  lemma CappedMore<T>(s: seq<T>, x: T)
    ensures Capped(s + [x]) == if |Capped(s)| < MAX_ENV then Capped(s) + [x] else Capped(s)
    ensures Capped(s + []) == Capped(s)
  {
    assert s + [] == s;
  }

  lemma GatheredNext(config: Config, events: seq<Incoming>, n: nat, sent: seq<ChannelMessage>,
                     pty: Option<PtyReqParams>, env: seq<(string, string)>)
    requires n < |events| && Gathered(config, events[..n], sent, pty, env)
    ensures Collect(ReplyIn(config), events[..n + 1]) == sent + ReplyTo(config, events[n])
    ensures Capped(Collect(PairIn(config), events[..n + 1])) ==
            if |env| < MAX_ENV then env + AcceptedPair(config, events[n]) else env
    ensures LastPty(events[..n + 1]) ==
            var m := events[n].msg;
            if m.Some? && m.value.Request? && m.value.requestType.PtyReq? then Some(m.value.requestType.pty) else pty
  {
    CollectNext(ReplyIn(config), events, n);
    CollectNext(PairIn(config), events, n);
    assert events[..n + 1][..n] == events[..n];
    var all := Collect(PairIn(config), events[..n]);
    if AcceptedPair(config, events[n]) != [] {
      CappedMore(all, AcceptedPair(config, events[n])[0]);
      assert AcceptedPair(config, events[n]) == [AcceptedPair(config, events[n])[0]];
    } else {
      assert all + [] == all && env + [] == env;
    }
  }

  /** How a finished request phase relates to the messages it took, the last of which ended it: a child
      starts only from a request that asks for it, with the last terminal request and the first accepted
      pairs, and every reply due has been sent. A failure is one of the stream and loses at most the last
      reply. */
  ghost predicate PhaseResult(config: Config, events: seq<Incoming>, launch: Launch, sent: seq<ChannelMessage>)
    requires events != []
  {
    var replies := Collect(ReplyIn(config), events);
    var last := events[|events| - 1].msg;
    var env := Capped(Collect(PairIn(config), events));
    match launch
    case Waiting => false
    case Child(command, pty, e) =>
      && sent == replies && pty == LastPty(events) && e == env
      && last.Some? && last.value.Request?
      && (match command
          case None => last.value.requestType == Shell
          case Some(line) => last.value.requestType == Exec(line))
    case SubsystemChild(line, e) =>
      && sent == replies && e == env
      && last.Some? && last.value.Request? && last.value.requestType.Subsystem?
      && ResolveSubsystem(config, last.value.requestType.name) == Some(line)
    case Closed =>
      && sent == replies + [Close] && last.Some?
      && (last.value.Request? ==>
            last.value.requestType.Subsystem? && ResolveSubsystem(config, last.value.requestType.name).None?)
      && (last.value.Request? || last.value.Close? || last.value.Eof?)
    case Failed =>
      && Collect(ReplyIn(config), events[..|events| - 1]) <= sent <= replies
      && (last.None? || !events[|events| - 1].sendOk || !events[|events| - 1].closeOk)
  }

  /** A reply, if one is wanted; `failed` when it could not be sent. */
  method SendReply(sent: seq<ChannelMessage>, want: bool, reply: ChannelMessage, sendOk: bool)
    returns (now: seq<ChannelMessage>, failed: bool)
    ensures failed <==> want && !sendOk
    ensures now == if want && sendOk then sent + [reply] else sent
  {
    now, failed := sent, false;
    if want {
      if sendOk {
        now := sent + [reply];
      } else {
        failed := true;
      }
    }
  }

  /** What the last message of the phase finds. */
  lemma LastMessage(config: Config, events: seq<Incoming>, e: Incoming, sent: seq<ChannelMessage>,
                    pty: Option<PtyReqParams>, env: seq<(string, string)>)
    requires EndsPhase(e) && Gathered(config, events, sent, pty, env)
    ensures var all := events + [e];
            && Collect(ReplyIn(config), all) == sent + ReplyTo(config, e) && all[|all| - 1] == e
            && Collect(ReplyIn(config), all[..|all| - 1]) == sent
            && LastPty(all) == pty && Capped(Collect(PairIn(config), all)) == env
  {
    assert (events + [e])[..|events|] == events && (events + [e])[..|events| + 1] == events + [e];
    GatheredNext(config, events + [e], |events|, sent, pty, env);
    assert env + [] == env;
  }

  method FinishSubsystem(config: Config, ghost events: seq<Incoming>, e: Incoming, name: string, want: bool,
                         sent: seq<ChannelMessage>, ghost pty: Option<PtyReqParams>, env: seq<(string, string)>)
    returns (launch: Launch, now: seq<ChannelMessage>)
    requires e.msg == Some(Request(Subsystem(name), want)) && Gathered(config, events, sent, pty, env)
    ensures PhaseResult(config, events + [e], launch, now)
  {
    LastMessage(config, events, e, sent, pty, env);
    assert sent + [] == sent;
    var failed;
    match ResolveSubsystem(config, name)
    case Some(line) =>
      now, failed := SendReply(sent, want, RequestSuccess, e.sendOk);
      launch := if failed then Failed else SubsystemChild(line, env);
    case None =>
      now, failed := SendReply(sent, want, RequestFailure, e.sendOk);
      if failed {
        return Failed, now;
      }
      launch := if e.closeOk then Closed else Failed;
      now := if e.closeOk then now + [Close] else now;
  }

  /** The last message of the phase. */
  method Finish(config: Config, ghost events: seq<Incoming>, e: Incoming, sent: seq<ChannelMessage>,
                pty: Option<PtyReqParams>, env: seq<(string, string)>)
    returns (launch: Launch, now: seq<ChannelMessage>)
    requires EndsPhase(e) && Gathered(config, events, sent, pty, env)
    ensures PhaseResult(config, events + [e], launch, now)
  {
    LastMessage(config, events, e, sent, pty, env);
    assert sent + [] == sent;
    match e.msg
    case None => return Failed, sent;
    case Some(Request(Shell, want)) =>
      var failed;
      now, failed := SendReply(sent, want, RequestSuccess, e.sendOk);
      launch := if failed then Failed else Child(None, pty, env);
    case Some(Request(Exec(command), want)) =>
      var failed;
      now, failed := SendReply(sent, want, RequestSuccess, e.sendOk);
      launch := if failed then Failed else Child(Some(command), pty, env);
    case Some(Request(Subsystem(name), want)) =>
      launch, now := FinishSubsystem(config, events, e, name, want, sent, pty, env);
    case Some(_) =>
      launch := if e.closeOk then Closed else Failed;
      now := if e.closeOk then sent + [Close] else sent;
  }

  /** A message that leaves the phase running unless its reply cannot be sent. */
  method Continue(config: Config, ghost events: seq<Incoming>, e: Incoming, sent: seq<ChannelMessage>,
                  pty: Option<PtyReqParams>, env: seq<(string, string)>)
    returns (failed: bool, now: seq<ChannelMessage>, p: Option<PtyReqParams>, v: seq<(string, string)>)
    requires !EndsPhase(e) && Gathered(config, events, sent, pty, env)
    ensures !failed ==> Gathered(config, events + [e], now, p, v)
    ensures failed ==> PhaseResult(config, events + [e], Failed, now)
  {
    assert (events + [e])[..|events|] == events && (events + [e])[..|events| + 1] == events + [e];
    GatheredNext(config, events + [e], |events|, sent, pty, env);
    assert sent + [] == sent && env + [] == env;
    failed, now, p, v := false, sent, pty, env;
    match e.msg.value
    case Request(PtyReq(params), want) =>
      p := Some(params);
      now, failed := SendReply(sent, want, RequestSuccess, e.sendOk);
    case Request(WindowChange(_), want) =>
      now, failed := SendReply(sent, want, RequestSuccess, e.sendOk);
    case Request(Env(name, value), want) =>
      if EnvAccepted(config, name) && |env| < MAX_ENV {
        v := env + [(name, value)];
      }
      now, failed := SendReply(sent, want, RequestSuccess, e.sendOk);
    case Request(Signal(_), want) =>
      now, failed := SendReply(sent, want, RequestFailure, e.sendOk);
    case _ =>
  }

  method Handle(config: Config, events: seq<Incoming>) returns (launch: Launch, n: nat, sent: seq<ChannelMessage>)
    ensures n <= |events|
    ensures launch.Waiting? ==> n == |events| && sent == Collect(ReplyIn(config), events[..n])
    ensures !launch.Waiting? ==> n > 0 && PhaseResult(config, events[..n], launch, sent)
    ensures forall i :: 0 <= i < n && EndsPhase(events[i]) ==> i == n - 1 && !launch.Waiting?
  {
    n, sent := 0, [];
    var pty, env := None, [];
    while n < |events|
      invariant n <= |events| && Gathered(config, events[..n], sent, pty, env)
      invariant forall i :: 0 <= i < n ==> !EndsPhase(events[i])
    {
      assert events[..n] + [events[n]] == events[..n + 1];
      n := n + 1;
      if EndsPhase(events[n - 1]) {
        launch, sent := Finish(config, events[..n - 1], events[n - 1], sent, pty, env);
        return;
      }
      var failed;
      failed, sent, pty, env := Continue(config, events[..n - 1], events[n - 1], sent, pty, env);
      if failed {
        return Failed, n, sent;
      }
    }
    assert events[..n] == events;
    launch := Waiting;
  }

  function Wanting(events: seq<Incoming>): seq<Incoming> {
    if events == [] then []
    else Wanting(events[..|events| - 1]) + if WantsReply(events[|events| - 1]) then [events[|events| - 1]] else []
  }

  /** Each request that wants a reply gets exactly one, in arrival order, telling whether it was taken. */
  lemma {:induction false} OneReplyEach(config: Config, events: seq<Incoming>, k: nat)
    ensures |Collect(ReplyIn(config), events)| == |Wanting(events)|
    ensures k < |Wanting(events)| ==>
              && WantsReply(Wanting(events)[k])
              && Collect(ReplyIn(config), events)[k] ==
                 if Supported(config, Wanting(events)[k].msg.value.requestType) then RequestSuccess else RequestFailure
  {
    if events != [] {
      OneReplyEach(config, events[..|events| - 1], k);
    }
  }

  /** The environment of the child holds only pairs that the client sent and the server accepts. */
  lemma {:induction false} PairsAccepted(config: Config, events: seq<Incoming>, k: nat)
    requires k < |Collect(PairIn(config), events)|
    ensures EnvAccepted(config, Collect(PairIn(config), events)[k].0)
    ensures exists e <- events :: AcceptedPair(config, e) == [Collect(PairIn(config), events)[k]]
  {
    var init, last := events[..|events| - 1], events[|events| - 1];
    if k < |Collect(PairIn(config), init)| {
      PairsAccepted(config, init, k);
      var e :| e in init && AcceptedPair(config, e) == [Collect(PairIn(config), events)[k]];
      assert e in events;
    } else {
      assert AcceptedPair(config, last) == [Collect(PairIn(config), events)[k]] && last in events;
    }
  }

  // ---------------------------------------------------------------------------
  // The child's environment
  // ---------------------------------------------------------------------------

  datatype User = User(name: string, home: string, shell: string, uid: nat)

  const USER: string := "USER"
  const LOGNAME: string := "LOGNAME"
  const HOME: string := "HOME"
  const SHELL: string := "SHELL"
  const PATH: string := "PATH"
  const TERM: string := "TERM"
  const SEARCH_PATH: string := "/usr/local/bin:/usr/bin:/bin"

  predicate IsIdentity(k: string) {
    k == USER || k == LOGNAME || k == HOME || k == SHELL || k == PATH
  }

  lemma NamesDiffer()
    ensures USER != LOGNAME && USER != HOME && USER != SHELL && USER != PATH && USER != TERM
    ensures LOGNAME != HOME && LOGNAME != SHELL && LOGNAME != PATH && LOGNAME != TERM
    ensures HOME != SHELL && HOME != PATH && HOME != TERM
    ensures SHELL != PATH && SHELL != TERM && PATH != TERM
  {
    assert USER[0] != HOME[0] && USER[0] != PATH[0] && USER[0] != TERM[0] && HOME[0] != PATH[0] && HOME[0] != TERM[0]
           && PATH[0] != TERM[0];
    assert |LOGNAME| == 7 && |SHELL| == 5;
  }

  /** The names and the search path that the child finds. */
  lemma IdentityNames()
    ensures USER == "USER" && LOGNAME == "LOGNAME" && HOME == "HOME" && SHELL == "SHELL" && PATH == "PATH"
    ensures TERM == "TERM" && SEARCH_PATH == "/usr/local/bin:/usr/bin:/bin"
  {
  }

  /** The value of the last pair with this name. */
  function LastValue(pairs: seq<(string, string)>, k: string): Option<string> {
    if pairs == [] then None
    else if pairs[|pairs| - 1].0 == k then Some(pairs[|pairs| - 1].1)
    else LastValue(pairs[..|pairs| - 1], k)
  }

  function Lookup(env: map<string, string>, k: string): Option<string> {
    if k in env then Some(env[k]) else None
  }

  /** Client pairs over the server's own environment, then the terminal, then the user's identity. A
      child that would need another user is refused unless the server is root, and so is a user name with
      a zero byte. */
  method ConfigureChild(inherited: map<string, string>, user: User, pairs: seq<(string, string)>,
                        term: Option<string>, euid: nat)
    returns (r: Option<map<string, string>>)
    ensures r.None? <==> (euid != user.uid && euid != 0) || '\0' in user.name
    ensures r.Some? ==>
              && Lookup(r.value, USER) == Lookup(r.value, LOGNAME) == Some(user.name)
              && Lookup(r.value, HOME) == Some(user.home) && Lookup(r.value, SHELL) == Some(user.shell)
              && Lookup(r.value, PATH) == Some(SEARCH_PATH)
    ensures r.Some? && term.Some? ==> Lookup(r.value, TERM) == term
    ensures r.Some? ==> forall k :: !IsIdentity(k) && (k == TERM ==> term.None?) ==>
              Lookup(r.value, k) == if LastValue(pairs, k).Some? then LastValue(pairs, k) else Lookup(inherited, k)
  {
    if euid != user.uid && euid != 0 {
      return None;
    }
    var env := inherited;
    for i := 0 to |pairs|
      invariant forall k :: Lookup(env, k) ==
                  if LastValue(pairs[..i], k).Some? then LastValue(pairs[..i], k) else Lookup(inherited, k)
    {
      assert pairs[..i + 1][..i] == pairs[..i];
      env := env[pairs[i].0 := pairs[i].1];
    }
    assert pairs[..|pairs|] == pairs;
    if term.Some? {
      env := env[TERM := term.value];
    }
    NamesDiffer();
    env := env[USER := user.name][LOGNAME := user.name][HOME := user.home][SHELL := user.shell][PATH := SEARCH_PATH];
    if '\0' in user.name {
      return None;
    }
    r := Some(env);
  }

  // ---------------------------------------------------------------------------
  // Between the channel and the terminal
  // ---------------------------------------------------------------------------

  datatype PtyRead = PtyChunk(bytes: Bytes) | PtyEof | PtyGone | PtyError | Spurious

  datatype PtyArm =
    | PtyReadable(read: PtyRead, sendOk: bool)
    | FromClient(msg: Option<ChannelMessage>, attempts: seq<FdWrite>, resizeOk: bool, replyOk: bool)
    | ChildWait(status: Option<U32>)

  /** `Blocked` is a run that stops inside a write to the terminal. */
  datatype PtyEnd = Pumping | Left | Exited(status: U32) | Faulted | Blocked

  function PtyIn(a: PtyArm): Bytes {
    if a.PtyReadable? && a.read.PtyChunk? then a.read.bytes else []
  }

  function KeysIn(a: PtyArm): Bytes {
    if a.FromClient? && a.msg.Some? then DataIn(a.msg.value) else []
  }

  /** A running session serves only resizing, which can fail, and signals. */
  predicate Served(r: RequestType, resizeOk: bool) {
    (r.WindowChange? && resizeOk) || r.Signal?
  }

  /** The reply that one message of the running session puts on the stream. */
  function RunningReply(a: PtyArm): seq<ChannelMessage> {
    if a.FromClient? && a.replyOk && a.msg.Some? && a.msg.value.Request? && a.msg.value.wantReply then
      [if Served(a.msg.value.requestType, a.resizeOk) then RequestSuccess else RequestFailure]
    else []
  }

  /** While the child runs, a request that wants a reply is granted if it is a signal, or a change of the
      window that the terminal takes, and refused otherwise. */
  lemma RunningReplies(a: PtyArm, r: RequestType)
    requires a.FromClient? && a.replyOk && a.msg == Some(Request(r, true))
    ensures RunningReply(a) ==
            match r
            case Signal(_) => [RequestSuccess]
            case WindowChange(_) => if a.resizeOk then [RequestSuccess] else [RequestFailure]
            case _ => [RequestFailure]
  {
  }

  function Replies(m: ChannelMessage): seq<ChannelMessage> {
    if m.RequestSuccess? || m.RequestFailure? then [m] else []
  }

  predicate IsPumpFrame(m: ChannelMessage) {
    m.Data? || m.RequestSuccess? || m.RequestFailure?
  }

  /** What a pump owes after its turns: replies and output on the stream, keystrokes at the terminal. */
  ghost predicate Pumped(arms: seq<PtyArm>, end: PtyEnd, lost: bool, sent: seq<ChannelMessage>, keys: Bytes) {
    && Collect(Replies, sent) == Collect(RunningReply, arms)
    && (forall m <- sent :: IsPumpFrame(m))
    && (if lost then Collect(DataIn, sent) <= Collect(PtyIn, arms) else Collect(DataIn, sent) == Collect(PtyIn, arms))
    && (if end.Faulted? || end.Blocked? then keys <= Collect(KeysIn, arms) else keys == Collect(KeysIn, arms))
  }

  /** One turn: what it adds to the stream and to the terminal. */
  ghost predicate Turned(a: PtyArm, end: PtyEnd, lost: bool, out: seq<ChannelMessage>, keys: Bytes) {
    && |out| <= 1 && (forall m <- out :: IsPumpFrame(m))
    && Collect(Replies, out) == RunningReply(a)
    && (if lost then Collect(DataIn, out) <= PtyIn(a) else Collect(DataIn, out) == PtyIn(a))
    && (if end.Faulted? || end.Blocked? then keys <= KeysIn(a) else keys == KeysIn(a))
  }

  lemma PumpedNext(arms: seq<PtyArm>, n: nat, sent: seq<ChannelMessage>, keys: Bytes,
                   end: PtyEnd, lost: bool, out: seq<ChannelMessage>, more: Bytes)
    requires n < |arms| && Pumped(arms[..n], Pumping, false, sent, keys) && Turned(arms[n], end, lost, out, more)
    ensures Pumped(arms[..n + 1], end, lost, sent + out, keys + more)
  {
    CollectNext(RunningReply, arms, n);
    CollectNext(PtyIn, arms, n);
    CollectNext(KeysIn, arms, n);
    CollectMore(Replies, sent, out);
    CollectMore(DataIn, sent, out);
  }

  lemma OneFrame(m: ChannelMessage)
    ensures Collect(Replies, [m]) == Replies(m) && Collect(DataIn, [m]) == DataIn(m)
  {
    assert [m][..0] == [];
  }

  lemma OnlyReply(m: ChannelMessage, out: seq<ChannelMessage>)
    requires out == [m] && (m.RequestSuccess? || m.RequestFailure?)
    ensures Collect(Replies, out) == out && Collect(DataIn, out) == []
  {
    OneFrame(m);
  }

  lemma OneAtMost(a: PtyArm)
    ensures RunningReply(a) == [] || RunningReply(a) == [RequestSuccess] || RunningReply(a) == [RequestFailure]
  {
  }

  lemma ReplyTurned(a: PtyArm, out: seq<ChannelMessage>)
    requires a.FromClient? && a.msg.Some? && !a.msg.value.Data? && out == RunningReply(a)
    ensures Turned(a, Pumping, false, out, [])
  {
    OneAtMost(a);
    if out != [] {
      OnlyReply(out[0], out);
    }
  }

  method PumpRequest(a: PtyArm, r: RequestType, want: bool) returns (out: seq<ChannelMessage>)
    requires a.FromClient? && a.msg == Some(Request(r, want))
    ensures out == RunningReply(a)
  {
    out := [];
    if want && a.replyOk {
      match r
      case WindowChange(_) => out := [if a.resizeOk then RequestSuccess else RequestFailure];
      case Signal(_) => out := [RequestSuccess];
      case _ => out := [RequestFailure];
    }
  }

  method PumpClient(a: PtyArm) returns (end: PtyEnd, out: seq<ChannelMessage>, keys: Bytes)
    requires a.FromClient?
    ensures Turned(a, end, false, out, keys)
    ensures end.Left? <==> Leaves(a)
    ensures !end.Exited?
  {
    end, out, keys := Pumping, [], [];
    match a.msg
    case Some(Data(data)) =>
      var outcome;
      outcome, keys := WriteAllToFd(data, a.attempts);
      end := if outcome.Ended? then Pumping else if outcome.Running? then Blocked else Faulted;
    case Some(Request(r, want)) =>
      out := PumpRequest(a, r, want);
      ReplyTurned(a, out);
    case Some(Close) => end := Left;
    case None => end := Left;
    case Some(_) =>
  }

  /** The pump stops and the child is waited for: its terminal has ended or output cannot be sent, or the
      client has closed the channel or is gone. */
  predicate Leaves(a: PtyArm) {
    match a
    case PtyReadable(PtyEof, _) => true
    case PtyReadable(PtyGone, _) => true
    case PtyReadable(PtyChunk(_), sendOk) => !sendOk
    case PtyReadable(_, _) => false
    case FromClient(None, _, _, _) => true
    case FromClient(Some(m), _, _, _) => m.Close?
    case ChildWait(_) => false
  }

  method PumpTerminal(a: PtyArm) returns (end: PtyEnd, lost: bool, out: seq<ChannelMessage>)
    requires a.PtyReadable?
    ensures Turned(a, end, lost, out, [])
    ensures lost ==> end == Left
    ensures end.Pumping? || end.Left? || end.Faulted?
    ensures (end.Left? <==> Leaves(a)) && (end.Faulted? <==> a.read.PtyError?)
  {
    end, lost, out := Pumping, false, [];
    match a.read
    case PtyEof => end := Left;
    case PtyChunk(bytes) =>
      if a.sendOk {
        out := [Data(bytes)];
        OneFrame(out[0]);
      } else {
        end, lost := Left, true;
      }
    case PtyGone => end := Left;
    case PtyError => end := Faulted;
    case Spurious =>
  }

  /** How one turn leaves the pump. */
  ghost predicate EndsAs(a: PtyArm, end: PtyEnd) {
    && (end.Left? <==> Leaves(a))
    && (end.Exited? <==> a.ChildWait? && a.status.Some?)
    && (end.Exited? ==> a == ChildWait(Some(end.status)))
    && (a.ChildWait? ==> !end.Pumping?)
  }

  method PumpTurn(a: PtyArm) returns (end: PtyEnd, lost: bool, out: seq<ChannelMessage>, keys: Bytes)
    ensures Turned(a, end, lost, out, keys) && EndsAs(a, end)
    ensures end.Pumping? ==> !lost
  {
    end, lost, out, keys := Faulted, false, [], [];
    match a
    case PtyReadable(_, _) => end, lost, out := PumpTerminal(a);
    case FromClient(_, _, _, _) => end, out, keys := PumpClient(a);
    case ChildWait(status) => end := if status.Some? then Exited(status.value) else Faulted;
  }

  method IoPump(arms: seq<PtyArm>) returns (end: PtyEnd, n: nat, lost: bool, sent: seq<ChannelMessage>, keys: Bytes)
    ensures n <= |arms| && (end.Pumping? ==> n == |arms| && !lost)
    ensures Pumped(arms[..n], end, lost, sent, keys)
    ensures if n > 0 then EndsAs(arms[n - 1], end) else end.Pumping?
    ensures forall i :: 0 <= i < n - 1 ==> !Leaves(arms[i]) && !arms[i].ChildWait?
  {
    end, n, lost, sent, keys := Pumping, 0, false, [], [];
    while n < |arms| && end.Pumping?
      invariant n <= |arms| && (end.Pumping? ==> !lost)
      invariant Pumped(arms[..n], end, lost, sent, keys)
      invariant if n > 0 then EndsAs(arms[n - 1], end) else end.Pumping?
      invariant forall i :: 0 <= i < n - 1 ==> !Leaves(arms[i]) && !arms[i].ChildWait?
    {
      var out, more;
      end, lost, out, more := PumpTurn(arms[n]);
      PumpedNext(arms, n, sent, keys, end, lost, out, more);
      n, sent, keys := n + 1, sent + out, keys + more;
    }
  }

  // ---------------------------------------------------------------------------
  // The whole session
  // ---------------------------------------------------------------------------

  /** The wait after a pump that left its loop. */
  datatype Reap = Reaps(status: U32) | WaitFails | TimesOut

  lemma {:induction false} PhaseFrames(config: Config, events: seq<Incoming>)
    ensures Collect(Replies, Collect(ReplyIn(config), events)) == Collect(ReplyIn(config), events)
    ensures Collect(DataIn, Collect(ReplyIn(config), events)) == []
    ensures forall f <- Collect(ReplyIn(config), events) :: !Subsystem.IsClosing(f)
  {
    if events != [] {
      var init, out := events[..|events| - 1], ReplyTo(config, events[|events| - 1]);
      PhaseFrames(config, init);
      CollectMore(Replies, Collect(ReplyIn(config), init), out);
      CollectMore(DataIn, Collect(ReplyIn(config), init), out);
      if out != [] {
        OneFrame(out[0]);
        assert out == [out[0]];
      }
    }
  }

  lemma Regroup<T>(a: seq<T>, b: seq<T>, c: seq<T>)
    ensures a + b + c == a + (b + c)
  {
  }

  lemma {:induction false} Appended<T, U>(pick: T -> seq<U>, xs: seq<T>, ys: seq<T>)
    ensures Collect(pick, xs + ys) == Collect(pick, xs) + Collect(pick, ys)
  {
    if ys == [] {
      assert xs + ys == xs;
    } else {
      var init := ys[..|ys| - 1];
      Appended(pick, xs, init);
      assert (xs + ys)[..|xs + ys| - 1] == xs + init && (xs + ys)[|xs + ys| - 1] == ys[|ys| - 1];
      Regroup(Collect(pick, xs), Collect(pick, init), pick(ys[|ys| - 1]));
    }
  }

  /** What `run_child` reports: the status, or nothing when it returns an error. */
  function Status(end: PtyEnd, reap: Reap): Option<U32> {
    match end
    case Exited(s) => Some(s)
    case Left => (match reap case Reaps(s) => Some(s) case WaitFails => None case TimesOut => Some(255))
    case _ => None
  }

  predicate Stuck(end: PtyEnd) {
    end.Faulted? || end.Blocked?
  }

  lemma FinishesAfter(before: seq<ChannelMessage>, sent: seq<ChannelMessage>, status: U32, sends: (bool, bool, bool))
    requires Subsystem.Finishes(sent, status, sends) && forall f <- before :: !Subsystem.IsClosing(f)
    ensures Subsystem.Finishes(before + sent, status, sends)
  {
    var k := |sent| - |Subsystem.Tail(status, sends)|;
    assert (before + sent)[..|before| + k] == before + sent[..k];
    assert (before + sent)[|before| + k..] == sent[k..];
  }

  /** The child's half of the session: the pump and, unless it failed, the closing frames. The status is
      the child's own when its exit is seen; when the pump left its loop before, it is what the wait then
      gives, or 255 after a wait in vain. */
  method RunChild(arms: seq<PtyArm>, reap: Reap, sends: (bool, bool, bool))
    returns (end: PtyEnd, m: nat, lost: bool, sent: seq<ChannelMessage>, keys: Bytes)
    ensures m <= |arms| && (end.Pumping? ==> m == |arms|)
    ensures Collect(Replies, sent) == Collect(RunningReply, arms[..m])
    ensures Collect(DataIn, sent) <= Collect(PtyIn, arms[..m]) && keys <= Collect(KeysIn, arms[..m])
    ensures !lost ==> Collect(DataIn, sent) == Collect(PtyIn, arms[..m])
    ensures !Stuck(end) ==> keys == Collect(KeysIn, arms[..m])
    ensures m > 0 && arms[m - 1].ChildWait? && arms[m - 1].status.Some? ==>
              end.Exited? && Subsystem.Finishes(sent, arms[m - 1].status.value, sends)
    ensures end.Exited? ==> m > 0 && arms[m - 1] == ChildWait(Some(end.status))
    ensures end.Left? <==> m > 0 && Leaves(arms[m - 1])
    ensures end.Left? && reap.Reaps? ==> Subsystem.Finishes(sent, reap.status, sends)
    ensures end.Left? && reap.TimesOut? ==> Subsystem.Finishes(sent, 255, sends)
    ensures end.Pumping? || Stuck(end) || (end.Left? && reap.WaitFails?) ==> forall f <- sent :: !Subsystem.IsClosing(f)
  {
    end, m, lost, sent, keys := IoPump(arms);
    var status := Status(end, reap);
    if status.Some? {
      Subsystem.ClosingCarriesNothing(Replies, sent, status.value, sends);
      Subsystem.ClosingCarriesNothing(DataIn, sent, status.value, sends);
      Subsystem.FinishesWith(sent, status.value, sends);
      sent := sent + Subsystem.Closing(status.value, sends);
    }
  }

  /** A running subsystem: its arms, all that its process writes, and the wait after the loop. */
  datatype SubsystemRun = SubsystemRun(arms: seq<Subsystem.Arm>, stdout: Bytes, stderr: Bytes, reaped: Option<U32>)

  lemma {:induction false} OutputHasNoReplies(sent: seq<ChannelMessage>)
    requires forall m <- sent :: Subsystem.IsOutput(m)
    ensures Collect(Replies, sent) == []
    decreases |sent|
  {
    if sent != [] {
      OutputHasNoReplies(sent[..|sent| - 1]);
      assert Subsystem.IsOutput(sent[|sent| - 1]);
    }
  }

  /** A subsystem's channel carries no reply, whatever its client asks. */
  method ServeSubsystem(run: SubsystemRun, sends: (bool, bool, bool)) returns (sent: seq<ChannelMessage>)
    ensures Collect(Replies, sent) == [] && Collect(DataIn, sent) <= run.stdout
  {
    var end, n, stdin, body, status;
    end, n, sent, stdin, body, status := Subsystem.RunSubsystem(run.arms, run.stdout, run.stderr, run.reaped, sends);
    OutputHasNoReplies(sent[..body]);
    if !end.Draining? {
      Subsystem.BodyCarriesAll(Replies, sent, body, status, sends);
    } else {
      assert sent[..body] == sent;
    }
  }

  predicate Launched(l: Launch) {
    l.Child? || l.SubsystemChild?
  }

  /** What a request phase that started a process has sent. */
  lemma LaunchedResult(config: Config, events: seq<Incoming>, launch: Launch, sent: seq<ChannelMessage>)
    requires events != [] && Launched(launch) && PhaseResult(config, events, launch, sent)
    ensures Collect(Replies, sent) == Collect(ReplyIn(config), events) && Collect(DataIn, sent) == []
    ensures launch.env == Capped(Collect(PairIn(config), events)) && forall f <- sent :: !Subsystem.IsClosing(f)
  {
    PhaseFrames(config, events);
  }

  /** The process of a session, after the frames of its request phase. */
  method ServeProcess(launch: Launch, before: seq<ChannelMessage>, arms: seq<PtyArm>, reap: Reap, run: SubsystemRun,
                      sends: (bool, bool, bool))
    returns (m: nat, sent: seq<ChannelMessage>)
    requires Launched(launch) && Collect(DataIn, before) == [] && forall f <- before :: !Subsystem.IsClosing(f)
    ensures m <= |arms| && (m > 0 ==> launch.Child?)
    ensures Collect(Replies, sent) == Collect(Replies, before) + Collect(RunningReply, arms[..m])
    ensures launch.Child? ==> Collect(DataIn, sent) <= Collect(PtyIn, arms[..m])
    ensures launch.SubsystemChild? ==> Collect(DataIn, sent) <= run.stdout
    ensures launch.Child? && m > 0 && arms[m - 1].ChildWait? && arms[m - 1].status.Some? ==>
              Subsystem.Finishes(sent, arms[m - 1].status.value, sends)
  {
    m := 0;
    var more;
    if launch.Child? {
      var end, lost, keys;
      end, m, lost, more, keys := RunChild(arms, reap, sends);
      if m > 0 && arms[m - 1].ChildWait? && arms[m - 1].status.Some? {
        FinishesAfter(before, more, arms[m - 1].status.value, sends);
      }
    } else {
      more := ServeSubsystem(run, sends);
    }
    Appended(Replies, before, more);
    Appended(DataIn, before, more);
    sent := before + more;
  }

  /** The request phase and the process that it may start; `setupOk` says whether terminal, pipes and
      process came up. Over the whole session one process starts at most, and each request that the phase
      or the pump took and that wants a reply has got exactly the one due to it, in order; nothing else
      looks like a reply. */
  method RunSession(config: Config, events: seq<Incoming>, setupOk: bool, arms: seq<PtyArm>, reap: Reap,
                    run: SubsystemRun, sends: (bool, bool, bool))
    returns (launch: Launch, n: nat, m: nat, sent: seq<ChannelMessage>, children: nat)
    ensures n <= |events| && m <= |arms| && (m > 0 ==> launch.Child?)
    ensures children == if Launched(launch) && setupOk then 1 else 0
    ensures Launched(launch) ==>
              Collect(Replies, sent) == Collect(ReplyIn(config), events[..n]) + Collect(RunningReply, arms[..m])
    ensures launch.Child? ==> Collect(DataIn, sent) <= Collect(PtyIn, arms[..m])
    ensures launch.SubsystemChild? ==> Collect(DataIn, sent) <= run.stdout
    ensures launch.Child? && setupOk && m > 0 && arms[m - 1].ChildWait? && arms[m - 1].status.Some? ==>
              Subsystem.Finishes(sent, arms[m - 1].status.value, sends)
    ensures Launched(launch) ==> launch.env == Capped(Collect(PairIn(config), events[..n]))
    ensures launch.Waiting? ==> sent == Collect(ReplyIn(config), events[..n])
    ensures launch.Closed? || launch.Failed? ==> n > 0 && PhaseResult(config, events[..n], launch, sent)
    ensures forall i :: 0 <= i < n && EndsPhase(events[i]) ==> i == n - 1
  {
    launch, n, sent := Handle(config, events);
    m, children := 0, 0;
    if Launched(launch) {
      LaunchedResult(config, events[..n], launch, sent);
      if setupOk {
        children := 1;
        m, sent := ServeProcess(launch, sent, arms, reap, run, sends);
      }
    }
  }
}
