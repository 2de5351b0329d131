/** Opening a session through the ControlMaster: the requests that the master sends for a client, and
    the child that the server starts from them. */
module SessionSetup {
  import opened Wrappers
  import opened Messages
  import opened Pumps
  import Session

  function EnvRequests(env: seq<(string, string)>): seq<ChannelMessage> {
    if env == [] then []
    else EnvRequests(env[..|env| - 1]) + [Request(Env(env[|env| - 1].0, env[|env| - 1].1), false)]
  }

  function PtyRequests(pty: Option<PtyReqParams>): seq<ChannelMessage> {
    match pty case Some(p) => [Request(PtyReq(p), true)] case None => []
  }

  function LaunchRequest(command: Option<string>): ChannelMessage {
    Request(match command case Some(line) => Exec(line) case None => Shell, true)
  }

  /** The terminal, the environment and the command of a client's request, in that order. */
  method SendRequests(request: MasterSessionRequest) returns (sent: seq<ChannelMessage>)
    ensures sent == PtyRequests(request.pty) + EnvRequests(request.env) + [LaunchRequest(request.command)]
  {
    sent := [];
    if request.pty.Some? {
      sent := sent + [Request(PtyReq(request.pty.value), true)];
    }
    for i := 0 to |request.env|
      invariant sent == PtyRequests(request.pty) + EnvRequests(request.env[..i])
    {
      assert request.env[..i + 1][..i] == request.env[..i];
      sent := sent + [Request(Env(request.env[i].0, request.env[i].1), false)];
    }
    assert request.env[..|request.env|] == request.env;
    sent := sent + [Request(match request.command case Some(line) => Exec(line) case None => Shell, true)];
  }

  /** The frames as the server receives them, with all its replies going out. */
  function Arriving(frames: seq<ChannelMessage>): (r: seq<Session.Incoming>)
    ensures |r| == |frames| && forall i :: 0 <= i < |r| ==> r[i] == Session.Incoming(Some(frames[i]), true, true)
  {
    seq(|frames|, i requires 0 <= i < |frames| => Session.Incoming(Some(frames[i]), true, true))
  }

  /** The pairs that the server's configuration lets through. */
  function Accepted(config: Session.Config, env: seq<(string, string)>): seq<(string, string)> {
    if env == [] then []
    else
      var last := env[|env| - 1];
      Accepted(config, env[..|env| - 1]) + if Session.EnvAccepted(config, last.0) then [last] else []
  }

  /** What the requests before the launch amount to. */
  ghost predicate Prepared(config: Session.Config, events: seq<Session.Incoming>, replies: nat,
                           pty: Option<PtyReqParams>, env: seq<(string, string)>) {
    && Collect(Session.ReplyIn(config), events) == seq(replies, i => RequestSuccess)
    && Session.LastPty(events) == pty
    && Collect(Session.PairIn(config), events) == env
    && forall i :: 0 <= i < |events| ==> !Session.EndsPhase(events[i])
  }

  lemma PreparePty(config: Session.Config, pty: Option<PtyReqParams>)
    ensures Prepared(config, Arriving(PtyRequests(pty)), |PtyRequests(pty)|, pty, [])
  {
    var events := Arriving(PtyRequests(pty));
    if pty.Some? {
      assert events == [events[0]] && events[..0] == [];
      CollectOne(Session.ReplyIn(config), [], events[0]);
      CollectOne(Session.PairIn(config), [], events[0]);
      assert [] + [events[0]] == events;
      assert seq(1, i => RequestSuccess) == [RequestSuccess];
    }
  }

  lemma PrepareEnv(config: Session.Config, events: seq<Session.Incoming>, replies: nat, pty: Option<PtyReqParams>,
                   env: seq<(string, string)>, pair: (string, string))
    requires Prepared(config, events, replies, pty, env)
    ensures var e := Session.Incoming(Some(Request(Env(pair.0, pair.1), false)), true, true);
            Prepared(config, events + [e], replies, pty, env + if Session.EnvAccepted(config, pair.0) then [pair] else [])
  {
    var e := Session.Incoming(Some(Request(Env(pair.0, pair.1), false)), true, true);
    CollectOne(Session.ReplyIn(config), events, e);
    CollectOne(Session.PairIn(config), events, e);
    assert (events + [e])[..|events|] == events;
    assert seq(replies, i => RequestSuccess) + [] == seq(replies, i => RequestSuccess);
    assert pair == (pair.0, pair.1);
  }

  lemma ArrivingOne(before: seq<ChannelMessage>, m: ChannelMessage)
    ensures Arriving(before + [m]) == Arriving(before) + [Session.Incoming(Some(m), true, true)]
  {
  }

  lemma Regroup<T>(a: seq<T>, b: seq<T>, c: seq<T>)
    ensures a + (b + c) == a + b + c
  {
  }

  lemma {:induction false} PrepareAll(config: Session.Config, pty: Option<PtyReqParams>, env: seq<(string, string)>)
    ensures Prepared(config, Arriving(PtyRequests(pty) + EnvRequests(env)), |PtyRequests(pty)|, pty, Accepted(config, env))
    decreases |env|
  {
    if env == [] {
      PreparePty(config, pty);
      assert PtyRequests(pty) + EnvRequests(env) == PtyRequests(pty);
    } else {
      var init, last := env[..|env| - 1], env[|env| - 1];
      PrepareAll(config, pty, init);
      var before := PtyRequests(pty) + EnvRequests(init);
      var m := Request(Env(last.0, last.1), false);
      PrepareEnv(config, Arriving(before), |PtyRequests(pty)|, pty, Accepted(config, init), last);
      assert EnvRequests(env) == EnvRequests(init) + [m];
      Regroup(PtyRequests(pty), EnvRequests(init), [m]);
      ArrivingOne(before, m);
    }
  }

  lemma LaunchEnds(config: Session.Config, before: seq<ChannelMessage>, replies: nat, pty: Option<PtyReqParams>,
                   env: seq<(string, string)>, command: Option<string>)
    requires Prepared(config, Arriving(before), replies, pty, env)
    ensures var events := Arriving(before + [LaunchRequest(command)]);
            && Collect(Session.ReplyIn(config), events) == seq(replies + 1, i => RequestSuccess)
            && Session.LastPty(events) == pty && Collect(Session.PairIn(config), events) == env
            && Session.EndsPhase(events[|before|])
            && forall i :: 0 <= i < |before| ==> !Session.EndsPhase(events[i])
  {
    var e := Session.Incoming(Some(LaunchRequest(command)), true, true);
    var events := Arriving(before + [LaunchRequest(command)]);
    ArrivingOne(before, LaunchRequest(command));
    assert events[..|before|] == Arriving(before);
    CollectOne(Session.ReplyIn(config), Arriving(before), e);
    CollectOne(Session.PairIn(config), Arriving(before), e);
    assert env + [] == env;
    assert seq(replies + 1, i => RequestSuccess) == seq(replies, i => RequestSuccess) + [RequestSuccess];
  }

  /** With no failure of the stream, the phase ends only at a message that ends it. */
  lemma LaunchedAt(config: Session.Config, events: seq<Session.Incoming>, launch: Session.Launch, sent: seq<ChannelMessage>)
    requires events != [] && Session.PhaseResult(config, events, launch, sent)
    requires var last := events[|events| - 1]; last.msg.Some? && last.sendOk && last.closeOk
    ensures !launch.Failed? && Session.EndsPhase(events[|events| - 1])
  {
  }

  /** The server starts exactly the child that the client asked for: its command, its terminal, and the
      first accepted pairs of its environment; and it answers the two requests whose answers the master
      waits for. */
  method OpenSession(config: Session.Config, request: MasterSessionRequest)
    returns (launch: Session.Launch, replies: seq<ChannelMessage>)
    ensures launch == Session.Child(request.command, request.pty, Session.Capped(Accepted(config, request.env)))
    ensures replies == seq(if request.pty.Some? then 2 else 1, i => RequestSuccess)
  {
    var frames := SendRequests(request);
    var n;
    launch, n, replies := Session.Handle(config, Arriving(frames));
    ghost var before := PtyRequests(request.pty) + EnvRequests(request.env);
    PrepareAll(config, request.pty, request.env);
    LaunchEnds(config, before, |PtyRequests(request.pty)|, request.pty, Accepted(config, request.env), request.command);
    ghost var events := Arriving(frames);
    assert frames == before + [LaunchRequest(request.command)];
    if !launch.Waiting? {
      LaunchedAt(config, events[..n], launch, replies);
      assert events[..n][n - 1] == events[n - 1];
    }
    assert events[..n] == events;
  }
}
