/** The ControlMaster's accept loop: how it counts clients and when it shuts down. */
module MasterLoop {
  import opened Wrappers

  /** Clock readings. */
  type Time = nat

  /** Where the loop is: at its top, in the select that accepts or waits out the idle timeout since a
      given time, in the select that accepts or takes a done message, or past the loop. */
  datatype Position = Top | IdleSelect(since: Time) | BusySelect | ShutDown | AcceptFailed

  /** `done` is the number of unconsumed done messages. `accepted` numbers the handlers, and `busy`
      records every clock reading at which some handler was running. */
  datatype State = State(
    at: Position,
    active: nat,
    running: set<nat>,
    done: nat,
    accepted: nat,
    now: Time,
    busy: set<Time>)

  const Initial: State := State(Top, 0, {}, 0, 0, 0, {})

  datatype Event =
    | EnterSelect
    | Accept
    | AcceptError
    | TakeDone
    | TimerFires
    | HandlerEnds(handler: nat)
    | Tick

  predicate Selecting(s: State) {
    s.at.IdleSelect? || s.at.BusySelect?
  }

  /** An event that cannot happen where the loop stands changes nothing. */
  function Step(timeout: Option<Time>, s: State, e: Event): State {
    match e
    case EnterSelect =>
      if !s.at.Top? then s
      else if s.active == 0 && timeout.Some? then s.(at := IdleSelect(s.now))
      else s.(at := BusySelect)
    case Accept =>
      if !Selecting(s) then s
      else
        s.(at := Top, active := s.active + 1, running := s.running + {s.accepted}, accepted := s.accepted + 1,
           busy := s.busy + {s.now})
    case AcceptError =>
      if Selecting(s) then s.(at := AcceptFailed) else s
    case TakeDone =>
      if s.at.BusySelect? && s.active > 0 && s.done > 0 then s.(at := Top, active := s.active - 1, done := s.done - 1)
      else s
    case TimerFires =>
      if s.at.IdleSelect? && timeout.Some? && s.now >= s.at.since + timeout.value then s.(at := ShutDown) else s
    case HandlerEnds(h) =>
      if h in s.running then s.(running := s.running - {h}, done := s.done + 1) else s
    case Tick =>
      s.(now := s.now + 1, busy := if s.running != {} then s.busy + {s.now + 1} else s.busy)
  }

  function Run(timeout: Option<Time>, s: State, events: seq<Event>): State
    decreases events
  {
    if events == [] then s else Run(timeout, Step(timeout, s, events[0]), events[1..])
  }

  /** Every client is counted until its done message has been taken; while the loop waits out the
      timeout, no handler has run since the wait began. */
  ghost predicate Inv(timeout: Option<Time>, s: State) {
    && s.active == |s.running| + s.done
    && (forall h <- s.running :: h < s.accepted)
    && (forall t <- s.busy :: t <= s.now)
    && (s.at.IdleSelect? ==> timeout.Some? && s.active == 0 && s.at.since <= s.now && forall t <- s.busy :: t <= s.at.since)
    && (s.at.BusySelect? && timeout.Some? ==> s.active > 0)
    && (s.at.ShutDown? ==> timeout.Some?)
  }

  lemma Insert(s: set<nat>, x: nat)
    requires x !in s
    ensures |s + {x}| == |s| + 1
  {
  }

  lemma Delete(s: set<nat>, x: nat)
    requires x in s
    ensures |s - {x}| == |s| - 1
  {
  }

  lemma AcceptKeeps(timeout: Option<Time>, s: State)
    requires Inv(timeout, s)
    ensures Inv(timeout, Step(timeout, s, Accept))
  {
    Insert(s.running, s.accepted);
  }

  lemma EndKeeps(timeout: Option<Time>, s: State, h: nat)
    requires Inv(timeout, s)
    ensures Inv(timeout, Step(timeout, s, HandlerEnds(h)))
  {
    if h in s.running {
      Delete(s.running, h);
    }
  }

  lemma StepKeeps(timeout: Option<Time>, s: State, e: Event)
    requires Inv(timeout, s)
    ensures Inv(timeout, Step(timeout, s, e))
  {
    if e.Accept? {
      AcceptKeeps(timeout, s);
    } else if e.HandlerEnds? {
      EndKeeps(timeout, s, e.handler);
    }
  }

  /** The counter equals the running handlers plus the unconsumed done messages, in every run; so a
      done message is only ever taken from a positive counter. */
  lemma {:induction false} CountIsExact(timeout: Option<Time>, s: State, events: seq<Event>)
    requires Inv(timeout, s)
    ensures Inv(timeout, Run(timeout, s, events))
    decreases events
  {
    if events != [] {
      StepKeeps(timeout, s, events[0]);
      CountIsExact(timeout, Step(timeout, s, events[0]), events[1..]);
    }
  }

  /** The loop ends by timeout exactly in this step: when the wait is over, and then no handler is
      running, no done message is waiting, and none ran at any time in the full timeout before. */
  lemma ShutsDownOnlyWhenIdle(timeout: Option<Time>, s: State, e: Event)
    requires Inv(timeout, s) && !s.at.ShutDown?
    ensures var t := Step(timeout, s, e);
            t.at.ShutDown? ==>
              && timeout.Some? && t.running == {} && t.done == 0 && t.active == 0
              && (forall u <- t.busy :: u + timeout.value <= t.now)
    ensures Step(timeout, s, e).at.ShutDown? <==>
            e.TimerFires? && s.at.IdleSelect? && s.now >= s.at.since + timeout.value
  {
  }

  /** Every run that ends by timeout has a last idle stretch of the full timeout. */
  lemma {:induction false} EveryShutdownWasIdle(timeout: Option<Time>, s: State, events: seq<Event>) returns (n: nat)
    requires Inv(timeout, s) && !s.at.ShutDown? && Run(timeout, s, events).at.ShutDown?
    ensures n < |events| && events[n].TimerFires?
    ensures var t := Run(timeout, s, events[..n]);
            && timeout.Some? && t.running == {} && t.done == 0
            && (forall u <- t.busy :: u + timeout.value <= t.now)
    decreases events
  {
    var t := Step(timeout, s, events[0]);
    ShutsDownOnlyWhenIdle(timeout, s, events[0]);
    if t.at.ShutDown? {
      n := 0;
    } else {
      StepKeeps(timeout, s, events[0]);
      var m := EveryShutdownWasIdle(timeout, t, events[1..]);
      n := m + 1;
      assert events[..n][0] == events[0] && events[..n][1..] == events[1..][..m];
    }
  }

  // ---------------------------------------------------------------------------
  // Shutting down and serving do happen
  // ---------------------------------------------------------------------------

  function Ticks(n: nat): seq<Event> {
    if n == 0 then [] else [Tick] + Ticks(n - 1)
  }

  lemma RunFirst(timeout: Option<Time>, s: State, e: Event, rest: seq<Event>)
    ensures Run(timeout, s, [e] + rest) == Run(timeout, Step(timeout, s, e), rest)
  {
    assert ([e] + rest)[1..] == rest;
  }

  lemma {:induction false} RunTicks(timeout: Option<Time>, s: State, n: nat, rest: seq<Event>)
    requires s.running == {}
    ensures Run(timeout, s, Ticks(n) + rest) == Run(timeout, s.(now := s.now + n), rest)
    decreases n
  {
    if n == 0 {
      assert Ticks(n) + rest == rest;
    } else {
      RunFirst(timeout, s, Tick, Ticks(n - 1) + rest);
      assert Ticks(n) + rest == [Tick] + (Ticks(n - 1) + rest);
      RunTicks(timeout, s.(now := s.now + 1), n - 1, rest);
    }
  }

  /** A loop at its top without clients ends when nobody comes for the timeout, and no sooner. */
  lemma IdleShutdownExactly(t: Time, s: State, n: nat)
    requires Inv(Some(t), s) && s.at.Top? && s.active == 0
    ensures Run(Some(t), s, [EnterSelect] + (Ticks(n) + [TimerFires])).at.ShutDown? <==> n >= t
  {
    var waiting := s.(at := IdleSelect(s.now));
    RunFirst(Some(t), s, EnterSelect, Ticks(n) + [TimerFires]);
    assert s.running == {};
    RunTicks(Some(t), waiting, n, [TimerFires]);
    RunFirst(Some(t), waiting.(now := s.now + n), TimerFires, []);
    assert [TimerFires] + [] == [TimerFires];
  }

  /** Without a timeout the loop never ends by itself. */
  lemma NeverWithoutTimeout(events: seq<Event>)
    ensures !Run(None, Initial, events).at.ShutDown?
  {
    CountIsExact(None, Initial, events);
  }

  ghost predicate Ended(s: State) {
    s.at.ShutDown? || s.at.AcceptFailed?
  }

  /** What can happen next on the way to the end, when nobody new connects: a handler ends, its message
      is taken, the loop selects, or the wait runs out. */
  lemma NextToEnd(t: Time, s: State) returns (e: Event)
    requires Inv(Some(t), s) && !Ended(s)
    ensures e != Accept && e != AcceptError && Inv(Some(t), Step(Some(t), s, e))
    ensures s.running != {} ==> Step(Some(t), s, e).running < s.running && Step(Some(t), s, e).at == s.at
    ensures s.running == {} ==>
              var u := Step(Some(t), s, e);
              && u.running == {} && !u.at.AcceptFailed?
              && (u.at.ShutDown? || u.done < s.done
                  || (u.done == s.done && s.at.Top? && !u.at.Top?)
                  || (u.done == s.done && s.at.IdleSelect? && u.at == s.at && s.now < u.now <= s.at.since + t))
  {
    if h :| h in s.running {
      e := HandlerEnds(h);
    } else if s.at.Top? {
      e := EnterSelect;
    } else if s.at.BusySelect? {
      e := TakeDone;
    } else if s.now >= s.at.since + t {
      e := TimerFires;
    } else {
      e := Tick;
    }
    StepKeeps(Some(t), s, e);
  }

  /** How long the idle wait still takes. */
  ghost function Left(t: Time, s: State): nat {
    if s.at.IdleSelect? && s.now < s.at.since + t then s.at.since + t - s.now else 0
  }

  /** With a timeout, any state of the running loop can go on to the end without anyone failing, provided
      that no further client connects: no count is ever stuck. */
  lemma {:induction false} CanAlwaysEnd(t: Time, s: State) returns (events: seq<Event>)
    requires Inv(Some(t), s) && !Ended(s)
    ensures Accept !in events && AcceptError !in events && Run(Some(t), s, events).at.ShutDown?
    decreases s.running, s.done, if s.at.Top? then 1 else 0, Left(t, s)
  {
    var e := NextToEnd(t, s);
    var u := Step(Some(t), s, e);
    if u.at.ShutDown? {
      events := [e];
      RunFirst(Some(t), s, e, []);
      assert [e] + [] == [e];
    } else {
      var rest := CanAlwaysEnd(t, u);
      RunFirst(Some(t), s, e, rest);
      events := [e] + rest;
    }
  }

  function Arrivals(n: nat): seq<Event> {
    if n == 0 then [] else [EnterSelect, Accept] + Arrivals(n - 1)
  }

  lemma ClientServed(timeout: Option<Time>, s: State)
    requires Inv(timeout, s) && s.at.Top?
    ensures var t := Step(timeout, Step(timeout, s, EnterSelect), Accept);
            && Inv(timeout, t) && t.at.Top? && t.accepted == s.accepted + 1 && t.active == s.active + 1
            && t.running == s.running + {s.accepted}
  {
    StepKeeps(timeout, s, EnterSelect);
    AcceptKeeps(timeout, Step(timeout, s, EnterSelect));
  }

  /** Each client that connects gets a handler of its own, idle loop or not. */
  lemma {:induction false} EveryClientServed(timeout: Option<Time>, s: State, n: nat)
    requires Inv(timeout, s) && s.at.Top?
    ensures var t := Run(timeout, s, Arrivals(n));
            && t.at.Top? && t.accepted == s.accepted + n && t.active == s.active + n
            && forall h: nat :: h in t.running <==> h in s.running || s.accepted <= h < s.accepted + n
    decreases n
  {
    if n > 0 {
      var selecting := Step(timeout, s, EnterSelect);
      ClientServed(timeout, s);
      assert Arrivals(n) == [EnterSelect] + ([Accept] + Arrivals(n - 1));
      RunFirst(timeout, s, EnterSelect, [Accept] + Arrivals(n - 1));
      RunFirst(timeout, selecting, Accept, Arrivals(n - 1));
      EveryClientServed(timeout, Step(timeout, selecting, Accept), n - 1);
    }
  }

  // ---------------------------------------------------------------------------
  // The loop itself
  // ---------------------------------------------------------------------------

  class Master {
    const timeout: Option<Time>
    var activeClients: nat
    var at: Position
    // The tasks and the clock around the loop.
    var running: set<nat>
    var done: nat
    var accepted: nat
    var now: Time
    ghost var busy: set<Time>

    ghost function View(): State
      reads this
    {
      State(at, activeClients, running, done, accepted, now, busy)
    }

    constructor (timeout: Option<Time>)
      ensures View() == Initial && this.timeout == timeout
    {
      this.timeout := timeout;
      at, activeClients, running, done, accepted, now, busy := Top, 0, {}, 0, 0, 0, {};
    }

    method SpawnClientHandler()
      modifies this
      ensures View() == old(View()).(running := old(running) + {old(accepted)}, accepted := old(accepted) + 1,
                                     busy := old(busy) + {now})
    {
      running := running + {accepted};
      accepted := accepted + 1;
      busy := busy + {now};
    }

    method Handle(e: Event)
      modifies this
      ensures View() == Step(timeout, old(View()), e)
    {
      match e
      case EnterSelect =>
        if at.Top? {
          at := if activeClients == 0 && timeout.Some? then IdleSelect(now) else BusySelect;
        }
      case Accept =>
        if at.IdleSelect? || at.BusySelect? {
          activeClients := activeClients + 1;
          SpawnClientHandler();
          at := Top;
        }
      case AcceptError =>
        if at.IdleSelect? || at.BusySelect? {
          at := AcceptFailed;
        }
      case TakeDone =>
        if at.BusySelect? && activeClients > 0 && done > 0 {
          done := done - 1;
          activeClients := activeClients - 1;
          at := Top;
        }
      case TimerFires =>
        if at.IdleSelect? && timeout.Some? && now >= at.since + timeout.value {
          at := ShutDown;
        }
      case HandlerEnds(h) =>
        if h in running {
          running := running - {h};
          done := done + 1;
        }
      case Tick =>
        now := now + 1;
        busy := if running != {} then busy + {now} else busy;
    }

    method Serve(events: seq<Event>)
      modifies this
      ensures View() == Run(timeout, old(View()), events)
      ensures Inv(timeout, old(View())) ==> Inv(timeout, View())
    {
      ghost var before := View();
      for n := 0 to |events|
        invariant Run(timeout, View(), events[n..]) == Run(timeout, before, events)
      {
        assert events[n..][0] == events[n] && events[n..][1..] == events[n + 1..];
        Handle(events[n]);
      }
      if Inv(timeout, before) {
        CountIsExact(timeout, before, events);
      }
    }
  }
}
